/**
 * The converters for bound classes: `toJs` wraps a C++ object of a
 * registered class into a script object, `toCpp` unwraps one. Two
 * versions of `toJs` exist: the generic converter and the specialisation
 * for bound classes.
 */
module Binding {
  import opened Common
  import opened Convert
  import opened MetaInfo
  import opened NativeInstanceImpl
  import opened InstancePayload
  import opened Polymorphic
  import opened PolicyResolver
  import opened Engine

  const NOT_AN_INSTANCE: string := "Argument is not a native instance"
  const CAST_FAILED: string := "Type mismatch or cast failed"
  const NULL_FROM_TO_CPP: string := "TypeConverter::toCpp returned a null pointer."
  const PARENT_NOT_OBJECT: string := "kReferenceInternal requires a valid parent object"
  const REFERENCE_INTERNAL_FAILED: string := "Failed to set reference internal"

  /** The engine's `getClassMeta` as a plain lookup over a snapshot of its type registry. */
  function LookupIn(mapping: map<TypeId, ClassMeta>): TypeId -> Option<ClassMeta> {
    t => if t in mapping then Some(mapping[t]) else None
  }

  /**
   * The class the bound-class `toJs` presents: the reported type's class
   * if registered, else the static type's; when neither is registered the
   * error names the reported type.
   */
  function BindingMeta(mapping: map<TypeId, ClassMeta>, polymorphic: bool, staticType: TypeId, p: Pointee): (r: Result<ClassMeta>)
    ensures var reported := HookGet(polymorphic, staticType, Some(p)).reported.value;
      && (reported in mapping ==> r == Ok(mapping[reported]))
      && (reported !in mapping && staticType in mapping ==> r == Ok(mapping[staticType]))
      && (reported !in mapping && staticType !in mapping ==> r == Err(Throw("Class not registered: " + reported.name)))
  {
    var hook := HookGet(polymorphic, staticType, Some(p));
    var typeIdx := if hook.reported.Some? then hook.reported.value else staticType;
    if typeIdx in mapping then Ok(mapping[typeIdx])
    else if staticType in mapping then Ok(mapping[staticType])
    else Err(Throw("Class not registered: " + typeIdx.name))
  }

  /**
   * The bound-class `toJs` and `resolveCastSource` choose the same class
   * for a non-null pointer and fail on the same inputs; only the message
   * differs, naming the dynamic type in one and the static type in the
   * other.
   */
  lemma BindingMetaAgreesWithResolveCastSource(mapping: map<TypeId, ClassMeta>, polymorphic: bool,
                                               staticType: TypeId, p: Pointee)
    ensures var a := BindingMeta(mapping, polymorphic, staticType, Some(p).value);
      var b := ResolveCastSource(polymorphic, staticType, Some(p), LookupIn(mapping));
      && (a.Ok? <==> b.Ok?)
      && (a.Ok? ==> a.value == b.value.meta)
      && (a.Err? && polymorphic && p.dynamicType != staticType ==> a.failure != b.failure)
  {
    var a := BindingMeta(mapping, polymorphic, staticType, p);
    var b := ResolveCastSource(polymorphic, staticType, Some(p), LookupIn(mapping));
    if a.Err? && polymorphic && p.dynamicType != staticType {
      assert a.failure.message == "Class not registered: " + p.dynamicType.name;
      assert b.failure.message == "Class not registered: " + staticType.name;
      assert ("Class not registered: " + p.dynamicType.name)[22..] == p.dynamicType.name;
      assert ("Class not registered: " + staticType.name)[22..] == staticType.name;
    }
  }

  /** Whether `Materialise` yields an instance for the resolved policy and the value's shape. */
  predicate Materialises(p: ReturnValuePolicy, shape: ValueShape, element: ElementType) {
    && p != Automatic
    && (p == Copy ==> element.copyConstructible)
    && (p == Move ==> element.moveConstructible)
    && (p == TakeOwnership ==> shape == Pointer)
  }

  /**
   * The bound-class `toJs(value, policy, parent)`. The policy is resolved
   * from the value's shape; a null pointer is `null`; the class is chosen
   * by `BindingMeta`; the holder by `Materialise` (a copy or a moved object
   * is made at `newAt`); the object is made by `newInstance`; and
   * `ReferenceInternal` finally demands an object as parent.
   */
  method BindingClassToJs(e: Engine, policy: ReturnValuePolicy, shape: ValueShape, src: Option<Pointee>,
                          polymorphic: bool, staticType: TypeId, element: ElementType, parent: JsVal, newAt: nat)
    returns (r: Result<JsVal>)
    requires e.Valid()
    requires shape != Pointer ==> src.Some?
    modifies e
    ensures e.Valid()
    ensures src.None? ==> r == Ok(Null) && unchanged(e)
    ensures src.Some? && old(BindingMeta(e.typeMapping, polymorphic, staticType, src.value)).Err? ==>
      r == Err(old(BindingMeta(e.typeMapping, polymorphic, staticType, src.value)).failure) && unchanged(e)
    ensures var p := HandleAutomaticPolicy(policy, shape);
      src.Some? && (p == Automatic || (p == Move && !element.moveConstructible)) ==> r.Err?
    ensures src.Some? && old(BindingMeta(e.typeMapping, polymorphic, staticType, src.value)).Ok? ==>
      var p := HandleAutomaticPolicy(policy, shape);
      && (p == Copy && !element.copyConstructible ==> r == Err(Throw(NOT_COPY_CONSTRUCTIBLE)) && unchanged(e))
      && (p == TakeOwnership && shape != Pointer ==> r == Err(Throw(CANNOT_TAKE_OWNERSHIP)) && unchanged(e))
    ensures src.Some? && old(BindingMeta(e.typeMapping, polymorphic, staticType, src.value)).Ok? ==>
      var meta := old(BindingMeta(e.typeMapping, polymorphic, staticType, src.value)).value;
      var p := HandleAutomaticPolicy(policy, shape);
      Materialises(p, shape, element) && meta in old(e.classConstructors) && HasConstructor(meta) ==>
        if p == ReferenceInternal && !IsObject(parent) then r == Err(Throw(PARENT_NOT_OBJECT))
        else r.Ok? && r.value.Instance?
    ensures r.Ok? && src.Some? ==>
      var meta := old(BindingMeta(e.typeMapping, polymorphic, staticType, src.value)).value;
      var p := HandleAutomaticPolicy(policy, shape);
      && r.value.Instance? && r.value.handle in e.objects
      && e.objects[r.value.handle].define == Some(meta)
      && e.objects[r.value.handle].holder.Some?
      && (IsOwned(e.objects[r.value.handle].holder.value) <==> Owning(p))
      && e.objects[r.value.handle].holder.value.ptr == Some(if Duplicating(p) then newAt else src.value.address)
      && (p == ReferenceInternal ==> IsObject(parent))
  {
    var p := HandleAutomaticPolicy(policy, shape);
    if src.None? {
      return Ok(Null);
    }
    var meta := BindingMeta(e.typeMapping, polymorphic, staticType, src.value);
    if meta.Err? {
      return Err(meta.failure);
    }
    var instance := Materialise(p, shape == Pointer, meta.value, element, src.value.address, newAt);
    if instance.Err? {
      return Err(instance.failure);
    }
    r := e.NewInstance(meta.value, instance.value);
    if r.Err? {
      return;
    }
    if p == ReferenceInternal && !IsObject(parent) {
      return Err(Throw(PARENT_NOT_OBJECT));
    }
  }

  /**
   * `GenericTypeConverter<T>::toJs(value, policy, parent)`.
   * `resolveAutomaticPolicy` and `createNativeInstance` are supplied by the
   * caller. A null pointer, or a null instance, is `null`; a
   * `ReferenceInternal` result must be attached to an object parent.
   */
  method GenericToJs(e: Engine, policy: ReturnValuePolicy, src: Option<Pointee>, polymorphic: bool, staticType: TypeId,
                     parent: JsVal,
                     resolveAutomaticPolicy: ReturnValuePolicy -> ReturnValuePolicy,
                     createNativeInstance: (ReturnValuePolicy, ResolvedCastSource) -> Option<NativeInstance>)
    returns (r: Result<JsVal>)
    requires e.Valid()
    modifies e
    ensures e.Valid()
    ensures src.None? ==> r == Ok(Null) && unchanged(e)
    ensures src.Some? && ResolveCastSource(polymorphic, staticType, src, LookupIn(old(e.typeMapping))).Err? ==>
      r == Err(ResolveCastSource(polymorphic, staticType, src, LookupIn(old(e.typeMapping))).failure) && unchanged(e)
    ensures src.Some? && ResolveCastSource(polymorphic, staticType, src, LookupIn(old(e.typeMapping))).Ok? ==>
      var resolved := ResolveCastSource(polymorphic, staticType, src, LookupIn(old(e.typeMapping))).value;
      var p := resolveAutomaticPolicy(policy);
      && (createNativeInstance(p, resolved) == None ==> r == Ok(Null) && unchanged(e))
      && (createNativeInstance(p, resolved).Some? && resolved.meta in old(e.classConstructors) && HasConstructor(resolved.meta) ==>
            if p == ReferenceInternal && !IsObject(parent) then r == Err(Throw(PARENT_NOT_OBJECT))
            else if p == ReferenceInternal && !parent.Instance? then r == Err(Throw(REFERENCE_INTERNAL_FAILED))
            else (p == ReferenceInternal ==> old(e.GetInstancePayload(parent)).Some?) ==> r.Ok? && r.value.Instance?)
    ensures r.Ok? && r.value != Null ==>
      var resolved := ResolveCastSource(polymorphic, staticType, src, LookupIn(old(e.typeMapping))).value;
      && r.value.Instance? && r.value.handle in e.objects
      && e.objects[r.value.handle].define == Some(resolved.meta)
      && e.objects[r.value.handle].holder == createNativeInstance(resolveAutomaticPolicy(policy), resolved)
    ensures r.Ok? && r.value != Null && resolveAutomaticPolicy(policy) == ReferenceInternal ==>
      IsObject(parent) && parent.Instance? && parent.handle in e.objects &&
      r.value.handle in e.parentRefs && e.parentRefs[r.value.handle] == parent.handle
  {
    var p := resolveAutomaticPolicy(policy);
    if src.None? {
      return Ok(Null);
    }
    var resolved := ResolveCastSource(polymorphic, staticType, src, LookupIn(e.typeMapping));
    if resolved.Err? {
      return Err(resolved.failure);
    }
    var instance := createNativeInstance(p, resolved.value);
    if instance.None? {
      return Ok(Null);
    }
    ghost var parentKnown := e.GetInstancePayload(parent).Some?;
    r := e.NewInstance(resolved.value.meta, instance);
    if r.Err? {
      return;
    }
    assert parentKnown ==> e.GetInstancePayload(parent).Some?;
    assert e.GetInstancePayload(r.value).Some?;
    if p == ReferenceInternal {
      if !IsObject(parent) {
        return Err(Throw(PARENT_NOT_OBJECT));
      }
      var ok := e.TrySetReferenceInternal(parent, r.value);
      if !ok {
        return Err(Throw(REFERENCE_INTERNAL_FAILED));
      }
    }
  }

  /**
   * `GenericTypeConverter<T>::toCpp(value)` with the null-safe unwrap: a
   * non-object fails in `asObject`, an object without a payload is "not a
   * native instance", and a released holder or a failed cast is a type
   * mismatch. A returned pointer is never null.
   */
  function GenericToCpp(e: Engine, v: JsVal, target: TypeId, castTo: (ClassMeta, nat, TypeId) -> Option<nat>)
    : (r: Result<Option<nat>>)
    reads e, e.objects.Values
    ensures !IsObject(v) ==> r == Err(AccessorFailure("Object"))
    ensures IsObject(v) && e.GetInstancePayload(v).None? ==> r == Err(Throw(NOT_AN_INSTANCE))
    ensures r.Ok? ==> r.value.Some? && r.value == e.GetInstancePayload(v).value.Unwrap(target, castTo)
    ensures e.GetInstancePayload(v).Some? && e.GetInstancePayload(v).value.holder.None? ==> r == Err(Throw(CAST_FAILED))
    ensures (e.GetInstancePayload(v).Some? && e.GetInstancePayload(v).value.holder.Some? &&
      TypeIdOf(e.GetInstancePayload(v).value.holder.value) == target &&
      e.GetInstancePayload(v).value.holder.value.ptr.Some?) ==>
        r == Ok(e.GetInstancePayload(v).value.holder.value.ptr)
  {
    if !IsObject(v) then Err(AccessorFailure("Object"))
    else
      var payload := e.GetInstancePayload(v);
      if payload.None? then Err(Throw(NOT_AN_INSTANCE))
      else
        var p := payload.value.Unwrap(target, castTo);
        if p.None? then Err(Throw(CAST_FAILED)) else Ok(p)
  }

  /** What running a conversion can end in: a result, or dereferencing a null holder. */
  datatype Outcome = Returned(result: Result<Option<nat>>) | NullDereference

  /**
   * `GenericTypeConverter<T>::toCpp(value)` as written: it calls
   * `unwrap<T>` on `getHolder()`, which is null once the payload was
   * finalized.
   */
  function GenericToCppAsWritten(e: Engine, v: JsVal, target: TypeId, castTo: (ClassMeta, nat, TypeId) -> Option<nat>)
    : (r: Outcome)
    reads e, e.objects.Values
    ensures e.GetInstancePayload(v).Some? && e.GetInstancePayload(v).value.holder.Some? ==>
      r == Returned(GenericToCpp(e, v, target, castTo))
  {
    if !IsObject(v) then Returned(Err(AccessorFailure("Object")))
    else
      var payload := e.GetInstancePayload(v);
      if payload.None? then Returned(Err(Throw(NOT_AN_INSTANCE)))
      else if payload.value.GetHolder().None? then NullDereference
      else
        var p := Cast(payload.value.GetHolder().value, target, castTo);
        if p.None? then Returned(Err(Throw(CAST_FAILED))) else Returned(Ok(p))
  }

  /**
   * Converting an object whose payload was finalized dereferences a null
   * holder as written, where the null-safe unwrap reports a type mismatch.
   */
  lemma FinalizedInstanceAsWritten(e: Engine, h: nat, target: TypeId, castTo: (ClassMeta, nat, TypeId) -> Option<nat>)
    requires h in e.objects && e.objects[h].holder.None?
    ensures GenericToCppAsWritten(e, Instance(h), target, castTo) == NullDereference
    ensures GenericToCpp(e, Instance(h), target, castTo) == Err(Throw(CAST_FAILED))
  {
  }

  /**
   * `toCpp<T&>` applied to what the pointer converter returned: the
   * converter's error is passed on, and a null pointer becomes a
   * `std::runtime_error`.
   */
  function ToCppRef(p: Result<Option<nat>>): (r: Result<nat>)
    ensures r.Ok? <==> p.Ok? && p.value.Some?
    ensures r.Ok? ==> p == Ok(Some(r.value))
    ensures p.Err? ==> r == Err(p.failure)
    ensures p == Ok(None) ==> r == Err(RuntimeError(NULL_FROM_TO_CPP))
  {
    if p.Err? then Err(p.failure)
    else if p.value.None? then Err(RuntimeError(NULL_FROM_TO_CPP))
    else Ok(p.value.value)
  }

  /**
   * Over the generic converter a reference conversion fails exactly when
   * the pointer conversion does, with its error: the null-pointer
   * `runtime_error` is unreachable.
   */
  lemma ToCppRefNeverNull(e: Engine, v: JsVal, target: TypeId, castTo: (ClassMeta, nat, TypeId) -> Option<nat>)
    ensures var r := ToCppRef(GenericToCpp(e, v, target, castTo));
      && (r.Err? ==> !r.failure.RuntimeError? && GenericToCpp(e, v, target, castTo) == Err(r.failure))
      && (r.Ok? <==> GenericToCpp(e, v, target, castTo).Ok?)
  {
  }
}
