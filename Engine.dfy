/**
 * The engine's bookkeeping: the class, type and enum registries, the
 * constructor callback every constructible native class gets, the
 * managed-resource registry driven by the garbage collector, the external
 * memory counter, and teardown. The V8 objects themselves are abstracted:
 * a script object of a native class is a handle, a function template is
 * the class's membership in `classConstructors`.
 */
module Engine {
  import opened Common
  import opened Convert
  import opened ConvertProperties
  import opened Callbacks
  import opened MetaInfo
  import opened NativeInstanceImpl
  import opened InstancePayload
  import opened Registry
  import Adapter

  /**
   * A plain script object: its own properties in insertion order, and the
   * names among them that are non-enumerable, non-deletable and read-only.
   */
  datatype ScriptObject = ScriptObject(props: seq<(string, JsVal)>, hidden: set<string>)

  /** What registration mounts on `globalThis`. */
  datatype GlobalBinding = ClassFunction(meta: ClassMeta) | EnumObject(obj: ScriptObject)

  const NOT_A_FUNCTION: string := "Native class constructor cannot be called as a function"
  const SCRIPT_NULL_INSTANCE: string := "This native class cannot be constructed."
  const NATIVE_NULL_INSTANCE: string := "This native class cannot be constructed from native code."
  const READ_ONLY_PROPERTY: string := "Cannot write to read-only native property"
  /** The end of the TypeError V8 raises for `new` on a template made with `ConstructorBehavior::kThrow`; V8 puts the function's name before it. */
  const NOT_A_CONSTRUCTOR: string := "is not a constructor"
  const ENUM_NAME_KEY: string := "$name"

  /** No enum entry after position `i`, up to `upTo`, has the same name as entry `i`. */
  predicate LastOfItsName(entries: seq<EnumEntry>, i: nat, upTo: nat)
    requires i < upTo <= |entries|
  {
    forall j :: i < j < upTo ==> entries[j].name != entries[i].name
  }

  /** The names of the first `n` entries. */
  function Names(entries: seq<EnumEntry>, n: nat): set<string>
    requires n <= |entries|
  {
    set i | 0 <= i < n :: entries[i].name
  }

  lemma NamesStep(entries: seq<EnumEntry>, n: nat)
    requires n < |entries|
    ensures Names(entries, n + 1) == Names(entries, n) + {entries[n].name}
  {
    assert entries[n].name in Names(entries, n + 1);
    forall k | k in Names(entries, n + 1) ensures k in Names(entries, n) + {entries[n].name} {
      var i :| 0 <= i < n + 1 && entries[i].name == k;
      if i < n { assert k in Names(entries, n); }
    }
  }

  /** What the property loop has built after `n` entries. */
  predicate EnumPropsAfter(entries: seq<EnumEntry>, n: nat, props: seq<(string, JsVal)>)
    requires n <= |entries|
  {
    && DistinctKeys(props)
    && Keys(props) == Names(entries, n)
    && forall i :: 0 <= i < n && LastOfItsName(entries, i, n) ==>
        (entries[i].name, Number(entries[i].value)) in props
  }

  /** One `object.set(name, value)` of the loop keeps `EnumPropsAfter`. */
  lemma EnumPropsStep(entries: seq<EnumEntry>, n: nat, props: seq<(string, JsVal)>)
    requires n < |entries| && EnumPropsAfter(entries, n, props)
    ensures EnumPropsAfter(entries, n + 1, Assign(props, entries[n].name, Number(entries[n].value)))
  {
    var e := entries[n];
    AssignKeys(props, e.name, Number(e.value));
    NamesStep(entries, n);
    EnumLastWins(entries, n, props);
  }

  lemma EnumLastWins(entries: seq<EnumEntry>, n: nat, props: seq<(string, JsVal)>)
    requires n < |entries| && EnumPropsAfter(entries, n, props)
    ensures forall i :: 0 <= i < n + 1 && LastOfItsName(entries, i, n + 1) ==>
      (entries[i].name, Number(entries[i].value)) in Assign(props, entries[n].name, Number(entries[n].value))
  {
    var e := entries[n];
    var props' := Assign(props, e.name, Number(e.value));
    forall i | 0 <= i < n && LastOfItsName(entries, i, n + 1)
      ensures (entries[i].name, Number(entries[i].value)) in props'
    {
      assert LastOfItsName(entries, i, n);
      assert entries[n].name != entries[i].name;
      AssignKeepsOthers(props, e.name, Number(e.value), (entries[i].name, Number(entries[i].value)));
    }
  }

  /**
   * The enum object `registerEnum` builds: one Number property per entry,
   * set in order so that the last entry of a name wins, then a hidden
   * read-only `$name` holding the enum's name.
   */
  method EnumObjectOf(meta: EnumMeta) returns (obj: ScriptObject)
    ensures DistinctKeys(obj.props)
    ensures Keys(obj.props) == Names(meta.entries, |meta.entries|) + {ENUM_NAME_KEY}
    ensures (ENUM_NAME_KEY, String(meta.name)) in obj.props && obj.hidden == {ENUM_NAME_KEY}
    ensures forall i ::
      (0 <= i < |meta.entries| && meta.entries[i].name != ENUM_NAME_KEY && LastOfItsName(meta.entries, i, |meta.entries|)) ==>
        (meta.entries[i].name, Number(meta.entries[i].value)) in obj.props
  {
    var entries := meta.entries;
    var props: seq<(string, JsVal)> := [];
    var n := 0;
    while n < |entries|
      invariant 0 <= n <= |entries|
      invariant EnumPropsAfter(entries, n, props)
    {
      EnumPropsStep(entries, n, props);
      props := Assign(props, entries[n].name, Number(entries[n].value));
      n := n + 1;
    }
    var final := Assign(props, ENUM_NAME_KEY, String(meta.name));
    AssignKeys(props, ENUM_NAME_KEY, String(meta.name));
    forall i | 0 <= i < |entries| && entries[i].name != ENUM_NAME_KEY && LastOfItsName(entries, i, |entries|)
      ensures (entries[i].name, Number(entries[i].value)) in final
    {
      AssignKeepsOthers(props, ENUM_NAME_KEY, String(meta.name), (entries[i].name, Number(entries[i].value)));
    }
    obj := ScriptObject(final, {ENUM_NAME_KEY});
  }

  class Engine {
    /** `constructorSymbol_`: the sentinel marking a construction from native code. */
    const constructorSymbol: nat
    /** The engine's identity, as recorded in the payloads it creates. */
    const id: nat
    /** `isDestroying_`. */
    var destroying: bool
    /** `registeredClasses_`: class name to class. */
    var registeredClasses: map<string, ClassMeta>
    /** The keys of `classConstructors_`: the classes that have a function template. */
    var classConstructors: set<ClassMeta>
    /** `typeMapping_`: type identity to the first class registered for it. */
    var typeMapping: map<TypeId, ClassMeta>
    /** `registeredEnums_`. */
    var registeredEnums: map<string, EnumMeta>
    /** What registration mounted on `globalThis`. */
    var globals: map<string, GlobalBinding>
    /** The live script objects of native classes, by handle, with the payload in their internal field. */
    var objects: map<nat, InstancePayload>
    var nextHandle: nat
    /** The `ParentClassThisRef` internal field: child handle to parent handle. */
    var parentRefs: map<nat, nat>
    /** The `v8::External`s handed to a constructor call; address 0 is `nullptr`. */
    var externals: map<nat, NativeInstance>
    var nextExternal: nat
    /** `managedResources_`, by resource identity. */
    var managedResources: map<nat, Managed>
    /** Resources erased by the first GC pass whose second pass has not run yet. */
    var pendingSecondPass: map<nat, Managed>
    var nextResource: nat
    /** The external allocated memory reported to the isolate. */
    var externalMemory: int
    /** The resources whose deleter has run. */
    ghost var deleted: set<nat>

    /** The class and enum registries agree with each other and with the names they are kept under. */
    ghost predicate ClassesRegistered()
      reads this`registeredClasses, this`classConstructors, this`typeMapping, this`registeredEnums
    {
      ClassesConsistent(registeredClasses, classConstructors, typeMapping, registeredEnums)
    }

    /** Objects, parent links and externals use handles and addresses already given out. */
    ghost predicate HandlesIssued()
      reads this`objects, this`nextHandle, this`parentRefs, this`externals, this`nextExternal
    {
      HandlesConsistent(objects, nextHandle, parentRefs, externals, nextExternal)
    }

    /** Every resource is live, pending or deleted, never two of these. */
    ghost predicate ResourcesTracked()
      reads this`managedResources, this`pendingSecondPass, this`deleted, this`nextResource
    {
      ResourcesConsistent(managedResources, pendingSecondPass, deleted, nextResource)
    }

    ghost predicate Registries()
      reads this
    {
      ClassesRegistered() && HandlesIssued() && ResourcesTracked()
    }

    /** The counter is exactly what the resources not yet deleted were charged. */
    ghost predicate Accounted()
      reads this`externalMemory, this`managedResources, this`pendingSecondPass
    {
      externalMemory == Total(managedResources) + Total(pendingSecondPass)
    }

    ghost predicate Valid()
      reads this
    {
      Registries() && Accounted()
    }

    /** A fresh engine: every registry empty. */
    constructor (constructorSymbol: nat, id: nat)
      ensures Valid() && !destroying
      ensures this.constructorSymbol == constructorSymbol && this.id == id
      ensures registeredClasses == map[] && classConstructors == {} && typeMapping == map[]
      ensures registeredEnums == map[] && managedResources == map[] && pendingSecondPass == map[]
      ensures objects == map[] && externalMemory == 0
    {
      this.constructorSymbol := constructorSymbol;
      this.id := id;
      destroying := false;
      registeredClasses := map[];
      classConstructors := {};
      typeMapping := map[];
      registeredEnums := map[];
      globals := map[];
      objects := map[];
      nextHandle := 0;
      parentRefs := map[];
      externals := map[];
      nextExternal := 1;
      managedResources := map[];
      pendingSecondPass := map[];
      nextResource := 0;
      externalMemory := 0;
      deleted := {};
    }

    /** The counter never drops below zero while the books balance. */
    lemma CounterNonNegative()
      requires Valid()
      ensures externalMemory >= 0
    {
      TotalNonNegative(managedResources);
      TotalNonNegative(pendingSecondPass);
    }

    /** `getClassMeta(typeId)`: the class registered for the type, or null. */
    function GetClassMeta(t: TypeId): (r: Option<ClassMeta>)
      reads this
      ensures r.Some? <==> t in typeMapping
      ensures r.Some? && Valid() ==> r.value.typeId == t
    {
      if t in typeMapping then Some(typeMapping[t]) else None
    }

    /**
     * The checks `registerClass` makes before recording anything, in order:
     * a taken name is a `std::logic_error`; a base without a constructor, or
     * one not registered yet, is an `Exception`.
     */
    function RegistrationError(meta: ClassMeta): (e: Option<Failure>)
      reads this
      ensures e.None? <==>
        (meta.name !in registeredClasses &&
         (meta.base.Some? ==> HasConstructor(meta.base.value) && meta.base.value in classConstructors))
      ensures meta.name in registeredClasses ==> e == Some(LogicError("Class already registered: " + meta.name))
      ensures meta.name !in registeredClasses && meta.base.Some? && !HasConstructor(meta.base.value) ==>
        e == Some(Throw("Base class must have a constructor: " + meta.name))
      ensures (meta.name !in registeredClasses && meta.base.Some? && HasConstructor(meta.base.value) &&
               meta.base.value !in classConstructors) ==>
        e == Some(Throw("Base class not registered: " + meta.name))
    {
      if meta.name in registeredClasses then Some(LogicError("Class already registered: " + meta.name))
      else if meta.base.Some? && !HasConstructor(meta.base.value) then
        Some(Throw("Base class must have a constructor: " + meta.name))
      else if meta.base.Some? && meta.base.value !in classConstructors then
        Some(Throw("Base class not registered: " + meta.name))
      else None
    }

    /**
     * `registerClass(meta)`. When a check fails nothing is recorded. On
     * success the class is recorded under its name, gets a constructor, is
     * mounted on `globalThis`, and its type identity maps to it unless
     * another class took it first.
     */
    method RegisterClass(meta: ClassMeta) returns (r: Result<GlobalBinding>)
      requires Valid()
      modifies this`registeredClasses, this`classConstructors, this`typeMapping, this`globals
      ensures Valid()
      ensures old(RegistrationError(meta)).Some? ==> r == Err(old(RegistrationError(meta)).value) && unchanged(this)
      ensures r.Ok? <==> old(RegistrationError(meta)).None?
      ensures r.Ok? ==>
        && r.value == ClassFunction(meta)
        && registeredClasses == old(registeredClasses)[meta.name := meta]
        && classConstructors == old(classConstructors) + {meta}
        && typeMapping == (if meta.typeId in old(typeMapping) then old(typeMapping) else old(typeMapping)[meta.typeId := meta])
        && globals == old(globals)[meta.name := ClassFunction(meta)]
      ensures r.Ok? ==> GetClassMeta(meta.typeId).Some? && GetClassMeta(meta.typeId).value.typeId == meta.typeId
      ensures r.Ok? && old(GetClassMeta(meta.typeId)).Some? ==> GetClassMeta(meta.typeId) == old(GetClassMeta(meta.typeId))
    {
      var err := RegistrationError(meta);
      if err.Some? {
        return Err(err.value);
      }
      RecordClass(meta);
      return Ok(ClassFunction(meta));
    }

    /** The successful half of `registerClass`: the class, its constructor, its type and its global. */
    method RecordClass(meta: ClassMeta)
      requires Valid() && RegistrationError(meta).None?
      modifies this`registeredClasses, this`classConstructors, this`typeMapping, this`globals
      ensures Valid()
      ensures registeredClasses == old(registeredClasses)[meta.name := meta]
      ensures classConstructors == old(classConstructors) + {meta}
      ensures typeMapping == (if meta.typeId in old(typeMapping) then old(typeMapping) else old(typeMapping)[meta.typeId := meta])
      ensures globals == old(globals)[meta.name := ClassFunction(meta)]
    {
      assert HandlesIssued() && ClassesRegistered() && ResourcesTracked();
      ClassAddedConsistent(registeredClasses, classConstructors, typeMapping, registeredEnums, meta);
      registeredClasses := registeredClasses[meta.name := meta];
      classConstructors := classConstructors + {meta};
      if meta.typeId !in typeMapping {
        typeMapping := typeMapping[meta.typeId := meta];
      }
      globals := globals[meta.name := ClassFunction(meta)];
    }

    /**
     * `registerEnum(meta)`: a taken name is a `std::logic_error`; otherwise
     * the enum object is built, recorded and mounted on `globalThis`.
     */
    method RegisterEnum(meta: EnumMeta) returns (r: Result<ScriptObject>)
      requires Valid()
      modifies this`registeredEnums, this`globals
      ensures Valid()
      ensures meta.name in old(registeredEnums) ==>
        r == Err(LogicError("Enum already registered: " + meta.name)) && unchanged(this)
      ensures meta.name !in old(registeredEnums) ==>
        && r.Ok?
        && registeredEnums == old(registeredEnums)[meta.name := meta]
        && globals == old(globals)[meta.name := EnumObject(r.value)]
        && (ENUM_NAME_KEY, String(meta.name)) in r.value.props && ENUM_NAME_KEY in r.value.hidden
        && (forall i ::
              (0 <= i < |meta.entries| && meta.entries[i].name != ENUM_NAME_KEY && LastOfItsName(meta.entries, i, |meta.entries|)) ==>
              (meta.entries[i].name, Number(meta.entries[i].value)) in r.value.props)
    {
      if meta.name in registeredEnums {
        return Err(LogicError("Enum already registered: " + meta.name));
      }
      var obj := EnumObjectOf(meta);
      registeredEnums := registeredEnums[meta.name := meta];
      globals := globals[meta.name := EnumObject(obj)];
      return Ok(obj);
    }

    /** `getInstancePayload(obj)`: the payload in a native object's internal field, null for any other value. */
    function GetInstancePayload(v: JsVal): (r: Option<InstancePayload>)
      reads this
      ensures r.Some? <==> v.Instance? && v.handle in objects
      ensures r.Some? ==> r.value == objects[v.handle]
    {
      if v.Instance? && v.handle in objects then Some(objects[v.handle]) else None
    }

    /**
     * `isInstanceOf(obj, meta)`: false for a class without a constructor
     * template; otherwise whether the object was constructed as `meta` or as
     * a class whose base chain reaches `meta` (the template's `HasInstance`).
     */
    predicate IsInstanceOf(v: JsVal, meta: ClassMeta): (b: bool)
      reads this
      ensures meta !in classConstructors ==> !b
      ensures b ==> GetInstancePayload(v).Some? && GetInstancePayload(v).value.define.Some?
      ensures b ==> meta.typeId in Ancestry(GetInstancePayload(v).value.define.value)
    {
      && meta in classConstructors
      && GetInstancePayload(v).Some?
      && GetInstancePayload(v).value.define.Some?
      && meta in Lineage(GetInstancePayload(v).value.define.value)
    }

    /**
     * `trySetReferenceInternal(parent, child)`: succeeds only when both are
     * native objects, and then records the parent in the child.
     */
    method TrySetReferenceInternal(parent: JsVal, child: JsVal) returns (ok: bool)
      requires Valid()
      modifies this`parentRefs
      ensures Valid()
      ensures ok <==> GetInstancePayload(parent).Some? && GetInstancePayload(child).Some?
      ensures ok ==> parentRefs == old(parentRefs)[child.handle := parent.handle]
      ensures !ok ==> parentRefs == old(parentRefs)
    {
      if GetInstancePayload(parent).None? || GetInstancePayload(child).None? {
        return false;
      }
      parentRefs := parentRefs[child.handle := parent.handle];
      return true;
    }

    /** The two-argument call `newInstance` makes: the sentinel symbol, then an external. */
    predicate IsNativeConstruction(args: seq<JsVal>) {
      |args| == 2 && args[0] == Symbol(constructorSymbol) && args[1].External?
    }

    /** The instance an external carries; `nullptr` and unknown addresses carry none. */
    function Supplied(p: nat): Option<NativeInstance>
      reads this
    {
      if p in externals then Some(externals[p]) else None
    }

    /**
     * `addManagedResource(payload, object, deleter)` for a payload whose
     * charge the counter already includes: one new entry.
     */
    method AddManagedResource(p: InstancePayload, handle: nat) returns (key: nat)
      requires Registries()
      requires externalMemory == Total(managedResources) + Total(pendingSecondPass) + Charge(p)
      modifies this`managedResources, this`nextResource
      ensures Valid()
      ensures key == old(nextResource) && key !in old(managedResources)
      ensures managedResources == old(managedResources)[key := Managed(p, handle)]
      ensures nextResource == old(nextResource) + 1
    {
      key := nextResource;
      TotalAdd(managedResources, key, Managed(p, handle));
      managedResources := managedResources[key := Managed(p, handle)];
      nextResource := nextResource + 1;
    }

    /**
     * The constructor callback of a constructible class. A plain call is
     * refused. The native path (sentinel symbol plus external) takes the
     * instance the external carries; any other argument list goes to the
     * class's constructor callback, `userCtor`. A null instance is refused
     * with a message naming the path. Otherwise the object gets a payload,
     * the counter rises by the class size only for a script `new`, and the
     * payload becomes a managed resource. Every failure of `userCtor` is
     * passed on as the call's result: the callback catches a v8kit
     * `Exception` and rethrows it into script, and any other C++ exception
     * leaves the callback uncaught, which the model does not tell apart.
     */
    method Construct(isConstructCall: bool, args: seq<JsVal>, meta: ClassMeta,
                     userCtor: (nat, seq<JsVal>) -> Result<Option<NativeInstance>>)
      returns (r: Result<JsVal>)
      requires Valid() && meta in classConstructors && HasConstructor(meta)
      modifies this`objects, this`nextHandle, this`externalMemory, this`managedResources, this`nextResource
      ensures Valid()
      ensures !isConstructCall ==> r == Err(Throw(NOT_A_FUNCTION)) && unchanged(this)
      ensures isConstructCall && IsNativeConstruction(args) ==>
        if Supplied(args[1].pointer).None? then r == Err(Throw(NATIVE_NULL_INSTANCE)) && unchanged(this) else r.Ok?
      ensures isConstructCall && !IsNativeConstruction(args) ==>
        match userCtor(meta.instanceMeta.ctor.value.id, args)
        case Err(f) => r == Err(f) && unchanged(this)
        case Ok(None) => r == Err(Throw(SCRIPT_NULL_INSTANCE)) && unchanged(this)
        case Ok(Some(_)) => r.Ok?
      ensures r.Ok? ==>
        var h := old(nextHandle);
        var fromJs := !IsNativeConstruction(args);
        var instance := if fromJs then userCtor(meta.instanceMeta.ctor.value.id, args).value
                        else old(Supplied(args[1].pointer));
        && r.value == Instance(h)
        && h in objects && fresh(objects[h])
        && objects == old(objects)[h := objects[h]]
        && objects[h].holder == instance && instance.Some?
        && objects[h].define == Some(meta) && objects[h].engine == Some(id)
        && objects[h].constructFromJs == fromJs
        && externalMemory == old(externalMemory) + (if fromJs then meta.instanceMeta.classSize else 0)
        && managedResources == old(managedResources)[old(nextResource) := Managed(objects[h], h)]
    {
      if !isConstructCall {
        return Err(Throw(NOT_A_FUNCTION));
      }
      var instance: Option<NativeInstance>;
      var fromJs := true;
      if IsNativeConstruction(args) {
        instance := Supplied(args[1].pointer);
        fromJs := false;
      } else {
        var made := userCtor(meta.instanceMeta.ctor.value.id, args);
        if made.Err? {
          return Err(made.failure);
        }
        instance := made.value;
      }
      if instance.None? {
        if fromJs {
          return Err(Throw(SCRIPT_NULL_INSTANCE));
        } else {
          return Err(Throw(NATIVE_NULL_INSTANCE));
        }
      }
      var h := Attach(instance.value, meta, fromJs);
      return Ok(Instance(h));
    }

    /**
     * The successful end of the constructor callback: the object gets a
     * payload holding the instance, the counter rises by the class size
     * only for a script `new`, and the payload becomes a managed resource.
     */
    method Attach(instance: NativeInstance, meta: ClassMeta, fromJs: bool) returns (h: nat)
      requires Valid()
      modifies this`objects, this`nextHandle, this`externalMemory, this`managedResources, this`nextResource
      ensures Valid()
      ensures h == old(nextHandle) && h in objects && fresh(objects[h])
      ensures objects == old(objects)[h := objects[h]]
      ensures objects[h].holder == Some(instance)
      ensures objects[h].define == Some(meta) && objects[h].engine == Some(id)
      ensures objects[h].constructFromJs == fromJs
      ensures externalMemory == old(externalMemory) + (if fromJs then meta.instanceMeta.classSize else 0)
      ensures managedResources == old(managedResources)[old(nextResource) := Managed(objects[h], h)]
    {
      var payload := new InstancePayload(Some(instance), Some(meta), Some(id), fromJs);
      h := nextHandle;
      objects := objects[h := payload];
      nextHandle := nextHandle + 1;
      if fromJs {
        externalMemory := externalMemory + meta.instanceMeta.classSize;
      }
      var _ := AddManagedResource(payload, h);
    }

    /**
     * `newInstance(meta, instance)`: a class without a constructor template
     * is a `std::logic_error`; a class whose template refuses `new` makes
     * V8 throw a TypeError; otherwise the instance travels to the
     * constructor callback through an external, on the native path.
     */
    method NewInstance(meta: ClassMeta, instance: Option<NativeInstance>) returns (r: Result<JsVal>)
      requires Valid()
      modifies this`externals, this`nextExternal, this`objects, this`nextHandle, this`externalMemory, this`managedResources, this`nextResource
      ensures Valid()
      ensures meta !in old(classConstructors) ==>
        r == Err(LogicError("The native class " + meta.name + " is not registered, so an instance cannot be constructed."))
      ensures meta in old(classConstructors) && !HasConstructor(meta) ==>
        r.Err? && r.failure.Exception? && r.failure.kind == TypeError
      ensures meta in old(classConstructors) && HasConstructor(meta) && instance.None? ==>
        r == Err(Throw(NATIVE_NULL_INSTANCE))
      ensures r.Ok? <==> meta in old(classConstructors) && HasConstructor(meta) && instance.Some?
      ensures r.Ok? ==>
        var h := old(nextHandle);
        && r.value == Instance(h) && h in objects
        && objects == old(objects)[h := objects[h]]
        && objects[h].holder == instance && objects[h].define == Some(meta) && !objects[h].constructFromJs
        && externalMemory == old(externalMemory)
      ensures r.Ok? ==>
        managedResources == old(managedResources)[old(nextResource) := Managed(objects[old(nextHandle)], old(nextHandle))]
      ensures r.Err? ==>
        objects == old(objects) && managedResources == old(managedResources) && externalMemory == old(externalMemory)
    {
      assert HandlesIssued() && ClassesRegistered() && ResourcesTracked();
      if meta !in classConstructors {
        return Err(LogicError("The native class " + meta.name + " is not registered, so an instance cannot be constructed."));
      }
      if !HasConstructor(meta) {
        return Err(Exception(TypeError, NOT_A_CONSTRUCTOR));
      }
      var p := Externalize(instance);
      r := Construct(true, [Symbol(constructorSymbol), External(p)], meta, (_, _) => Ok(None));
    }

    /** The `v8::External` that carries an instance to the constructor callback; `nullptr` for none. */
    method Externalize(instance: Option<NativeInstance>) returns (p: nat)
      requires Valid()
      modifies this`externals, this`nextExternal
      ensures Valid()
      ensures Supplied(p) == instance
    {
      assert HandlesIssued();
      p := 0;
      if instance.Some? {
        p := nextExternal;
        externals := externals[p := instance.value];
        nextExternal := nextExternal + 1;
      }
    }

    /**
     * The first pass of the weak callback of a collected object: its
     * resource must still be registered, and is erased; deletion waits for
     * the second pass.
     */
    method GcFirstPass(key: nat)
      requires Valid() && key in managedResources
      modifies this`managedResources, this`pendingSecondPass, this`objects
      ensures Valid()
      ensures managedResources == old(managedResources) - {key}
      ensures pendingSecondPass == old(pendingSecondPass)[key := old(managedResources)[key]]
      ensures objects == old(objects) - {old(managedResources)[key].handle}
    {
      var m := managedResources[key];
      TotalRemove(managedResources, key);
      TotalAdd(pendingSecondPass, key, m);
      managedResources := managedResources - {key};
      pendingSecondPass := pendingSecondPass[key := m];
      objects := objects - {m.handle};
    }

    /**
     * The second pass, with the deleter run: the payload is deleted and,
     * if a script `new` made it, the counter falls by its class size.
     */
    method GcSecondPass(key: nat)
      requires Valid() && key in pendingSecondPass
      modifies this`pendingSecondPass, this`externalMemory, this`deleted
      ensures Valid()
      ensures pendingSecondPass == old(pendingSecondPass) - {key}
      ensures externalMemory == old(externalMemory) - Charge(old(pendingSecondPass)[key].payload)
      ensures deleted == old(deleted) + {key}
    {
      var m := pendingSecondPass[key];
      TotalRemove(pendingSecondPass, key);
      externalMemory := externalMemory - Charge(m.payload);
      deleted := deleted + {key};
      pendingSecondPass := pendingSecondPass - {key};
    }

    /**
     * The second pass as written: `delete managed` destroys the record
     * without calling its deleter. The payload is never deleted, and a
     * charged payload leaves the counter above what the live resources were
     * charged, for good.
     */
    method GcSecondPassAsWritten(key: nat)
      requires Valid() && key in pendingSecondPass
      modifies this`pendingSecondPass
      ensures pendingSecondPass == old(pendingSecondPass) - {key}
      ensures key !in managedResources && key !in pendingSecondPass && key !in deleted
      ensures Registries()
      ensures Charge(old(pendingSecondPass)[key].payload) > 0 ==> !Accounted()
      ensures Charge(old(pendingSecondPass)[key].payload) > 0 ==>
        externalMemory == Total(managedResources) + Total(pendingSecondPass) + Charge(old(pendingSecondPass)[key].payload)
    {
      TotalRemove(pendingSecondPass, key);
      pendingSecondPass := pendingSecondPass - {key};
    }

    /**
     * `~Engine()`: does nothing once destruction has begun. Otherwise it
     * runs the deleter of every resource still registered, then clears the
     * constructors, the class registry and the resource registry. The type
     * and enum registries are left as they are. Script objects are not
     * touched: their payloads stay in `objects`, and only the keys of their
     * resources are recorded in `deleted`.
     */
    method Teardown()
      requires Valid()
      modifies this`destroying, this`classConstructors, this`registeredClasses, this`managedResources,
               this`externalMemory, this`deleted
      ensures Valid()
      ensures old(destroying) ==> unchanged(this)
      ensures !old(destroying) ==>
        && destroying
        && managedResources == map[] && classConstructors == {} && registeredClasses == map[]
        && deleted == old(deleted) + old(managedResources).Keys
        && externalMemory == old(externalMemory) - Total(old(managedResources))
        && externalMemory == Total(pendingSecondPass)
    {
      if destroying {
        return;
      }
      destroying := true;
      DeleteResources();
      ClearClasses();
    }

    /** The deleter of every registered resource runs, and the resource registry is cleared. */
    method DeleteResources()
      requires Valid()
      modifies this`managedResources, this`externalMemory, this`deleted
      ensures Valid()
      ensures managedResources == map[]
      ensures deleted == old(deleted) + old(managedResources).Keys
      ensures externalMemory == old(externalMemory) - Total(old(managedResources))
      ensures externalMemory == Total(pendingSecondPass)
    {
      assert ResourcesTracked() && Accounted();
      AllDeletedConsistent(managedResources, pendingSecondPass, deleted, nextResource);
      var left;
      ghost var done;
      left, done := RunDeleters(managedResources, externalMemory);
      externalMemory := left;
      deleted := deleted + done;
      TotalEmpty();
      managedResources := map[];
    }

    /** The constructor templates and the class registry are released. */
    method ClearClasses()
      requires Valid()
      modifies this`classConstructors, this`registeredClasses
      ensures Valid()
      ensures classConstructors == {} && registeredClasses == map[]
    {
      assert ClassesRegistered();
      ClassesClearedConsistent(registeredClasses, classConstructors, typeMapping, registeredEnums);
      classConstructors := {};
      registeredClasses := map[];
    }
  }

  /**
   * The setter V8 runs for a static property: the property's own setter,
   * or, when it has none, a TypeError.
   */
  method WriteStaticProperty(prop: StaticProperty, v: JsVal, mem: Adapter.NativeMemory, n: Adapter.Natives)
    returns (r: Result<()>)
    requires prop.setter.Some? && prop.setter.value.WrappedSetter? ==> |prop.setter.value.fn.params| == 1
    modifies mem
    ensures prop.setter.None? ==> r == Err(Exception(TypeError, READ_ONLY_PROPERTY)) && mem.cells == old(mem.cells)
    ensures prop.setter.Some? && prop.setter.value.MemberSetter? && prop.setter.value.address.Some? ==>
      match ToCpp(prop.setter.value.pointee, v)
      case Ok(c) => r == Ok(()) && mem.cells == old(mem.cells)[prop.setter.value.address.value := c]
      case Err(f) => r == Err(f) && mem.cells == old(mem.cells)
    ensures prop.setter.Some? && prop.setter.value.MemberSetter? && prop.setter.value.address.None? ==>
      r == Err(Throw(Adapter.NULL_STATIC_MEMBER)) && mem.cells == old(mem.cells)
    ensures prop.setter.Some? && prop.setter.value.RawSetter? ==>
      var ret := n.callRaw(prop.setter.value.id, [v]);
      (r.Ok? <==> ret.Ok?) && (r.Err? ==> r.failure == ret.failure) && mem.cells == old(mem.cells)
    ensures prop.setter.Some? && prop.setter.value.WrappedSetter? ==>
      mem.cells == old(mem.cells) &&
      match ToCpp(prop.setter.value.fn.params[0], v)
      case Err(f) => r == Err(f)
      case Ok(x) =>
        var ret := n.invoke(prop.setter.value.fn, [x]);
        (r.Ok? <==> ret.Ok?) && (r.Err? ==> r.failure == ret.failure)
  {
    if prop.setter.None? {
      return Err(Exception(TypeError, READ_ONLY_PROPERTY));
    }
    r := Adapter.CallSetter(prop.setter.value, v, mem, n);
  }
}
