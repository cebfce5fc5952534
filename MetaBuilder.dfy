/**
 * The builders that collect a class's or an enum's members and package
 * them into immutable metadata. A class name may be namespaced with dots
 * (`a.b.c.ClassName`); the builder refuses a name it cannot register.
 */
module MetaBuilder {
  import opened Common
  import opened Convert
  import opened Callbacks
  import opened MetaInfo
  import Adapter

  const EMPTY_NAME: string := "class name cannot be empty"
  const EDGE_DOT: string := "class name cannot start or end with '.'"
  const CONSECUTIVE_DOTS: string := "class name cannot contain consecutive '.'"

  /** Positions `i` and `i + 1` both hold a dot. */
  predicate DotsAt(name: string, i: int) {
    0 <= i < |name| - 1 && name[i] == '.' && name[i + 1] == '.'
  }

  predicate HasConsecutiveDots(name: string) {
    exists i :: 0 <= i < |name| - 1 && DotsAt(name, i)
  }

  /** A name the builder accepts: non-empty, no dot at either end, no two dots in a row. */
  predicate WellFormedClassName(name: string) {
    name != [] && name[0] != '.' && name[|name| - 1] != '.' && !HasConsecutiveDots(name)
  }

  /**
   * The checks of the `ClassMetaBuilder` constructor: emptiness, then the
   * two ends, then a scan remembering whether the previous character was a
   * dot. The first check that fails decides the message.
   */
  method ValidateClassName(name: string) returns (err: Option<Failure>)
    ensures err.None? <==> WellFormedClassName(name)
    ensures name == [] ==> err == Some(InvalidArgument(EMPTY_NAME))
    ensures name != [] && (name[0] == '.' || name[|name| - 1] == '.') ==> err == Some(InvalidArgument(EDGE_DOT))
    ensures name != [] && name[0] != '.' && name[|name| - 1] != '.' && HasConsecutiveDots(name) ==>
      err == Some(InvalidArgument(CONSECUTIVE_DOTS))
  {
    if |name| == 0 {
      return Some(InvalidArgument(EMPTY_NAME));
    }
    if name[0] == '.' || name[|name| - 1] == '.' {
      return Some(InvalidArgument(EDGE_DOT));
    }
    var prevDot := false;
    var i := 0;
    while i < |name|
      invariant 0 <= i <= |name|
      invariant prevDot <==> i > 0 && name[i - 1] == '.'
      invariant forall j :: 0 <= j && j + 1 < i ==> !DotsAt(name, j)
    {
      if name[i] == '.' {
        if prevDot {
          assert DotsAt(name, i - 1);
          return Some(InvalidArgument(CONSECUTIVE_DOTS));
        }
        prevDot := true;
      } else {
        prevDot := false;
      }
      i := i + 1;
    }
    return None;
  }

  /**
   * What the compiler knows about the bound type `T`. A static class is
   * `T = void`.
   */
  datatype TypeInfo = TypeInfo(
    id: TypeId,
    isVoid: bool,
    size: nat,
    copyConstructible: bool,
    moveConstructible: bool,
    hasEquality: bool)

  /** `ClassMetaBuilder<T>`: the members collected so far, in call order. */
  class ClassMetaBuilder {
    const info: TypeInfo
    var name: string
    var staticProperties: seq<StaticProperty>
    var staticFunctions: seq<StaticFunction>
    var instanceProperties: seq<InstanceProperty>
    var instanceMethods: seq<InstanceMethod>
    var base: Option<ClassMeta>
    var ctor: Option<ConstructorCallback>

    /** The builder of a name that passed validation, with nothing collected yet. */
    constructor Init(name: string, info: TypeInfo)
      requires WellFormedClassName(name)
      ensures this.name == name && this.info == info
      ensures staticProperties == [] && staticFunctions == [] && instanceProperties == [] && instanceMethods == []
      ensures base.None? && ctor.None?
    {
      this.info := info;
      this.name := name;
      staticProperties := [];
      staticFunctions := [];
      instanceProperties := [];
      instanceMethods := [];
      base := None;
      ctor := None;
    }

    /** `defClass<T>(name)`: the constructor, which throws `std::invalid_argument` for a malformed name. */
    static method Create(name: string, info: TypeInfo) returns (r: Result<ClassMetaBuilder>)
      ensures r.Ok? <==> WellFormedClassName(name)
      ensures r.Err? ==> r.failure.InvalidArgument?
      ensures r.Ok? ==> fresh(r.value) && r.value.name == name && r.value.info == info
      ensures r.Ok? ==> r.value.staticProperties == [] && r.value.staticFunctions == []
      ensures r.Ok? ==> r.value.instanceProperties == [] && r.value.instanceMethods == []
      ensures r.Ok? ==> r.value.base.None? && r.value.ctor.None?
    {
      var err := ValidateClassName(name);
      if err.Some? {
        return Err(err.value);
      }
      var b := new ClassMetaBuilder.Init(name, info);
      return Ok(b);
    }

    /** `func(name, FunctionCallback)`: the callback as is. */
    method Func(fname: string, fn: FunctionCallback)
      modifies this
      ensures staticFunctions == old(staticFunctions) + [StaticFunction(fname, fn)]
      ensures staticProperties == old(staticProperties) && name == old(name)
      ensures instanceProperties == old(instanceProperties) && instanceMethods == old(instanceMethods)
      ensures base == old(base) && ctor == old(ctor)
    {
      staticFunctions := staticFunctions + [StaticFunction(fname, fn)];
    }

    /** `func(name, fn, policy)`: a C++ function wrapped with the policy. */
    method FuncNative(fname: string, fn: NativeFn, policy: ReturnValuePolicy)
      modifies this
      ensures staticFunctions == old(staticFunctions) + [StaticFunction(fname, WrappedFunction(fn, policy))]
      ensures staticProperties == old(staticProperties) && name == old(name)
      ensures instanceProperties == old(instanceProperties) && instanceMethods == old(instanceMethods)
      ensures base == old(base) && ctor == old(ctor)
    {
      var f := Adapter.WrapFunction(Native(fn), policy);
      staticFunctions := staticFunctions + [StaticFunction(fname, f)];
    }

    /**
     * `func(name, fn...)` with more than one argument: an overload set, with
     * at most one policy among them. A C++ function followed by a policy is
     * the call `func(name, fn, policy)`, which overload resolution sends to
     * `FuncNative`, the more specialised template.
     */
    method FuncOverloads(fname: string, args: seq<Adapter.OverloadArg>)
      requires |args| > 1 && Adapter.PolicyCount(args) <= 1 && |Adapter.Functions(args)| > 0
      requires !(|args| == 2 && args[0].FunctionArg? && args[0].fn.Native? && args[1].PolicyArg?)
      modifies this
      ensures |staticFunctions| == |old(staticFunctions)| + 1 && staticFunctions[..|old(staticFunctions)|] == old(staticFunctions)
      ensures var f := staticFunctions[|old(staticFunctions)|];
        f.name == fname && f.callback.Overloads? && |f.callback.overloads| == |Adapter.Functions(args)|
      ensures var f := staticFunctions[|old(staticFunctions)|];
        forall i :: 0 <= i < |Adapter.Functions(args)| ==>
          f.callback.overloads[i] == Adapter.WrapFunction(Adapter.Functions(args)[i], Adapter.GivenPolicy(args))
      ensures staticProperties == old(staticProperties) && name == old(name)
      ensures instanceProperties == old(instanceProperties) && instanceMethods == old(instanceMethods)
      ensures base == old(base) && ctor == old(ctor)
    {
      var f := Adapter.WrapOverloadFuncAndExtraPolicy(args);
      staticFunctions := staticFunctions + [StaticFunction(fname, f)];
    }

    /** `var(name, GetterCallback, SetterCallback)`: both callbacks as is. */
    method Var(pname: string, getter: GetterCallback, setter: Option<SetterCallback>)
      modifies this
      ensures staticProperties == old(staticProperties) + [StaticProperty(pname, getter, setter)]
      ensures staticFunctions == old(staticFunctions) && name == old(name)
      ensures instanceProperties == old(instanceProperties) && instanceMethods == old(instanceMethods)
      ensures base == old(base) && ctor == old(ctor)
    {
      staticProperties := staticProperties + [StaticProperty(pname, getter, setter)];
    }

    /** `var(name, getter, setter, policy)`: a C++ getter and a C++ setter or `nullptr`, wrapped. */
    method VarNative(pname: string, getter: NativeFn, setter: Option<NativeFn>, policy: ReturnValuePolicy)
      requires getter.params == [] && getter.result.Some?
      requires setter.Some? ==> |setter.value.params| == 1 && setter.value.result.None?
      modifies this
      ensures |staticProperties| == |old(staticProperties)| + 1 && staticProperties[..|old(staticProperties)|] == old(staticProperties)
      ensures var p := staticProperties[|old(staticProperties)|];
        p.name == pname && p.getter == WrappedGetter(getter, policy) &&
        p.setter == (if setter.Some? then Some(WrappedSetter(setter.value)) else None)
      ensures staticFunctions == old(staticFunctions) && name == old(name)
      ensures instanceProperties == old(instanceProperties) && instanceMethods == old(instanceMethods)
      ensures base == old(base) && ctor == old(ctor)
    {
      var g := Adapter.WrapGetter(Native(getter), policy);
      var s := Adapter.WrapSetter(if setter.Some? then Some(Native(setter.value)) else None);
      staticProperties := staticProperties + [StaticProperty(pname, g, s)];
    }

    /** `var(name, value, policy)`: a static member, writable unless it is a pointer to const or a value. */
    method VarMember(pname: string, member: StaticMember, policy: ReturnValuePolicy)
      modifies this
      ensures |staticProperties| == |old(staticProperties)| + 1 && staticProperties[..|old(staticProperties)|] == old(staticProperties)
      ensures var p := staticProperties[|old(staticProperties)|];
        p.name == pname && p.getter == MemberGetter(member, policy) &&
        (p.setter.Some? <==> member.PointerMember? && !member.pointeeIsConst) &&
        (p.setter.Some? ==> p.setter.value == MemberSetter(member.address, member.pointee))
      ensures staticFunctions == old(staticFunctions) && name == old(name)
      ensures instanceProperties == old(instanceProperties) && instanceMethods == old(instanceMethods)
      ensures base == old(base) && ctor == old(ctor)
    {
      var gs := Adapter.WrapStaticMember(member, false, policy);
      staticProperties := staticProperties + [StaticProperty(pname, gs.0, gs.1)];
    }

    /** `var_readonly(name, value, policy)`: a static member that never gets a setter. */
    method VarReadonlyMember(pname: string, member: StaticMember, policy: ReturnValuePolicy)
      modifies this
      ensures staticProperties == old(staticProperties) + [StaticProperty(pname, MemberGetter(member, policy), None)]
      ensures staticFunctions == old(staticFunctions) && name == old(name)
      ensures instanceProperties == old(instanceProperties) && instanceMethods == old(instanceMethods)
      ensures base == old(base) && ctor == old(ctor)
    {
      var gs := Adapter.WrapStaticMember(member, true, policy);
      staticProperties := staticProperties + [StaticProperty(pname, gs.0, gs.1)];
    }

    /** `var_readonly(name, getter, policy)`: a getter, kept as is or wrapped, and a null setter. */
    method VarReadonlyGetter(pname: string, getter: Callable, policy: ReturnValuePolicy)
      requires getter.Native? ==> getter.fn.params == [] && getter.fn.result.Some?
      modifies this
      ensures staticProperties == old(staticProperties) + [StaticProperty(pname, Adapter.WrapGetter(getter, policy), None)]
      ensures staticFunctions == old(staticFunctions) && name == old(name)
      ensures instanceProperties == old(instanceProperties) && instanceMethods == old(instanceMethods)
      ensures base == old(base) && ctor == old(ctor)
    {
      if getter.AsIs? {
        Var(pname, RawGetter(getter.id), None);
      } else {
        var g := Adapter.WrapGetter(getter, policy);
        staticProperties := staticProperties + [StaticProperty(pname, g, None)];
      }
    }

    /**
     * `build()`: the collected members, unchanged and in order. Only an
     * instance class gets an equals hook (by value when `T` has `==`, by
     * address otherwise) and clone hooks (as `T` is copy or move
     * constructible); a static class has size 0.
     */
    method Build() returns (m: ClassMeta)
      ensures m.name == name && m.typeId == info.id && m.base == base
      ensures m.staticMeta == StaticMemberMeta(staticProperties, staticFunctions)
      ensures m.instanceMeta.properties == instanceProperties && m.instanceMeta.methods == instanceMethods
      ensures m.instanceMeta.ctor == ctor
      ensures m.instanceMeta.classSize == if info.isVoid then 0 else info.size
      ensures m.instanceMeta.equals.Some? <==> !info.isVoid
      ensures m.instanceMeta.equals.Some? ==> (m.instanceMeta.equals.value.ValueEquals? <==> info.hasEquality)
      ensures m.instanceMeta.copyClone <==> !info.isVoid && info.copyConstructible
      ensures m.instanceMeta.moveClone <==> !info.isVoid && info.moveConstructible
    {
      var equals: Option<EqualsCallback> := None;
      var copyClone := false;
      var moveClone := false;
      if !info.isVoid {
        equals := Some(Adapter.BindInstanceEquals(info.hasEquality));
        if info.copyConstructible {
          copyClone := true;
        }
        if info.moveConstructible {
          moveClone := true;
        }
      }
      var size := if info.isVoid then 0 else info.size;
      m := ClassMeta(
        name,
        StaticMemberMeta(staticProperties, staticFunctions),
        InstanceMemberMeta(ctor, instanceProperties, instanceMethods, size, equals, copyClone, moveClone),
        base,
        info.id);
    }
  }

  /** `EnumMetaBuilder<T>` for an enum whose underlying type is `underlying`. */
  class EnumMetaBuilder {
    const underlying: IntKind
    var name: string
    var entries: seq<EnumEntry>

    /** `defEnum<T>(name)`: enum names are not validated. */
    constructor(name: string, underlying: IntKind)
      ensures this.name == name && this.underlying == underlying && entries == []
    {
      this.name := name;
      this.underlying := underlying;
      entries := [];
    }

    /** `value(name, e)`: one entry holding `static_cast<int64_t>(e)`, appended. */
    method Value(entryName: string, e: int)
      requires InRange(underlying, e)
      modifies this
      ensures entries == old(entries) + [EnumEntry(entryName, Wrap(Int64, e))]
      ensures name == old(name)
    {
      entries := entries + [EnumEntry(entryName, Wrap(Int64, e))];
    }

    /** `build()`: the name and the entries, unchanged. */
    method Build() returns (m: EnumMeta)
      ensures m == EnumMeta(name, entries)
    {
      m := EnumMeta(name, entries);
    }
  }

  /** Every enumerator keeps its value, except a `uint64_t` one from 2^63 up, which turns negative. */
  lemma EnumEntryValue(u: IntKind, e: int)
    requires InRange(u, e)
    ensures Wrap(Int64, e) == e <==> !(u == UInt64 && e >= 0x8000_0000_0000_0000)
  {
    if u == UInt64 && e >= 0x8000_0000_0000_0000 {
      assert Wrap(Int64, e) == e - 0x1_0000_0000_0000_0000;
    } else {
      assert InRange(Int64, e);
    }
  }
}
