/**
 * Class and enum metadata: immutable records describing what a native
 * class exposes to script, and the ancestry query over the single-parent
 * base chain.
 */
module MetaInfo {
  import opened Common
  import opened Callbacks

  datatype StaticProperty = StaticProperty(name: string, getter: GetterCallback, setter: Option<SetterCallback>)
  datatype StaticFunction = StaticFunction(name: string, callback: FunctionCallback)
  datatype StaticMemberMeta = StaticMemberMeta(properties: seq<StaticProperty>, functions: seq<StaticFunction>)

  datatype InstanceProperty = InstanceProperty(name: string, getter: InstanceCallback, setter: Option<InstanceCallback>)
  datatype InstanceMethod = InstanceMethod(name: string, callback: InstanceCallback)

  /**
   * `InstanceMemberMeta`. `classSize` is `sizeof(C)`; `copyClone` and
   * `moveClone` say whether the copy and move clone hooks the builder
   * passes are present.
   */
  datatype InstanceMemberMeta = InstanceMemberMeta(
    ctor: Option<ConstructorCallback>,
    properties: seq<InstanceProperty>,
    methods: seq<InstanceMethod>,
    classSize: nat,
    equals: Option<EqualsCallback>,
    copyClone: bool,
    moveClone: bool)

  /** `ClassMeta`: a class and, through `base`, its chain of registered ancestors. */
  datatype ClassMeta = ClassMeta(
    name: string,
    staticMeta: StaticMemberMeta,
    instanceMeta: InstanceMemberMeta,
    base: Option<ClassMeta>,
    typeId: TypeId)

  datatype EnumEntry = EnumEntry(name: string, value: int)
  datatype EnumMeta = EnumMeta(name: string, entries: seq<EnumEntry>)

  /** A class script can construct: its constructor callback is set. */
  predicate HasConstructor(m: ClassMeta) { m.instanceMeta.ctor.Some? }

  /** The type identities of `m` and of each ancestor, nearest first. */
  function Ancestry(m: ClassMeta): (ids: seq<TypeId>)
    ensures |ids| >= 1 && ids[0] == m.typeId
    decreases m
  {
    [m.typeId] + if m.base.Some? then Ancestry(m.base.value) else []
  }

  /** The classes on the base chain of `m`, `m` first. */
  function Lineage(m: ClassMeta): (ms: seq<ClassMeta>)
    ensures |ms| == |Ancestry(m)|
    ensures forall k :: 0 <= k < |ms| ==> ms[k].typeId == Ancestry(m)[k]
    decreases m
  {
    [m] + if m.base.Some? then Lineage(m.base.value) else []
  }

  /**
   * `ClassMeta::isA(typeIdx, recursion)`: the class itself matches;
   * with `recursion`, so does every ancestor, found by walking the base
   * chain. The template overload `isA<T>(recursion)` is this call with
   * `typeid(T)` as `t`.
   */
  method IsA(m: ClassMeta, t: TypeId, recursion: bool) returns (r: bool)
    ensures r <==> t == m.typeId || (recursion && t in Ancestry(m))
  {
    if m.typeId == t {
      return true;
    }
    if !recursion || m.base.None? {
      return false;
    }
    var curr := m.base;
    while curr.Some?
      invariant t in Ancestry(m) <==> curr.Some? && t in Ancestry(curr.value)
      decreases curr
    {
      if curr.value.typeId == t {
        return true;
      }
      curr := curr.value.base;
    }
    return false;
  }

  /** `ClassMeta::isA(meta, recursion)`: the same question, asked with another class's identity. */
  method IsAMeta(m: ClassMeta, other: ClassMeta, recursion: bool) returns (r: bool)
    ensures r <==> other.typeId == m.typeId || (recursion && other.typeId in Ancestry(m))
  {
    r := IsA(m, other.typeId, recursion);
  }

  /** Every class on the chain is an ancestor of `m` in the `isA` sense, and the chain is closed upwards. */
  lemma {:induction false} LineageIsAncestry(m: ClassMeta, k: nat)
    requires k < |Lineage(m)|
    ensures Lineage(m)[k].typeId in Ancestry(m)
    ensures Ancestry(Lineage(m)[k]) == Ancestry(m)[k..]
    decreases m
  {
    if k == 0 {
      assert Ancestry(m)[k..] == Ancestry(m);
    } else {
      var b := m.base.value;
      assert Lineage(m)[k] == Lineage(b)[k - 1];
      assert Ancestry(m)[k..] == Ancestry(b)[k - 1..];
      LineageIsAncestry(b, k - 1);
      assert Ancestry(m)[k] == Ancestry(b)[k - 1];
    }
  }

  /** Being an ancestor is transitive: whatever `m`'s ancestor `a` is-a, `m` is-a too. */
  lemma {:induction false} AncestryTransitive(m: ClassMeta, k: nat, t: TypeId)
    requires k < |Lineage(m)| && t in Ancestry(Lineage(m)[k])
    ensures t in Ancestry(m)
  {
    LineageIsAncestry(m, k);
  }
}
