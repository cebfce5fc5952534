/**
 * The value-level bookkeeping behind the engine: what the managed
 * resources were charged against the external memory counter, the loop
 * that runs their deleters, and the consistency of the registries.
 */
module Registry {
  import opened Common
  import opened MetaInfo
  import opened NativeInstanceImpl
  import opened InstancePayload

  /** A `ManagedResource`: the payload whose deleter the engine owes, and the object it belongs to. */
  datatype Managed = Managed(payload: InstancePayload, handle: nat)

  /** What a payload adds to the external memory counter: its class size, if a script `new` made it. */
  function Charge(p: InstancePayload): nat {
    if p.constructFromJs && p.define.Some? then p.define.value.instanceMeta.classSize else 0
  }

  /** The memory charged for a set of managed resources. */
  ghost function Total(m: map<nat, Managed>): int
    decreases |m|
  {
    if m == map[] then 0
    else
      var k :| k in m;
      Charge(m[k].payload) + Total(m - {k})
  }

  lemma {:induction false} TotalRemove(m: map<nat, Managed>, k: nat)
    requires k in m
    ensures Total(m) == Charge(m[k].payload) + Total(m - {k})
    decreases |m|
  {
    var j :| j in m && Total(m) == Charge(m[j].payload) + Total(m - {j});
    if j != k {
      TotalRemove(m - {j}, k);
      TotalRemove(m - {k}, j);
      assert m - {j} - {k} == m - {k} - {j};
    }
  }

  /** Moving one key from the remaining resources to the finished ones keeps their union. */
  lemma KeysShift(all: map<nat, Managed>, rest: map<nat, Managed>, done: set<nat>, k: nat)
    requires rest.Keys + done == all.Keys && k in rest
    ensures (rest - {k}).Keys + (done + {k}) == all.Keys
  {
  }

  lemma KeysShiftDone(all: map<nat, Managed>, rest: map<nat, Managed>, done: set<nat>)
    requires rest.Keys + done == all.Keys && rest == map[]
    ensures done == all.Keys
  {
  }

  lemma TotalAdd(m: map<nat, Managed>, k: nat, r: Managed)
    requires k !in m
    ensures Total(m[k := r]) == Charge(r.payload) + Total(m)
  {
    TotalRemove(m[k := r], k);
    assert m[k := r] - {k} == m;
  }

  lemma TotalNonNegative(m: map<nat, Managed>)
    ensures Total(m) >= 0
    decreases |m|
  {
    if m != map[] {
      var k :| k in m;
      TotalRemove(m, k);
      TotalNonNegative(m - {k});
    }
  }

  /** The class and enum registries agree with each other and with the names they are kept under. */
  ghost predicate ClassesConsistent(classes: map<string, ClassMeta>, ctors: set<ClassMeta>,
                                    types: map<TypeId, ClassMeta>, enums: map<string, EnumMeta>)
  {
    && (forall n :: n in classes ==> classes[n].name == n && classes[n] in ctors)
    && (forall m :: m in ctors ==> m.name in classes && classes[m.name] == m)
    && (forall t :: t in types ==> types[t].typeId == t)
    && (forall n :: n in enums ==> enums[n].name == n)
  }

  /** Registering a class under a free name keeps the registries consistent. */
  lemma ClassAddedConsistent(classes: map<string, ClassMeta>, ctors: set<ClassMeta>,
                             types: map<TypeId, ClassMeta>, enums: map<string, EnumMeta>, meta: ClassMeta)
    requires ClassesConsistent(classes, ctors, types, enums) && meta.name !in classes
    ensures meta !in ctors
    ensures ClassesConsistent(classes[meta.name := meta], ctors + {meta},
                              if meta.typeId in types then types else types[meta.typeId := meta], enums)
  {
  }

  /** Every resource is live, pending or deleted, never two of these, and its identity was given out. */
  ghost predicate ResourcesConsistent(managed: map<nat, Managed>, pending: map<nat, Managed>, deleted: set<nat>, next: nat)
  {
    && (forall k :: k in managed ==> k < next && k !in pending && k !in deleted)
    && (forall k :: k in pending ==> k < next && k !in deleted)
    && (forall k :: k in deleted ==> k < next)
  }

  /** Deleting every live resource at once keeps the resources consistent. */
  lemma AllDeletedConsistent(managed: map<nat, Managed>, pending: map<nat, Managed>, deleted: set<nat>, next: nat)
    requires ResourcesConsistent(managed, pending, deleted, next)
    ensures ResourcesConsistent(map[], pending, deleted + managed.Keys, next)
  {
  }

  /** Clearing the class registry keeps the registries consistent. */
  lemma ClassesClearedConsistent(classes: map<string, ClassMeta>, ctors: set<ClassMeta>,
                                 types: map<TypeId, ClassMeta>, enums: map<string, EnumMeta>)
    requires ClassesConsistent(classes, ctors, types, enums)
    ensures ClassesConsistent(map[], {}, types, enums)
  {
  }

  /** Nothing is charged for no resources. */
  lemma TotalEmpty()
    ensures Total(map[]) == 0
  {
  }

  /**
   * The teardown loop: each registered resource's deleter runs once and
   * lowers the counter by what that resource was charged.
   */
  method RunDeleters(all: map<nat, Managed>, memory: int) returns (left: int, ghost done: set<nat>)
    ensures left == memory - Total(all)
    ensures done == all.Keys
  {
    var rest := all;
    left := memory;
    done := {};
    while rest != map[]
      invariant rest.Keys + done == all.Keys
      invariant left + Total(all) == memory + Total(rest)
      decreases |rest|
    {
      var k :| k in rest;
      TotalRemove(rest, k);
      left := left - Charge(rest[k].payload);
      KeysShift(all, rest, done, k);
      done := done + {k};
      rest := rest - {k};
    }
    KeysShiftDone(all, rest, done);
  }

  /** Objects, parent links and externals use handles and addresses already given out; address 0 is `nullptr`. */
  ghost predicate HandlesConsistent(objects: map<nat, InstancePayload>, nextHandle: nat, parentRefs: map<nat, nat>,
                                    externals: map<nat, NativeInstance>, nextExternal: nat)
  {
    && (forall h :: h in objects ==> h < nextHandle)
    && (forall h :: h in parentRefs ==> h < nextHandle && parentRefs[h] < nextHandle)
    && nextExternal >= 1 && (forall p :: p in externals ==> 0 < p < nextExternal)
  }
}
