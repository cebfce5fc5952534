/**
 * `NativeInstanceImpl<T, Holder>`: the concrete holder of one C++ object,
 * reached through a raw pointer, a `unique_ptr` or a `shared_ptr`. It never
 * changes after construction, so it is a value here.
 */
module NativeInstanceImpl {
  import opened Common
  import opened MetaInfo

  /** The three holder shapes: `T*`, `std::unique_ptr<T>`, `std::shared_ptr<T>`. */
  datatype HolderKind = RawPointer | UniquePtr | SharedPtr

  /**
   * The element type of the holder: its cv-stripped identity, its constness
   * and whether it can be copied or moved.
   */
  datatype ElementType = ElementType(id: TypeId, isConst: bool, copyConstructible: bool, moveConstructible: bool)

  /**
   * One holder. `ptr` is the raw pointer the holder yields (`None` is
   * `nullptr`); `meta` is the class metadata it was created with.
   */
  datatype NativeInstance = NativeInstance(
    meta: Option<ClassMeta>,
    holder: HolderKind,
    element: ElementType,
    ptr: Option<nat>,
    takeOwnership: bool)

  /**
   * The two-argument constructor, for a `unique_ptr` holder: the holder owns
   * its object.
   */
  function MakeOwned(meta: Option<ClassMeta>, element: ElementType, ptr: Option<nat>): (r: NativeInstance)
    ensures IsOwned(r) && r.holder == UniquePtr
    ensures r.meta == meta && r.element == element && r.ptr == ptr
  {
    NativeInstance(meta, UniquePtr, element, ptr, true)
  }

  /** The three-argument constructor: ownership as the caller says. */
  function Make(meta: Option<ClassMeta>, holder: HolderKind, element: ElementType, ptr: Option<nat>, takeOwnership: bool): (r: NativeInstance)
    ensures IsOwned(r) == takeOwnership
    ensures r.meta == meta && r.holder == holder && r.element == element && r.ptr == ptr
  {
    NativeInstance(meta, holder, element, ptr, takeOwnership)
  }

  /** `type_id()`: the element type without cv-qualifiers. */
  function TypeIdOf(inst: NativeInstance): TypeId { inst.element.id }

  /** `is_const()`. */
  predicate IsConst(inst: NativeInstance) { inst.element.isConst }

  /** `is_owned()`: the flag fixed at construction. */
  predicate IsOwned(inst: NativeInstance) { inst.takeOwnership }

  /**
   * `cast(target)`: null for a null holder, the held address for the
   * holder's own type, and otherwise whatever the metadata's `castTo`
   * gives, or null when no metadata is attached. `castTo` is supplied by
   * the caller.
   */
  function Cast(inst: NativeInstance, target: TypeId, castTo: (ClassMeta, nat, TypeId) -> Option<nat>): (r: Option<nat>)
    ensures inst.ptr.None? ==> r.None?
    ensures inst.ptr.Some? && target == TypeIdOf(inst) ==> r == inst.ptr
    ensures inst.ptr.Some? && target != TypeIdOf(inst) ==>
      r == (if inst.meta.Some? then castTo(inst.meta.value, inst.ptr.value, target) else None)
  {
    if inst.ptr.None? then None
    else if target == inst.element.id then inst.ptr
    else if inst.meta.Some? then castTo(inst.meta.value, inst.ptr.value, target)
    else None
  }

  /** `get_shared_ptr()`: the held pointer for a `shared_ptr` holder, null for the others. */
  function GetSharedPtr(inst: NativeInstance): (r: Option<nat>)
    ensures r.Some? ==> inst.holder == SharedPtr && r == inst.ptr
    ensures inst.holder == SharedPtr ==> r == inst.ptr
  {
    if inst.holder == SharedPtr then inst.ptr else None
  }

  const NOT_COPY_CONSTRUCTIBLE: string := "Object is not copy constructible"

  /**
   * `clone()`: a copy of the held object at the address `copyAt`, owned by a
   * new `unique_ptr` holder with the same metadata. `store` maps addresses
   * to the objects living there; the copy is added to it.
   */
  function Clone<V>(inst: NativeInstance, store: map<nat, V>, copyAt: nat): (r: Result<(NativeInstance, map<nat, V>)>)
    requires copyAt !in store
    requires inst.ptr.Some? ==> inst.ptr.value in store
    ensures r.Ok? <==> inst.element.copyConstructible && inst.ptr.Some?
    ensures r.Err? ==> r.failure == Throw(NOT_COPY_CONSTRUCTIBLE)
    ensures r.Ok? ==> var (c, store') := r.value;
      c == MakeOwned(inst.meta, inst.element, Some(copyAt)) &&
      store' == store[copyAt := store[inst.ptr.value]]
  {
    if inst.element.copyConstructible && inst.ptr.Some? then
      Ok((MakeOwned(inst.meta, inst.element, Some(copyAt)), store[copyAt := store[inst.ptr.value]]))
    else
      Err(Throw(NOT_COPY_CONSTRUCTIBLE))
  }

  /**
   * A clone is a distinct, owned object equal to the original: casting it to
   * its own type yields the new address, which holds what the original
   * address holds, and nothing else in the store changes.
   */
  lemma CloneIsIndependentCopy<V>(inst: NativeInstance, store: map<nat, V>, copyAt: nat,
                                  castTo: (ClassMeta, nat, TypeId) -> Option<nat>)
    requires copyAt !in store
    requires inst.ptr.Some? && inst.ptr.value in store
    requires inst.element.copyConstructible
    ensures Clone(inst, store, copyAt).Ok?
    ensures var (c, store') := Clone(inst, store, copyAt).value;
      var p := Cast(c, TypeIdOf(inst), castTo);
      p == Some(copyAt) && p != inst.ptr && store'[p.value] == store[inst.ptr.value] &&
      IsOwned(c) && TypeIdOf(c) == TypeIdOf(inst) && IsConst(c) == IsConst(inst) &&
      forall a :: a in store ==> a in store' && store'[a] == store[a]
  {
  }
}
