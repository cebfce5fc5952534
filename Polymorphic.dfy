/**
 * The polymorphic type hook and `resolveCastSource`: given a pointer of
 * static type `T`, decide which registered class the script object should
 * present and which address it should hold.
 */
module Polymorphic {
  import opened Common
  import opened MetaInfo

  /**
   * A non-null object pointer as RTTI sees it: the address the pointer
   * holds, the object's dynamic type, and the start of the most-derived
   * object (`dynamic_cast<const void*>`).
   */
  datatype Pointee = Pointee(address: nat, dynamicType: TypeId, mostDerived: nat)

  /** What `PolymorphicTypeHook<T>::get` returns: an address and a reported type. */
  datatype HookResult = HookResult(ptr: Option<nat>, reported: Option<TypeId>)

  /**
   * `PolymorphicTypeHookBase<T>::get`. For a non-polymorphic `T` the pointer
   * is returned as is, with `T` reported when it is non-null; for a
   * polymorphic `T` the most-derived address and the dynamic type, or null
   * and nothing.
   */
  function HookGet(polymorphic: bool, staticType: TypeId, src: Option<Pointee>): (r: HookResult)
    ensures src.None? ==> r == HookResult(None, None)
    ensures src.Some? && !polymorphic ==> r == HookResult(Some(src.value.address), Some(staticType))
    ensures src.Some? && polymorphic ==> r == HookResult(Some(src.value.mostDerived), Some(src.value.dynamicType))
  {
    match src
    case None => HookResult(None, None)
    case Some(p) =>
      if polymorphic then HookResult(Some(p.mostDerived), Some(p.dynamicType))
      else HookResult(Some(p.address), Some(staticType))
  }

  /** `ResolvedCastSource`: the pointer to hold, the class to present, and whether the dynamic type won. */
  datatype ResolvedCastSource = ResolvedCastSource(ptr: Option<nat>, meta: ClassMeta, isDowncasted: bool)

  /** The address the pointer itself holds. */
  function Address(src: Option<Pointee>): Option<nat> {
    if src.Some? then Some(src.value.address) else None
  }

  /**
   * `detail::resolveCastSource<T>`. `lookup` is the engine's `getClassMeta`.
   * A registered dynamic type wins with the most-derived address; otherwise
   * the static type with the original pointer, or "Class not registered".
   */
  function ResolveCastSource(polymorphic: bool, staticType: TypeId, src: Option<Pointee>,
                             lookup: TypeId -> Option<ClassMeta>): (r: Result<ResolvedCastSource>)
    ensures r.Err? ==> lookup(staticType).None?
    ensures r.Ok? && !r.value.isDowncasted ==> lookup(staticType) == Some(r.value.meta) && r.value.ptr == Address(src)
    ensures lookup(staticType).Some? ==> r.Ok?
  {
    var hook := HookGet(polymorphic, staticType, src);
    if hook.reported.Some? && hook.ptr.Some? && lookup(hook.reported.value).Some? then
      Ok(ResolvedCastSource(hook.ptr, lookup(hook.reported.value).value, true))
    else if lookup(staticType).None? then
      Err(Throw("Class not registered: " + staticType.name))
    else
      Ok(ResolvedCastSource(Address(src), lookup(staticType).value, false))
  }

  /**
   * The result pairs the most-derived address only with the dynamic type's
   * class, and the original pointer only with the static type's class; it
   * never mixes the two. It fails exactly when neither type is registered.
   */
  lemma ResolveNeverMixes(polymorphic: bool, staticType: TypeId, src: Option<Pointee>,
                          lookup: TypeId -> Option<ClassMeta>)
    ensures var r := ResolveCastSource(polymorphic, staticType, src, lookup);
      var dyn := if src.Some? then Some(if polymorphic then src.value.dynamicType else staticType) else None;
      && (r.Err? <==> (dyn.None? || lookup(dyn.value).None?) && lookup(staticType).None?)
      && (r.Err? ==> r.failure == Throw("Class not registered: " + staticType.name))
      && (r.Ok? && r.value.isDowncasted ==>
            dyn.Some? && r.value.meta == lookup(dyn.value).value &&
            r.value.ptr == Some(if polymorphic then src.value.mostDerived else src.value.address))
      && (r.Ok? && !r.value.isDowncasted ==>
            r.value.meta == lookup(staticType).value && r.value.ptr == Address(src))
  {
  }

  /** A registered dynamic type always wins over the static type. */
  lemma DynamicTypeWins(staticType: TypeId, p: Pointee, lookup: TypeId -> Option<ClassMeta>)
    requires lookup(p.dynamicType).Some?
    ensures ResolveCastSource(true, staticType, Some(p), lookup) ==
      Ok(ResolvedCastSource(Some(p.mostDerived), lookup(p.dynamicType).value, true))
  {
  }

  /**
   * An unregistered dynamic type falls back to the static class with the
   * pointer as given, not the most-derived address.
   */
  lemma FallbackKeepsOriginalPointer(staticType: TypeId, p: Pointee, lookup: TypeId -> Option<ClassMeta>)
    requires lookup(p.dynamicType).None? && lookup(staticType).Some?
    ensures ResolveCastSource(true, staticType, Some(p), lookup) ==
      Ok(ResolvedCastSource(Some(p.address), lookup(staticType).value, false))
  {
  }

  /**
   * For a non-polymorphic registered type the hook reports the static type
   * itself, so the result claims a downcast although none happened.
   */
  lemma NonPolymorphicReportsDowncast(staticType: TypeId, p: Pointee, lookup: TypeId -> Option<ClassMeta>)
    requires lookup(staticType).Some?
    ensures ResolveCastSource(false, staticType, Some(p), lookup) ==
      Ok(ResolvedCastSource(Some(p.address), lookup(staticType).value, true))
  {
  }
}
