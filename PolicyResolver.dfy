/**
 * How a bound class's `toJs` turns a return-value policy into a holder:
 * first `Automatic` is resolved from the static shape of the expression,
 * then the policy decides whether the script object owns a copy, a moved
 * object, the original object, or only borrows it.
 */
module PolicyResolver {
  import opened Common
  import opened MetaInfo
  import opened NativeInstanceImpl

  /**
   * `handleAutomaticPolicy<U>`: a pointer is taken over, an lvalue reference
   * copied, an rvalue reference moved; a plain value stays `Automatic`.
   * Any other policy is kept.
   */
  function HandleAutomaticPolicy(policy: ReturnValuePolicy, shape: ValueShape): (r: ReturnValuePolicy)
    ensures policy != Automatic ==> r == policy
    ensures policy == Automatic && shape == Pointer ==> r == TakeOwnership
    ensures policy == Automatic && shape == LValueRef ==> r == Copy
    ensures policy == Automatic && shape == RValueRef ==> r == Move
    ensures r == Automatic <==> policy == Automatic && shape == PlainValue
  {
    if policy != Automatic then policy
    else
      match shape
      case Pointer => TakeOwnership
      case LValueRef => Copy
      case RValueRef => Move
      case PlainValue => Automatic
  }

  /** Resolving twice is resolving once. */
  lemma HandleAutomaticPolicyIdempotent(policy: ReturnValuePolicy, shape: ValueShape)
    ensures HandleAutomaticPolicy(HandleAutomaticPolicy(policy, shape), shape) == HandleAutomaticPolicy(policy, shape)
  {
  }

  const CANNOT_TAKE_OWNERSHIP: string := "Cannot take ownership of non-pointer"

  /** The policies under which the script object owns what it holds. */
  predicate Owning(policy: ReturnValuePolicy) { policy == Copy || policy == Move || policy == TakeOwnership }

  /** The policies that make a new C++ object. */
  predicate Duplicating(policy: ReturnValuePolicy) { policy == Copy || policy == Move }

  /**
   * The `switch (policy)` of the bound class's `toJs`. `address` is the
   * object the value denotes; a copy or a moved object is made at `newAt`.
   * `Copy` of a type that cannot be copied throws; `Move` of a type that
   * cannot be moved, like an unresolved `Automatic`, yields no instance;
   * `TakeOwnership` is for pointers only; the two reference policies
   * borrow the original object.
   */
  method Materialise(policy: ReturnValuePolicy, isPointer: bool, meta: ClassMeta, element: ElementType,
                     address: nat, newAt: nat)
    returns (r: Result<Option<NativeInstance>>)
    ensures r.Err? <==> (policy == Copy && !element.copyConstructible) || (policy == TakeOwnership && !isPointer)
    ensures r.Err? && policy == Copy ==> r.failure == Throw(NOT_COPY_CONSTRUCTIBLE)
    ensures r.Err? && policy == TakeOwnership ==> r.failure == Throw(CANNOT_TAKE_OWNERSHIP)
    ensures r == Ok(None) <==> policy == Automatic || (policy == Move && !element.moveConstructible)
    ensures r.Ok? && r.value.Some? ==>
      var inst := r.value.value;
      && inst.meta == Some(meta) && inst.element == element
      && (IsOwned(inst) <==> Owning(policy))
      && inst.ptr == Some(if Duplicating(policy) then newAt else address)
      && (inst.holder == UniquePtr <==> Owning(policy))
  {
    var instance: Option<NativeInstance> := None;
    match policy {
      case Copy =>
        if !element.copyConstructible {
          return Err(Throw(NOT_COPY_CONSTRUCTIBLE));
        }
        instance := Some(MakeOwned(Some(meta), element, Some(newAt)));
      case Move =>
        if element.moveConstructible {
          instance := Some(MakeOwned(Some(meta), element, Some(newAt)));
        }
      case TakeOwnership =>
        if !isPointer {
          return Err(Throw(CANNOT_TAKE_OWNERSHIP));
        }
        instance := Some(MakeOwned(Some(meta), element, Some(address)));
      case Reference =>
        instance := Some(Make(Some(meta), RawPointer, element, Some(address), false));
      case ReferenceInternal =>
        instance := Some(Make(Some(meta), RawPointer, element, Some(address), false));
      case Automatic =>
    }
    return Ok(instance);
  }
}
