/**
 * The adapter: how a C++ function, getter, setter or static member becomes
 * a callback script can call, how overloads are dispatched, how bound
 * constructors guard their arity, and how instance equality is decided.
 *
 * The bodies of user callbacks are not part of the model: `Natives`
 * supplies what a callback kept as is returns for given arguments, and
 * what a C++ function returns (or throws) for given converted arguments.
 */
module Adapter {
  import opened Common
  import opened Convert
  import opened Callbacks
  import opened ConvertProperties

  /** The behaviour of the user's own code. */
  datatype Natives = Natives(
    callRaw: (nat, seq<JsVal>) -> Result<JsVal>,
    invoke: (NativeFn, seq<CppVal>) -> Result<CppVal>)

  /** The C++ type system's guarantee: a function returns values of its declared result type. */
  ghost predicate WellTyped(n: Natives) {
    forall f: NativeFn, xs: seq<CppVal> {:trigger n.invoke(f, xs)} ::
      f.result.Some? && n.invoke(f, xs).Ok? ==> HasType(f.result.value, n.invoke(f, xs).value)
  }

  const ARGUMENT_COUNT_MISMATCH: string := "argument count mismatch"
  const NO_OVERLOAD_FOUND: string := "no overload found"
  const NULL_STATIC_MEMBER: string := "Accessing null static member pointer"

  // ---------------------------------------------------------------------
  // Arguments
  // ---------------------------------------------------------------------

  /** `ConvertArgsToTuple`: argument `i` converted to parameter type `i`, left to right, the first failure wins. */
  function ConvertArgs(params: seq<CppType>, args: seq<JsVal>): (r: Result<seq<CppVal>>)
    requires |params| == |args|
    ensures r.Ok? ==> |r.value| == |params|
    ensures r.Ok? ==> forall i :: 0 <= i < |params| ==> ToCpp(params[i], args[i]) == Ok(r.value[i])
    ensures r.Err? ==> exists i :: 0 <= i < |params| && ToCpp(params[i], args[i]) == Err(r.failure)
                                   && forall j :: 0 <= j < i ==> ToCpp(params[j], args[j]).Ok?
  {
    if params == [] then Ok([])
    else
      var head :- ToCpp(params[0], args[0]);
      var tail :- ConvertArgs(params[1..], args[1..]);
      Ok([head] + tail)
  }

  // ---------------------------------------------------------------------
  // Functions
  // ---------------------------------------------------------------------

  /** The script arguments a C++ caller's values become. */
  function ArgsToJs(params: seq<CppType>, xs: seq<CppVal>): (js: seq<JsVal>)
    requires |params| == |xs| && forall i :: 0 <= i < |xs| ==> HasType(params[i], xs[i])
    ensures |js| == |xs|
  {
    seq(|xs|, i requires 0 <= i < |xs| => ToJs(params[i], xs[i]))
  }

  /** Arguments that came from C++ values of round-tripping types convert back to exactly those values. */
  lemma {:induction false} ConvertArgsRoundTrip(params: seq<CppType>, xs: seq<CppVal>)
    requires |params| == |xs| && forall i :: 0 <= i < |xs| ==> HasType(params[i], xs[i]) && RoundTrips(params[i])
    ensures ConvertArgs(params, ArgsToJs(params, xs)) == Ok(xs)
  {
    if xs != [] {
      var js := ArgsToJs(params, xs);
      RoundTrip(params[0], xs[0]);
      assert js[1..] == ArgsToJs(params[1..], xs[1..]);
      ConvertArgsRoundTrip(params[1..], xs[1..]);
      assert [xs[0]] + xs[1..] == xs;
    }
  }

  /** `wrapFunction`: a callback of the binding's signature is kept; anything else is wrapped with the policy. */
  function WrapFunction(c: Callable, policy: ReturnValuePolicy): (cb: FunctionCallback)
    ensures c.AsIs? ==> cb == RawFunction(c.id)
    ensures c.Native? ==> cb.WrappedFunction? && cb.fn == c.fn && cb.policy == policy
  {
    match c
    case AsIs(id) => RawFunction(id)
    case Native(fn) => WrappedFunction(fn, policy)
  }

  /**
   * Calling a wrapped C++ function: the argument count must equal the
   * arity, and is checked before any argument is converted; a void
   * function yields undefined. The policy and `this` are handed to `toJs`,
   * which drops them for the value types modelled here.
   */
  function CallWrapped(fn: NativeFn, args: seq<JsVal>, n: Natives): (r: Result<JsVal>)
    requires WellTyped(n)
    ensures |args| != |fn.params| ==> r == Err(ThrowTypeError(ARGUMENT_COUNT_MISMATCH))
    ensures r.Ok? ==> |args| == |fn.params| && ConvertArgs(fn.params, args).Ok?
    ensures r.Ok? && fn.result.None? ==> r.value == Undefined
    ensures r.Err? && |args| == |fn.params| ==>
      || (exists i :: 0 <= i < |args| && ToCpp(fn.params[i], args[i]) == Err(r.failure))
      || (ConvertArgs(fn.params, args).Ok? && n.invoke(fn, ConvertArgs(fn.params, args).value) == Err(r.failure))
    ensures |args| == |fn.params| ==>
      match ConvertArgs(fn.params, args)
      case Err(f) => r == Err(f)
      case Ok(xs) =>
        match n.invoke(fn, xs)
        case Err(f) => r == Err(f)
        case Ok(ret) => r == Ok(if fn.result.None? then Undefined else ToJs(fn.result.value, ret))
  {
    if |args| != |fn.params| then Err(ThrowTypeError(ARGUMENT_COUNT_MISMATCH))
    else
      var xs :- ConvertArgs(fn.params, args);
      var ret :- n.invoke(fn, xs);
      if fn.result.None? then Ok(Undefined) else Ok(ToJs(fn.result.value, ret))
  }

  /**
   * A wrapped function called with script values made from C++ values of
   * round-tripping types receives exactly those values, and what it
   * returns reaches script converted.
   */
  lemma WrappedCallPassesArguments(fn: NativeFn, xs: seq<CppVal>, n: Natives)
    requires WellTyped(n)
    requires |fn.params| == |xs| && forall i :: 0 <= i < |xs| ==> HasType(fn.params[i], xs[i]) && RoundTrips(fn.params[i])
    ensures var r := CallWrapped(fn, ArgsToJs(fn.params, xs), n);
      match n.invoke(fn, xs)
      case Err(f) => r == Err(f)
      case Ok(ret) => r == Ok(if fn.result.None? then Undefined else ToJs(fn.result.value, ret))
  {
    ConvertArgsRoundTrip(fn.params, xs);
  }

  /** Calling any `FunctionCallback` from script. */
  function CallFunction(cb: FunctionCallback, args: seq<JsVal>, n: Natives): (r: Result<JsVal>)
    requires WellTyped(n)
    ensures cb.WrappedFunction? && |args| != |cb.fn.params| ==> r == Err(ThrowTypeError(ARGUMENT_COUNT_MISMATCH))
    ensures cb.Overloads? && r.Err? && r.failure.Exception? ==> r.failure == ThrowTypeError(NO_OVERLOAD_FOUND)
    decreases cb, 1
  {
    match cb
    case RawFunction(id) => n.callRaw(id, args)
    case WrappedFunction(fn, _) => CallWrapped(fn, args, n)
    case Overloads(os) => Dispatch(os, 0, args, n)
  }

  /**
   * The overload rule from candidate `i` on: the first candidate that does
   * not throw a v8kit `Exception` decides; an `Exception` from the last one
   * becomes TypeError "no overload found". An empty set yields undefined.
   */
  function Dispatch(os: seq<FunctionCallback>, i: nat, args: seq<JsVal>, n: Natives): (r: Result<JsVal>)
    requires WellTyped(n) && i <= |os|
    ensures r.Err? && r.failure.Exception? ==> r.failure == ThrowTypeError(NO_OVERLOAD_FOUND)
    ensures i < |os| && r.Ok? ==> exists j :: i <= j < |os| && CallFunction(os[j], args, n) == r
    decreases Overloads(os), 0, |os| - i
  {
    if i == |os| then Ok(Undefined)
    else
      var r := CallFunction(os[i], args, n);
      if r.Ok? || !r.failure.Exception? then r
      else if i == |os| - 1 then Err(ThrowTypeError(NO_OVERLOAD_FOUND))
      else Dispatch(os, i + 1, args, n)
  }

  /** Candidate `i` throws a v8kit `Exception`, so dispatch moves past it. */
  predicate Rejects(os: seq<FunctionCallback>, i: nat, args: seq<JsVal>, n: Natives)
    requires WellTyped(n) && i < |os|
  {
    var r := CallFunction(os[i], args, n);
    r.Err? && r.failure.Exception?
  }

  /**
   * `dispatchOverloadImpl`: the candidates are invoked in order and the
   * loop stops at the first one that returns or throws anything but a v8kit
   * `Exception`. `invoked` is how many candidates were called.
   */
  method DispatchOverloadImpl(os: seq<FunctionCallback>, args: seq<JsVal>, n: Natives) returns (r: Result<JsVal>, invoked: nat)
    requires WellTyped(n)
    ensures r == Dispatch(os, 0, args, n)
    ensures invoked <= |os| && (os != [] ==> invoked >= 1)
    ensures forall i :: 0 <= i < invoked - 1 ==> Rejects(os, i, args, n)
    ensures 0 < invoked && !Rejects(os, invoked - 1, args, n) ==> r == CallFunction(os[invoked - 1], args, n)
    ensures 0 < invoked && Rejects(os, invoked - 1, args, n) ==> invoked == |os| && r == Err(ThrowTypeError(NO_OVERLOAD_FOUND))
  {
    invoked := 0;
    var i := 0;
    while i < |os|
      invariant 0 <= i <= |os| && invoked == i
      invariant i == |os| ==> os == []
      invariant forall j :: 0 <= j < i ==> Rejects(os, j, args, n)
      invariant Dispatch(os, 0, args, n) == Dispatch(os, i, args, n)
    {
      var c := CallFunction(os[i], args, n);
      invoked := invoked + 1;
      if c.Ok? || !c.failure.Exception? {
        return c, invoked;
      }
      if i == |os| - 1 {
        return Err(ThrowTypeError(NO_OVERLOAD_FOUND)), invoked;
      }
      i := i + 1;
    }
    return Ok(Undefined), invoked;
  }

  /** One argument of `wrapOverloadFuncAndExtraPolicy`: a return-value policy or a function. */
  datatype OverloadArg = PolicyArg(policy: ReturnValuePolicy) | FunctionArg(fn: Callable)

  function PolicyCount(args: seq<OverloadArg>): nat {
    if args == [] then 0 else (if args[0].PolicyArg? then 1 else 0) + PolicyCount(args[1..])
  }

  /** The functions among the arguments, in order. */
  function Functions(args: seq<OverloadArg>): (fs: seq<Callable>)
    ensures |fs| + PolicyCount(args) == |args|
  {
    if args == [] then []
    else (if args[0].FunctionArg? then [args[0].fn] else []) + Functions(args[1..])
  }

  /** The policy given among the arguments, or `Automatic` when there is none. */
  function GivenPolicy(args: seq<OverloadArg>): ReturnValuePolicy {
    if args == [] then Automatic
    else if args[0].PolicyArg? then args[0].policy
    else GivenPolicy(args[1..])
  }

  /**
   * `wrapOverloadFuncAndExtraPolicy`: at most one policy and at least one
   * function (both checked at compile time); every function is wrapped with
   * that policy, in the order given.
   */
  method WrapOverloadFuncAndExtraPolicy(args: seq<OverloadArg>) returns (cb: FunctionCallback)
    requires PolicyCount(args) <= 1 && |Functions(args)| > 0
    ensures cb.Overloads? && |cb.overloads| == |args| - PolicyCount(args)
    ensures forall i :: 0 <= i < |cb.overloads| ==> cb.overloads[i] == WrapFunction(Functions(args)[i], GivenPolicy(args))
  {
    var policy := Automatic;
    var k := 0;
    while k < |args|
      invariant 0 <= k <= |args|
      invariant PolicyCount(args[..k]) == 0 ==> policy == Automatic
      invariant PolicyCount(args[..k]) == 1 ==> policy == GivenPolicy(args)
    {
      if args[k].PolicyArg? {
        PolicyCountSplit(args, k);
        policy := args[k].policy;
        GivenPolicyIsTheOne(args, k);
      } else {
        PolicyCountSplit(args, k);
      }
      k := k + 1;
    }
    assert args[..|args|] == args;
    if PolicyCount(args) == 0 {
      NoPolicyMeansAutomatic(args);
    }
    var arr: seq<FunctionCallback> := [];
    k := 0;
    while k < |args|
      invariant 0 <= k <= |args|
      invariant |arr| == |Functions(args[..k])|
      invariant forall i :: 0 <= i < |arr| ==> arr[i] == WrapFunction(Functions(args[..k])[i], policy)
    {
      FunctionsSplit(args, k);
      if args[k].FunctionArg? {
        arr := arr + [WrapFunction(args[k].fn, policy)];
      }
      k := k + 1;
    }
    cb := Overloads(arr);
  }

  lemma {:induction false} PolicyCountAppend(a: seq<OverloadArg>, b: seq<OverloadArg>)
    ensures PolicyCount(a + b) == PolicyCount(a) + PolicyCount(b)
  {
    if a == [] {
      assert a + b == b;
    } else {
      assert (a + b)[1..] == a[1..] + b;
      PolicyCountAppend(a[1..], b);
    }
  }

  lemma {:induction false} FunctionsAppend(a: seq<OverloadArg>, b: seq<OverloadArg>)
    ensures Functions(a + b) == Functions(a) + Functions(b)
  {
    if a == [] {
      assert a + b == b;
    } else {
      assert (a + b)[1..] == a[1..] + b;
      FunctionsAppend(a[1..], b);
    }
  }

  lemma PolicyCountSplit(args: seq<OverloadArg>, k: nat)
    requires k < |args|
    ensures PolicyCount(args[..k + 1]) == PolicyCount(args[..k]) + (if args[k].PolicyArg? then 1 else 0)
    ensures PolicyCount(args) == PolicyCount(args[..k + 1]) + PolicyCount(args[k + 1..])
  {
    assert args[..k + 1] == args[..k] + [args[k]];
    PolicyCountAppend(args[..k], [args[k]]);
    assert args == args[..k + 1] + args[k + 1..];
    PolicyCountAppend(args[..k + 1], args[k + 1..]);
  }

  lemma FunctionsSplit(args: seq<OverloadArg>, k: nat)
    requires k < |args|
    ensures Functions(args[..k + 1]) == Functions(args[..k]) + (if args[k].FunctionArg? then [args[k].fn] else [])
  {
    assert args[..k + 1] == args[..k] + [args[k]];
    FunctionsAppend(args[..k], [args[k]]);
  }

  /** With a single policy argument, that argument's policy is the one used. */
  lemma {:induction false} GivenPolicyIsTheOne(args: seq<OverloadArg>, k: nat)
    requires k < |args| && args[k].PolicyArg? && PolicyCount(args) <= 1
    ensures GivenPolicy(args) == args[k].policy
  {
    if k > 0 {
      assert !args[0].PolicyArg? by {
        if args[0].PolicyArg? {
          PolicyCountSplit(args[1..], k - 1);
        }
      }
      GivenPolicyIsTheOne(args[1..], k - 1);
    }
  }

  lemma {:induction false} NoPolicyMeansAutomatic(args: seq<OverloadArg>)
    requires PolicyCount(args) == 0
    ensures GivenPolicy(args) == Automatic
  {
    if args != [] {
      NoPolicyMeansAutomatic(args[1..]);
    }
  }

  // ---------------------------------------------------------------------
  // Getters, setters and static members
  // ---------------------------------------------------------------------

  /** `wrapGetter`: kept as is, or a wrapped C++ getter (no parameters, a result). */
  function WrapGetter(g: Callable, policy: ReturnValuePolicy): (cb: GetterCallback)
    requires g.Native? ==> g.fn.params == [] && g.fn.result.Some?
    ensures g.AsIs? <==> cb.RawGetter?
    ensures cb.WrappedGetter? ==> cb.fn == g.fn && cb.policy == policy
    ensures cb.RawGetter? ==> g == AsIs(cb.id)
  {
    match g
    case AsIs(id) => RawGetter(id)
    case Native(fn) => WrappedGetter(fn, policy)
  }

  /** `wrapSetter`: a null setter stays empty; otherwise kept as is or wrapped (one parameter, no result). */
  function WrapSetter(s: Option<Callable>): (cb: Option<SetterCallback>)
    requires s.Some? && s.value.Native? ==> |s.value.fn.params| == 1 && s.value.fn.result.None?
    ensures cb.None? <==> s.None?
    ensures cb.Some? && cb.value.WrappedSetter? ==> s.value == Native(cb.value.fn)
    ensures cb.Some? && cb.value.RawSetter? ==> s.value == AsIs(cb.value.id)
    ensures cb.Some? ==> (cb.value.RawSetter? <==> s.value.AsIs?)
  {
    match s
    case None => None
    case Some(AsIs(id)) => Some(RawSetter(id))
    case Some(Native(fn)) => Some(WrappedSetter(fn))
  }

  /**
   * `wrapStaticMember`: a getter always; a setter only for a pointer to a
   * non-const variable that is not forced read-only. A value member gets a
   * getter only.
   */
  function WrapStaticMember(member: StaticMember, forceReadonly: bool, policy: ReturnValuePolicy): (r: (GetterCallback, Option<SetterCallback>))
    ensures r.0 == MemberGetter(member, policy)
    ensures r.1.Some? <==> member.PointerMember? && !member.pointeeIsConst && !forceReadonly
    ensures r.1.Some? ==> r.1.value == MemberSetter(member.address, member.pointee)
  {
    match member
    case PointerMember(address, pointee, isConst) =>
      (MemberGetter(member, policy), if !isConst && !forceReadonly then Some(MemberSetter(address, pointee)) else None)
    case ValueMember(_, _) => (MemberGetter(member, policy), None)
  }

  /** The native variables static pointer members point to. */
  class NativeMemory {
    var cells: map<nat, CppVal>

    constructor(cells: map<nat, CppVal>)
      ensures this.cells == cells
    {
      this.cells := cells;
    }
  }

  /** What a getter needs of memory: a non-null member pointer points to a variable of its type. */
  predicate Readable(g: GetterCallback, cells: map<nat, CppVal>) {
    match g
    case MemberGetter(PointerMember(Some(a), t, _), _) => a in cells && HasType(t, cells[a])
    case MemberGetter(ValueMember(t, v), _) => HasType(t, v)
    case _ => true
  }

  /** Reading a static property through its getter. */
  function CallGetter(g: GetterCallback, mem: NativeMemory, n: Natives): (r: Result<JsVal>)
    requires WellTyped(n) && Readable(g, mem.cells)
    requires g.WrappedGetter? ==> g.fn.params == []
    reads mem
    ensures g.MemberGetter? && g.member.PointerMember? ==>
      (r.Err? <==> g.member.address.None?) &&
      (r.Err? ==> r.failure == Throw(NULL_STATIC_MEMBER))
    ensures g.MemberGetter? && g.member.PointerMember? && g.member.address.Some? ==>
      r == Ok(ToJs(g.member.pointee, mem.cells[g.member.address.value]))
    ensures g.MemberGetter? && g.member.ValueMember? ==> r == Ok(ToJs(g.member.valueType, g.member.value))
    ensures g.WrappedGetter? ==>
      match n.invoke(g.fn, [])
      case Err(f) => r == Err(f)
      case Ok(ret) => r == Ok(if g.fn.result.None? then Undefined else ToJs(g.fn.result.value, ret))
    ensures g.RawGetter? ==> r == n.callRaw(g.id, [])
  {
    match g
    case RawGetter(id) => n.callRaw(id, [])
    case WrappedGetter(fn, _) => CallWrapped(fn, [], n)
    case MemberGetter(PointerMember(None, _, _), _) => Err(Throw(NULL_STATIC_MEMBER))
    case MemberGetter(PointerMember(Some(a), t, _), _) => Ok(ToJs(t, mem.cells[a]))
    case MemberGetter(ValueMember(t, v), _) => Ok(ToJs(t, v))
  }

  /**
   * Writing a static property through its setter. Only a member setter
   * writes memory the model sees (`*member = toCpp(value)`); what a user
   * setter does besides returning is not modelled.
   */
  method CallSetter(s: SetterCallback, v: JsVal, mem: NativeMemory, n: Natives) returns (r: Result<()>)
    requires s.WrappedSetter? ==> |s.fn.params| == 1
    modifies mem
    ensures s.MemberSetter? && s.address.None? ==> r == Err(Throw(NULL_STATIC_MEMBER)) && mem.cells == old(mem.cells)
    ensures s.MemberSetter? && s.address.Some? ==>
      match ToCpp(s.pointee, v)
      case Ok(c) => r == Ok(()) && mem.cells == old(mem.cells)[s.address.value := c]
      case Err(f) => r == Err(f) && mem.cells == old(mem.cells)
    ensures !s.MemberSetter? ==> mem.cells == old(mem.cells)
    ensures s.RawSetter? ==>
      var ret := n.callRaw(s.id, [v]);
      (r.Ok? <==> ret.Ok?) && (r.Err? ==> r.failure == ret.failure)
    ensures s.WrappedSetter? ==>
      match ToCpp(s.fn.params[0], v)
      case Err(f) => r == Err(f)
      case Ok(x) => (r.Ok? <==> n.invoke(s.fn, [x]).Ok?) && (r.Err? ==> r.failure == n.invoke(s.fn, [x]).failure)
  {
    match s
    case RawSetter(id) =>
      var ret := n.callRaw(id, [v]);
      r := if ret.Ok? then Ok(()) else Err(ret.failure);
    case WrappedSetter(fn) =>
      var x := ToCpp(fn.params[0], v);
      if x.Err? {
        r := Err(x.failure);
      } else {
        var ret := n.invoke(fn, [x.value]);
        r := if ret.Ok? then Ok(()) else Err(ret.failure);
      }
    case MemberSetter(address, t) =>
      if address.None? {
        r := Err(Throw(NULL_STATIC_MEMBER));
      } else {
        var x := ToCpp(t, v);
        if x.Err? {
          r := Err(x.failure);
        } else {
          mem.cells := mem.cells[address.value := x.value];
          r := Ok(());
        }
      }
  }

  /**
   * A value written through a member setter is what the matching getter
   * reads back, converted to script; for a round-tripping type that is the
   * very value script wrote.
   */
  lemma SetThenGet(mem: NativeMemory, a: nat, t: CppType, p: ReturnValuePolicy, v: JsVal, n: Natives)
    requires WellTyped(n) && ToCpp(t, v).Ok?
    requires a in mem.cells && mem.cells[a] == ToCpp(t, v).value
    ensures Readable(MemberGetter(PointerMember(Some(a), t, false), p), mem.cells)
    ensures CallGetter(MemberGetter(PointerMember(Some(a), t, false), p), mem, n) == Ok(ToJs(t, ToCpp(t, v).value))
    ensures forall x :: HasType(t, x) && RoundTrips(t) && v == ToJs(t, x) ==>
      CallGetter(MemberGetter(PointerMember(Some(a), t, false), p), mem, n) == Ok(v)
  {
    ToCppWellTyped(t, v);
    forall x | HasType(t, x) && RoundTrips(t) && v == ToJs(t, x)
      ensures ToJs(t, ToCpp(t, v).value) == v
    {
      RoundTrip(t, x);
    }
  }

  // ---------------------------------------------------------------------
  // Constructors and equality
  // ---------------------------------------------------------------------

  /**
   * `bindConstructor<C, Args...>`: a call whose argument count differs
   * from the parameter count is "not constructed" (`None`); otherwise the
   * arguments are converted, and the result is what the constructor would
   * receive (the object creation itself is not in the source).
   */
  function BindConstructorCall(params: seq<CppType>, args: seq<JsVal>): (r: Result<Option<seq<CppVal>>>)
    ensures |args| != |params| ==> r == Ok(None)
    ensures |args| == |params| ==> r.Err? || (r.value.Some? && |r.value.value| == |params|)
    ensures |args| == |params| ==>
      r == (match ConvertArgs(params, args) case Ok(xs) => Ok(Some(xs)) case Err(f) => Err(f))
  {
    if |args| != |params| then Ok(None)
    else if params == [] then Ok(Some([]))
    else
      var xs :- ConvertArgs(params, args);
      Ok(Some(xs))
  }

  /** `bindInstanceEquals<C>`: value comparison exactly when `C` has `operator==`. */
  function BindInstanceEquals(hasEquality: bool): (e: EqualsCallback)
    ensures e.ValueEquals? <==> hasEquality
  {
    if hasEquality then ValueEquals else AddressEquals
  }

  /**
   * Running an equals callback on two instance addresses (`None` is a null
   * pointer); `userEq` is the class's `operator==` on two live objects.
   */
  function CallEquals(e: EqualsCallback, lhs: Option<nat>, rhs: Option<nat>, userEq: (nat, nat) -> bool): (r: bool)
    ensures e.AddressEquals? ==> (r <==> lhs == rhs)
    ensures e.ValueEquals? && (lhs.None? || rhs.None?) ==> !r
    ensures e.ValueEquals? && lhs.Some? && rhs.Some? ==> r == userEq(lhs.value, rhs.value)
  {
    match e
    case AddressEquals => lhs == rhs
    case ValueEquals => if lhs.None? || rhs.None? then false else userEq(lhs.value, rhs.value)
  }
}
