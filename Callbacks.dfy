/**
 * The callables a class description carries. A callback the user already
 * wrote against the binding's own signatures is kept as is and named by its
 * identity; a plain C++ function is described by its parameter and result
 * types, and the adapter wraps it. Static members are described by where
 * they live.
 */
module Callbacks {
  import opened Common
  import opened Convert

  /** A C++ function: its identity, its parameter types and its result type (`None` for void). */
  datatype NativeFn = NativeFn(id: nat, params: seq<CppType>, result: Option<CppType>)

  /**
   * What the builder is handed for a function, getter or setter: a
   * `std::function` of the binding's own callback signature (kept as is) or
   * a C++ callable the adapter has to wrap.
   */
  datatype Callable = AsIs(id: nat) | Native(fn: NativeFn)

  /** `FunctionCallback`. */
  datatype FunctionCallback =
    | RawFunction(id: nat)
    | WrappedFunction(fn: NativeFn, policy: ReturnValuePolicy)
    | Overloads(overloads: seq<FunctionCallback>)

  /** A static member exposed as a property: a pointer to a variable, or a value copied into the getter. */
  datatype StaticMember =
    | PointerMember(address: Option<nat>, pointee: CppType, pointeeIsConst: bool)
    | ValueMember(valueType: CppType, value: CppVal)

  /** `GetterCallback`. */
  datatype GetterCallback =
    | RawGetter(id: nat)
    | WrappedGetter(fn: NativeFn, policy: ReturnValuePolicy)
    | MemberGetter(member: StaticMember, policy: ReturnValuePolicy)

  /** `SetterCallback`; an empty `std::function` is `None` wherever a setter is optional. */
  datatype SetterCallback =
    | RawSetter(id: nat)
    | WrappedSetter(fn: NativeFn)
    | MemberSetter(address: Option<nat>, pointee: CppType)

  /** `ConstructorCallback`, `InstanceMethodCallback`, `InstanceGetterCallback`, `InstanceSetterCallback`. */
  datatype ConstructorCallback = ConstructorCallback(id: nat)
  datatype InstanceCallback = InstanceCallback(id: nat)

  /** The two `InstanceEqualsCallback`s the adapter can produce. */
  datatype EqualsCallback = AddressEquals | ValueEquals
}
