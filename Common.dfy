/**
 * Vocabulary shared by every part of the binding layer: optional values,
 * results carrying the exception a C++ routine throws, type identities,
 * return-value policies, and an abstract picture of JavaScript values.
 */
module Common {

  datatype Option<T> = None | Some(value: T)

  /** The script-visible error classes a v8kit `Exception` can carry (`Exception::Type`). */
  datatype ExceptionType = Unknown | Error | RangeError | ReferenceError | SyntaxError | TypeError

  /**
   * Everything the binding layer throws. Only `Exception` (v8kit's own
   * exception class) is caught by the layer's try/catch blocks; the
   * standard-library exceptions propagate through them.
   */
  datatype Failure =
    | Exception(kind: ExceptionType, message: string)
    | LogicError(message: string)       // std::logic_error
    | InvalidArgument(message: string)  // std::invalid_argument
    | RuntimeError(message: string)     // std::runtime_error

  /** `Exception{message}` with its default type. */
  function Throw(message: string): Failure { Exception(Error, message) }

  /** `Exception{message, Exception::Type::TypeError}`. */
  function ThrowTypeError(message: string): Failure { Exception(TypeError, message) }

  /** The outcome of a C++ routine that either returns a value or throws. */
  datatype Result<T> = Ok(value: T) | Err(failure: Failure) {
    predicate IsFailure() { Err? }
    function PropagateFailure<U>(): Result<U> requires Err? { Err(failure) }
    function Extract(): T requires Ok? { value }
  }

  /** A `std::type_index`: two types are the same exactly when their identities are equal. */
  datatype TypeId = TypeId(name: string)

  /** `ReturnValuePolicy`: how a C++ value returned to script is held. */
  datatype ReturnValuePolicy = Automatic | Copy | Move | Reference | TakeOwnership | ReferenceInternal

  /** The static form of the C++ expression handed to a converter. */
  datatype ValueShape = PlainValue | LValueRef | RValueRef | Pointer

  /**
   * A JavaScript value as the binding layer sees it. `Object` is a plain
   * script object with its own enumerable properties in insertion order;
   * `Instance` is an object created by a native class constructor, named by
   * its handle in the engine; `Symbol` and `External` carry identities.
   */
  datatype JsVal =
    | Null
    | Undefined
    | Boolean(b: bool)
    | Number(num: int)
    | BigInt(big: int)
    | String(str: string)
    | Array(elems: seq<JsVal>)
    | Object(props: seq<(string, JsVal)>)
    | Instance(handle: nat)
    | Symbol(symbol: nat)
    | External(pointer: nat)

  /** `Value::isObject()`: arrays and native instances are objects too. */
  predicate IsObject(v: JsVal) { v.Object? || v.Array? || v.Instance? }

  /** `Value::isNullOrUndefined()`. */
  predicate IsNullOrUndefined(v: JsVal) { v.Null? || v.Undefined? }
}
