/**
 * The value converters of the binding layer: how bool, the integer
 * types, strings, enums, optionals, vectors, string-keyed maps, variants,
 * monostate and pairs travel between C++ and script.
 *
 * A C++ type is described by `CppType`, a C++ value by `CppVal`, and
 * `HasType` says which values a type admits. `ToJs` is total on well-typed
 * values; `ToCpp` may throw, which is a `Result`.
 */
module Convert {
  import opened Common

  // ---------------------------------------------------------------------
  // Integer kinds and their wrap-around
  // ---------------------------------------------------------------------

  /** The arithmetic types the number converter accepts (floating point is not modelled). */
  datatype IntKind = Int8 | Int16 | Int32 | Int64 | UInt8 | UInt16 | UInt32 | UInt64

  function Modulus(k: IntKind): nat {
    match k
    case Int8 => 0x100
    case UInt8 => 0x100
    case Int16 => 0x1_0000
    case UInt16 => 0x1_0000
    case Int32 => 0x1_0000_0000
    case UInt32 => 0x1_0000_0000
    case Int64 => 0x1_0000_0000_0000_0000
    case UInt64 => 0x1_0000_0000_0000_0000
  }

  predicate IsSigned(k: IntKind) { k.Int8? || k.Int16? || k.Int32? || k.Int64? }

  /** `int64_t` and `uint64_t`, the two types that travel as BigInt. */
  predicate Is64Bit(k: IntKind) { k == Int64 || k == UInt64 }

  function MinValue(k: IntKind): int { if IsSigned(k) then -(Modulus(k) / 2) else 0 }

  function MaxValue(k: IntKind): int { if IsSigned(k) then Modulus(k) / 2 - 1 else Modulus(k) - 1 }

  predicate InRange(k: IntKind, x: int) { MinValue(k) <= x <= MaxValue(k) }

  /**
   * Two's-complement conversion of an integer into `k`: what an integral
   * `static_cast`, V8's `Int32Value`, `Int64Value` and `Uint64Value` do.
   */
  function Wrap(k: IntKind, x: int): (r: int)
    ensures InRange(k, r)
    ensures InRange(k, x) ==> r == x
    ensures (x - r) % Modulus(k) == 0
  {
    var m := Modulus(k);
    if IsSigned(k) then
      RemainderCongruent(x + m / 2, m);
      (x + m / 2) % m - m / 2
    else
      RemainderCongruent(x, m);
      x % m
  }

  /** Taking away the remainder leaves a multiple of the modulus. */
  lemma RemainderCongruent(a: int, m: int)
    requires m > 0
    ensures (a - a % m) % m == 0
  {
    assert a - a % m == (a / m) * m;
    MultipleIsCongruent(a / m, m);
  }

  /** A multiple of the modulus leaves no remainder. */
  lemma MultipleIsCongruent(c: int, m: int)
    requires m > 0
    ensures (c * m) % m == 0
  {
    var b := c * m;
    var d := b / m - c;
    assert d * m == -(b % m);
    assert -m < d * m <= 0;
  }

  /** A value congruent to `y` modulo the width of `k`, with `y` in range, wraps to `y`. */
  lemma WrapCongruent(k: IntKind, x: int, y: int)
    requires InRange(k, y) && (x - y) % Modulus(k) == 0
    ensures Wrap(k, x) == y
  {
    assert MaxValue(k) == MinValue(k) + Modulus(k) - 1;
    SameResidueInWindow(x, Wrap(k, x), y, Modulus(k), MinValue(k));
  }

  /** Two values of one window of width `m` that are congruent to `x` modulo `m` are equal. */
  lemma SameResidueInWindow(x: int, r: int, y: int, m: int, lo: int)
    requires m > 0 && (x - r) % m == 0 && (x - y) % m == 0
    requires lo <= r < lo + m && lo <= y < lo + m
    ensures r == y
  {
    var q1 := (x - r) / m;
    var q2 := (x - y) / m;
    assert x - r == q1 * m;
    assert x - y == q2 * m;
    assert r - y == (q2 - q1) * m;
    SmallMultipleIsZero(q2 - q1, m);
  }

  /** The only multiple of `m` strictly between `-m` and `m` is zero. */
  lemma SmallMultipleIsZero(d: int, m: int)
    requires m > 0 && -m < d * m < m
    ensures d == 0
  {
  }

  // ---------------------------------------------------------------------
  // C++ types and values
  // ---------------------------------------------------------------------

  datatype CppType =
    | BoolT
    | IntT(kind: IntKind)
    | StringT
    | EnumT(underlying: IntKind)
    | OptionalT(inner: CppType)
    | VectorT(elem: CppType)
    | MapT(mapped: CppType)                  // std::unordered_map<std::string, V>
    | VariantT(alternatives: seq<CppType>)
    | MonostateT
    | PairT(first: CppType, second: CppType)

  /**
   * A C++ value. An enum is its underlying integer; a map is its entries in
   * iteration order; a variant is the index of the alternative it holds.
   */
  datatype CppVal =
    | BoolV(b: bool)
    | IntV(i: int)
    | StringV(s: string)
    | EnumV(e: int)
    | Nullopt
    | Engaged(inner: CppVal)
    | VectorV(items: seq<CppVal>)
    | MapV(entries: seq<(string, CppVal)>)
    | VariantV(index: nat, alt: CppVal)
    | Valueless
    | MonostateV
    | PairV(fst: CppVal, snd: CppVal)

  predicate DistinctKeys<V>(entries: seq<(string, V)>) {
    forall i, j :: 0 <= i < j < |entries| ==> entries[i].0 != entries[j].0
  }

  /** The values a C++ type admits. */
  predicate HasType(t: CppType, v: CppVal)
    decreases t
  {
    match t
    case BoolT => v.BoolV?
    case IntT(k) => v.IntV? && InRange(k, v.i)
    case StringT => v.StringV?
    case EnumT(u) => v.EnumV? && InRange(u, v.e)
    case OptionalT(inner) => v.Nullopt? || (v.Engaged? && HasType(inner, v.inner))
    case VectorT(e) => v.VectorV? && forall i :: 0 <= i < |v.items| ==> HasType(e, v.items[i])
    case MapT(vt) =>
      v.MapV? && DistinctKeys(v.entries) && forall i :: 0 <= i < |v.entries| ==> HasType(vt, v.entries[i].1)
    case VariantT(alts) =>
      v.Valueless? || (v.VariantV? && v.index < |alts| && HasType(alts[v.index], v.alt))
    case MonostateT => v.MonostateV?
    case PairT(a, b) => v.PairV? && HasType(a, v.fst) && HasType(b, v.snd)
  }

  // ---------------------------------------------------------------------
  // C++ -> script
  // ---------------------------------------------------------------------

  /**
   * `TypeConverter<T>::toJs`. A 64-bit integer becomes a BigInt holding the
   * same integer (the corrected form of the uint64 path, see
   * `NumberToJsAsWritten`); every other integer becomes a Number. An enum
   * goes through `static_cast<int>`.
   */
  function ToJs(t: CppType, v: CppVal): (r: JsVal)
    requires HasType(t, v)
    ensures r != Undefined
    ensures r == Null ==> t.OptionalT? || t.VariantT? || t.MonostateT?
    decreases t, 1
  {
    match t
    case BoolT => Boolean(v.b)
    case IntT(k) => if Is64Bit(k) then BigInt(v.i) else Number(v.i)
    case StringT => String(v.s)
    case EnumT(_) => Number(Wrap(Int32, v.e))
    case OptionalT(inner) => if v.Engaged? then ToJs(inner, v.inner) else Null
    case VectorT(e) => Array(ToJsItems(e, v.items))
    case MapT(vt) => Object(ToJsEntries(vt, v.entries))
    case VariantT(alts) => if v.Valueless? then Null else ToJs(alts[v.index], v.alt)
    case MonostateT => Null
    case PairT(a, b) => Array([ToJs(a, v.fst), ToJs(b, v.snd)])
  }

  /** The vector loop: element `i` of the array is element `i` converted. */
  function ToJsItems(e: CppType, items: seq<CppVal>): seq<JsVal>
    requires forall i :: 0 <= i < |items| ==> HasType(e, items[i])
    decreases VectorT(e), 0
  {
    seq(|items|, i requires 0 <= i < |items| => ToJs(e, items[i]))
  }

  /** The map loop: one property per entry, in iteration order. */
  function ToJsEntries(vt: CppType, entries: seq<(string, CppVal)>): seq<(string, JsVal)>
    requires forall i :: 0 <= i < |entries| ==> HasType(vt, entries[i].1)
    decreases MapT(vt), 0
  {
    seq(|entries|, i requires 0 <= i < |entries| => (entries[i].0, ToJs(vt, entries[i].1)))
  }

  /**
   * The number converter's `toJs` as written: both 64-bit types are passed
   * to `BigInt::newBigInt`, whose parameter is `int64_t`, so a `uint64_t`
   * is reinterpreted as signed on the way.
   */
  function NumberToJsAsWritten(k: IntKind, x: int): (r: JsVal)
    requires InRange(k, x)
    ensures r.BigInt? <==> Is64Bit(k)
    ensures r.BigInt? ==> InRange(Int64, r.big)
    ensures k != UInt64 ==> r == ToJs(IntT(k), IntV(x))
  {
    if Is64Bit(k) then BigInt(Wrap(Int64, x)) else Number(x)
  }

  // ---------------------------------------------------------------------
  // script -> C++
  // ---------------------------------------------------------------------

  /**
   * What a checked accessor (`asBoolean`, `asString`, `asNumber`,
   * `asArray`, `asObject`) throws when the value has another kind. The
   * accessors are not part of this model; the model takes their failure to
   * be a v8kit `Exception` of type TypeError, so that a variant moves on to
   * its next alternative.
   */
  function AccessorFailure(expected: string): Failure {
    ThrowTypeError("value is not a " + expected)
  }

  const NUMBER_MISMATCH: string := "Cannot convert value to NumberLike<T>"
  const VARIANT_MISMATCH: string := "Cannot convert Value to std::variant; no matching type found."
  const MONOSTATE_MISMATCH: string := "Expected null/undefined for std::monostate"
  const PAIR_MISMATCH: string := "Invalid argument type, expected array with 2 elements"

  /**
   * `result[key] = value` on a map kept as its entry list, and equally
   * `object.set(key, value)` on a script object's own properties: an
   * existing key keeps its position and takes the new value.
   */
  function Assign<V>(entries: seq<(string, V)>, key: string, value: V): (r: seq<(string, V)>)
    ensures (key, value) in r
    ensures |r| == if exists i :: 0 <= i < |entries| && entries[i].0 == key then |entries| else |entries| + 1
  {
    if entries == [] then [(key, value)]
    else if entries[0].0 == key then [(key, value)] + entries[1..]
    else [entries[0]] + Assign(entries[1..], key, value)
  }

  /** The decimal text of an array index, as a property name. */
  function DecimalString(n: nat): string
    decreases n
  {
    var digit := "0123456789"[n % 10];
    if n < 10 then [digit] else DecimalString(n / 10) + [digit]
  }

  /**
   * `getOwnPropertyNames` on an object, paired with what `get` returns for
   * each name: a plain object's own properties, an array's indices with its
   * elements, and nothing for a native instance (whose methods and
   * accessors live on its prototype).
   */
  function OwnProperties(v: JsVal): seq<(string, JsVal)>
    requires IsObject(v)
  {
    match v
    case Object(props) => props
    case Array(elems) => seq(|elems|, i requires 0 <= i < |elems| => (DecimalString(i), elems[i]))
    case Instance(_) => []
  }

  /** `TypeConverter<T>::toCpp`. */
  function ToCpp(t: CppType, v: JsVal): (r: Result<CppVal>)
    ensures IsNullOrUndefined(v) && !(t.OptionalT? || t.VariantT? || t.MonostateT?) ==> r.Err?
    decreases t, 1, 0
  {
    match t
    case BoolT => if v.Boolean? then Ok(BoolV(v.b)) else Err(AccessorFailure("Boolean"))
    case IntT(k) =>
      if v.Number? then Ok(IntV(Wrap(k, v.num)))
      else if v.BigInt? then Ok(IntV(if k == Int64 then Wrap(Int64, v.big) else Wrap(k, Wrap(UInt64, v.big))))
      else Err(ThrowTypeError(NUMBER_MISMATCH))
    case StringT => if v.String? then Ok(StringV(v.str)) else Err(AccessorFailure("String"))
    case EnumT(u) => if v.Number? then Ok(EnumV(Wrap(u, Wrap(Int32, v.num)))) else Err(AccessorFailure("Number"))
    case OptionalT(inner) =>
      if IsNullOrUndefined(v) then Ok(Nullopt)
      else
        var c :- ToCpp(inner, v);
        Ok(Engaged(c))
    case VectorT(e) =>
      if !v.Array? then Err(AccessorFailure("Array"))
      else
        var items :- ToCppItems(e, v.elems);
        Ok(VectorV(items))
    case MapT(vt) =>
      if !IsObject(v) then Err(AccessorFailure("Object"))
      else
        var entries :- ToCppProps(vt, OwnProperties(v), []);
        Ok(MapV(entries))
    case VariantT(alts) => TryToCpp(alts, 0, v)
    case MonostateT => if IsNullOrUndefined(v) then Ok(MonostateV) else Err(ThrowTypeError(MONOSTATE_MISMATCH))
    case PairT(a, b) =>
      if !v.Array? || |v.elems| != 2 then Err(Throw(PAIR_MISMATCH))
      else
        var x :- ToCpp(a, v.elems[0]);
        var y :- ToCpp(b, v.elems[1]);
        Ok(PairV(x, y))
  }

  /** The vector loop: elements converted in index order, the first failure wins. */
  function ToCppItems(e: CppType, elems: seq<JsVal>): Result<seq<CppVal>>
    decreases VectorT(e), 0, |elems|
  {
    if elems == [] then Ok([])
    else
      var head :- ToCpp(e, elems[0]);
      var tail :- ToCppItems(e, elems[1..]);
      Ok([head] + tail)
  }

  /** The map loop over the object's own property names, assigning into `acc`. */
  function ToCppProps(vt: CppType, props: seq<(string, JsVal)>, acc: seq<(string, CppVal)>): Result<seq<(string, CppVal)>>
    decreases MapT(vt), 0, |props|
  {
    if props == [] then Ok(acc)
    else
      var c :- ToCpp(vt, props[0].1);
      ToCppProps(vt, props[1..], Assign(acc, props[0].0, c))
  }

  /** `tryToCpp<I>`: alternative `i` first; only a v8kit `Exception` moves on to `i + 1`. */
  function TryToCpp(alts: seq<CppType>, i: nat, v: JsVal): (r: Result<CppVal>)
    ensures r.Ok? ==> r.value.VariantV? && i <= r.value.index < |alts| && ToCpp(alts[r.value.index], v) == Ok(r.value.alt)
    decreases VariantT(alts), 0, |alts| - i
  {
    if i >= |alts| then Err(ThrowTypeError(VARIANT_MISMATCH))
    else
      match ToCpp(alts[i], v)
      case Ok(c) => Ok(VariantV(i, c))
      case Err(f) => if f.Exception? then TryToCpp(alts, i + 1, v) else Err(f)
  }
}
