/**
 * What the value converters promise: round trips, the shape of what each
 * converter produces, the errors it raises, and the first-match rule of
 * variants.
 */
module ConvertProperties {
  import opened Common
  import opened Convert

  /** A type that may convert to null or undefined. */
  predicate Nullable(t: CppType) { t.OptionalT? || t.MonostateT? || t.VariantT? }

  /**
   * An enum whose every value survives `static_cast<int>` and the cast
   * back: any underlying type of at most 32 bits. A `uint32_t` value above
   * `INT32_MAX` travels as a negative number and wraps back on the way in.
   */
  predicate EnumRoundTrips(u: IntKind) { !Is64Bit(u) }

  /** `static_cast<T>(static_cast<int>(x))` is `x` for an enum of at most 32 bits. */
  lemma EnumCastsBack(u: IntKind, e: int)
    requires InRange(u, e) && EnumRoundTrips(u)
    ensures Wrap(u, Wrap(Int32, Wrap(Int32, e))) == e
  {
    var w := Wrap(Int32, e);
    var m := Modulus(u);
    var c := (e - w) / Modulus(Int32);
    assert e - w == c * Modulus(Int32);
    assert Modulus(Int32) == (Modulus(Int32) / m) * m;
    assert w - e == (-c * (Modulus(Int32) / m)) * m;
    MultipleIsCongruent(-c * (Modulus(Int32) / m), m);
    WrapCongruent(u, w, e);
  }

  /**
   * The types on which `ToCpp` undoes `ToJs` exactly: no variant (it picks
   * the first alternative that accepts), no optional around a type that
   * itself converts to null, and no 64-bit enum.
   */
  predicate RoundTrips(t: CppType)
    decreases t
  {
    match t
    case BoolT => true
    case IntT(_) => true
    case StringT => true
    case EnumT(u) => EnumRoundTrips(u)
    case OptionalT(inner) => !Nullable(inner) && RoundTrips(inner)
    case VectorT(e) => RoundTrips(e)
    case MapT(vt) => RoundTrips(vt)
    case VariantT(_) => false
    case MonostateT => true
    case PairT(a, b) => RoundTrips(a) && RoundTrips(b)
  }

  // ---------------------------------------------------------------------
  // Round trips
  // ---------------------------------------------------------------------

  /** `toCpp(toJs(x)) == x` for every value of a round-tripping type. */
  lemma {:induction false} RoundTrip(t: CppType, v: CppVal)
    requires HasType(t, v) && RoundTrips(t)
    ensures ToCpp(t, ToJs(t, v)) == Ok(v)
    decreases t, 1, 0
  {
    match t
    case BoolT =>
    case IntT(k) =>
    case StringT =>
    case EnumT(u) =>
      EnumCastsBack(u, v.e);
    case OptionalT(inner) =>
      if v.Engaged? {
        RoundTrip(inner, v.inner);
      }
    case VectorT(e) =>
      ItemsRoundTrip(e, v.items);
    case MapT(vt) =>
      EntriesRoundTrip(vt, v.entries, []);
      assert [] + v.entries == v.entries;
    case MonostateT =>
    case PairT(a, b) =>
      RoundTrip(a, v.fst);
      RoundTrip(b, v.snd);
  }

  lemma {:induction false} ItemsRoundTrip(e: CppType, items: seq<CppVal>)
    requires RoundTrips(e)
    requires forall i :: 0 <= i < |items| ==> HasType(e, items[i])
    ensures ToCppItems(e, ToJsItems(e, items)) == Ok(items)
    decreases VectorT(e), 0, |items|
  {
    if items != [] {
      RoundTrip(e, items[0]);
      ItemsTail(e, items);
      ItemsRoundTrip(e, items[1..]);
      ItemsStep(e, items);
    }
  }

  lemma ItemsTail(e: CppType, items: seq<CppVal>)
    requires items != [] && forall i :: 0 <= i < |items| ==> HasType(e, items[i])
    ensures forall i :: 0 <= i < |items[1..]| ==> HasType(e, items[1..][i])
  {
    forall i | 0 <= i < |items[1..]| ensures HasType(e, items[1..][i]) {
      assert items[1..][i] == items[i + 1];
    }
  }

  /** One step of `ItemsRoundTrip`: the head converts back and the tail follows it. */
  lemma ItemsStep(e: CppType, items: seq<CppVal>)
    requires items != [] && forall i :: 0 <= i < |items| ==> HasType(e, items[i])
    requires forall i :: 0 <= i < |items[1..]| ==> HasType(e, items[1..][i])
    requires ToCpp(e, ToJs(e, items[0])) == Ok(items[0])
    requires ToCppItems(e, ToJsItems(e, items[1..])) == Ok(items[1..])
    ensures ToCppItems(e, ToJsItems(e, items)) == Ok(items)
  {
    var xs := ToJsItems(e, items);
    assert xs[1..] == ToJsItems(e, items[1..]);
    assert [items[0]] + items[1..] == items;
  }

  function Keys<V>(entries: seq<(string, V)>): set<string> {
    set i | 0 <= i < |entries| :: entries[i].0
  }

  lemma KeysAppend<V>(entries: seq<(string, V)>, e: (string, V))
    ensures Keys(entries + [e]) == Keys(entries) + {e.0}
  {
    var both := entries + [e];
    forall k | k in Keys(both) ensures k in Keys(entries) + {e.0} {
      var i :| 0 <= i < |both| && both[i].0 == k;
      if i < |entries| { assert entries[i].0 == k; }
    }
    forall k | k in Keys(entries) ensures k in Keys(both) {
      var i :| 0 <= i < |entries| && entries[i].0 == k;
      assert both[i].0 == k;
    }
    assert both[|entries|].0 == e.0;
  }

  /** Assigning a key the map does not hold appends one entry. */
  lemma {:induction false} AssignFreshAppends<V>(entries: seq<(string, V)>, key: string, value: V)
    requires key !in Keys(entries)
    ensures Assign(entries, key, value) == entries + [(key, value)]
  {
    if entries != [] {
      assert entries[0].0 in Keys(entries);
      assert Keys(entries[1..]) <= Keys(entries) by {
        forall k | k in Keys(entries[1..]) ensures k in Keys(entries) {
          var i :| 0 <= i < |entries[1..]| && entries[1..][i].0 == k;
          assert entries[i + 1].0 == k;
        }
      }
      AssignFreshAppends(entries[1..], key, value);
    }
  }

  /** Moving the first entry into the accumulator keeps the two key sets apart. */
  lemma KeysMoveHead<V>(acc: seq<(string, V)>, entries: seq<(string, V)>)
    requires entries != [] && DistinctKeys(entries) && Keys(acc) !! Keys(entries)
    ensures entries[0].0 !in Keys(acc)
    ensures DistinctKeys(entries[1..])
    ensures Keys(acc + [entries[0]]) !! Keys(entries[1..])
  {
    assert entries[0].0 in Keys(entries);
    KeysAppend(acc, entries[0]);
    forall k | k in Keys(entries[1..]) ensures k !in Keys(acc + [entries[0]]) {
      var i :| 0 <= i < |entries[1..]| && entries[1..][i].0 == k;
      assert entries[i + 1].0 == k;
      assert k in Keys(entries);
    }
  }

  lemma {:induction false} EntriesRoundTrip(vt: CppType, entries: seq<(string, CppVal)>, acc: seq<(string, CppVal)>)
    requires RoundTrips(vt)
    requires DistinctKeys(entries)
    requires forall i :: 0 <= i < |entries| ==> HasType(vt, entries[i].1)
    requires Keys(acc) !! Keys(entries)
    ensures ToCppProps(vt, ToJsEntries(vt, entries), acc) == Ok(acc + entries)
    decreases MapT(vt), 0, |entries|
  {
    if entries == [] {
      assert acc + entries == acc;
    } else {
      RoundTrip(vt, entries[0].1);
      EntriesStep(vt, entries, acc);
      KeysMoveHead(acc, entries);
      EntriesRoundTrip(vt, entries[1..], acc + [entries[0]]);
      assert acc + [entries[0]] + entries[1..] == acc + entries;
    }
  }

  /** One step of `EntriesRoundTrip`: the head converts back and is appended to the accumulator. */
  lemma EntriesStep(vt: CppType, entries: seq<(string, CppVal)>, acc: seq<(string, CppVal)>)
    requires entries != [] && DistinctKeys(entries) && Keys(acc) !! Keys(entries)
    requires forall i :: 0 <= i < |entries| ==> HasType(vt, entries[i].1)
    requires ToCpp(vt, ToJs(vt, entries[0].1)) == Ok(entries[0].1)
    ensures forall i :: 0 <= i < |entries[1..]| ==> HasType(vt, entries[1..][i].1)
    ensures ToCppProps(vt, ToJsEntries(vt, entries), acc) ==
            ToCppProps(vt, ToJsEntries(vt, entries[1..]), acc + [entries[0]])
  {
    var props := ToJsEntries(vt, entries);
    assert props[1..] == ToJsEntries(vt, entries[1..]);
    assert entries[0].0 in Keys(entries);
    AssignFreshAppends(acc, entries[0].0, entries[0].1);
    forall i | 0 <= i < |entries[1..]| ensures HasType(vt, entries[1..][i].1) {
      assert entries[1..][i] == entries[i + 1];
    }
  }

  // ---------------------------------------------------------------------
  // script -> C++ yields well-typed values
  // ---------------------------------------------------------------------

  /** Whatever `ToCpp` accepts is a value of the requested type: in range, with distinct map keys. */
  lemma {:induction false} ToCppWellTyped(t: CppType, v: JsVal)
    ensures ToCpp(t, v).Ok? ==> HasType(t, ToCpp(t, v).value)
    decreases t, 1, 0
  {
    match t
    case OptionalT(inner) =>
      if !IsNullOrUndefined(v) { ToCppWellTyped(inner, v); }
    case VectorT(e) =>
      if v.Array? { ItemsWellTyped(e, v.elems); }
    case MapT(vt) =>
      if IsObject(v) { PropsWellTyped(vt, OwnProperties(v), []); }
    case VariantT(alts) =>
      AlternativesWellTyped(alts, 0, v);
    case PairT(a, b) =>
      if v.Array? && |v.elems| == 2 {
        ToCppWellTyped(a, v.elems[0]);
        ToCppWellTyped(b, v.elems[1]);
      }
    case _ =>
  }

  lemma {:induction false} ItemsWellTyped(e: CppType, xs: seq<JsVal>)
    ensures ToCppItems(e, xs).Ok? ==>
      |ToCppItems(e, xs).value| == |xs| && forall i :: 0 <= i < |xs| ==> HasType(e, ToCppItems(e, xs).value[i])
    decreases VectorT(e), 0, |xs|
  {
    if xs != [] {
      ToCppWellTyped(e, xs[0]);
      ItemsWellTyped(e, xs[1..]);
      if ToCppItems(e, xs).Ok? {
        var items := ToCppItems(e, xs).value;
        forall i | 0 <= i < |xs| ensures HasType(e, items[i]) {
          if i > 0 { assert items[i] == ToCppItems(e, xs[1..]).value[i - 1]; }
        }
      }
    }
  }

  /** Assigning a key the map holds replaces that entry in place. */
  lemma {:induction false} AssignReplaces<V>(entries: seq<(string, V)>, key: string, value: V)
    requires DistinctKeys(entries) && key in Keys(entries)
    ensures |Assign(entries, key, value)| == |entries|
    ensures forall i :: 0 <= i < |entries| ==>
      Assign(entries, key, value)[i] == if entries[i].0 == key then (key, value) else entries[i]
  {
    var r := Assign(entries, key, value);
    var rest := entries[1..];
    if entries[0].0 == key {
      forall i | 0 < i < |entries| ensures entries[i].0 != key { }
    } else {
      var j :| 0 <= j < |entries| && entries[j].0 == key;
      assert rest[j - 1].0 == key;
      AssignReplaces(rest, key, value);
    }
  }

  /** `result[key] = value` keeps the keys distinct and adds exactly `key` to them. */
  lemma AssignKeys<V>(entries: seq<(string, V)>, key: string, value: V)
    requires DistinctKeys(entries)
    ensures DistinctKeys(Assign(entries, key, value))
    ensures Keys(Assign(entries, key, value)) == Keys(entries) + {key}
  {
    var r := Assign(entries, key, value);
    if key in Keys(entries) {
      AssignReplaces(entries, key, value);
      assert forall i :: 0 <= i < |r| ==> r[i].0 == entries[i].0;
      assert Keys(r) == Keys(entries) by {
        forall k | k in Keys(r) ensures k in Keys(entries) {
          var i :| 0 <= i < |r| && r[i].0 == k;
          assert entries[i].0 == k;
        }
        forall k | k in Keys(entries) ensures k in Keys(r) {
          var i :| 0 <= i < |entries| && entries[i].0 == k;
          assert r[i].0 == k;
        }
      }
    } else {
      AssignFreshAppends(entries, key, value);
      KeysAppend(entries, (key, value));
      forall i | 0 <= i < |entries| ensures entries[i].0 != key {
        assert entries[i].0 in Keys(entries);
      }
    }
  }

  /** `result[key] = value` leaves every entry under another key as it was. */
  lemma AssignKeepsOthers<V>(entries: seq<(string, V)>, key: string, value: V, e: (string, V))
    requires DistinctKeys(entries) && e in entries && e.0 != key
    ensures e in Assign(entries, key, value)
  {
    var i :| 0 <= i < |entries| && entries[i] == e;
    if key in Keys(entries) {
      AssignReplaces(entries, key, value);
      assert Assign(entries, key, value)[i] == e;
    } else {
      AssignFreshAppends(entries, key, value);
      assert Assign(entries, key, value)[i] == e;
    }
  }

  /** `result[key] = value` keeps the keys distinct and the entries well-typed. */
  lemma AssignWellTyped(vt: CppType, entries: seq<(string, CppVal)>, key: string, value: CppVal)
    requires DistinctKeys(entries) && forall i :: 0 <= i < |entries| ==> HasType(vt, entries[i].1)
    requires HasType(vt, value)
    ensures DistinctKeys(Assign(entries, key, value))
    ensures forall i :: 0 <= i < |Assign(entries, key, value)| ==> HasType(vt, Assign(entries, key, value)[i].1)
  {
    AssignKeys(entries, key, value);
    if key in Keys(entries) {
      AssignReplaces(entries, key, value);
    } else {
      AssignFreshAppends(entries, key, value);
    }
  }

  lemma {:induction false} PropsWellTyped(vt: CppType, props: seq<(string, JsVal)>, acc: seq<(string, CppVal)>)
    requires DistinctKeys(acc) && forall i :: 0 <= i < |acc| ==> HasType(vt, acc[i].1)
    ensures ToCppProps(vt, props, acc).Ok? ==>
      var r := ToCppProps(vt, props, acc).value;
      DistinctKeys(r) && forall i :: 0 <= i < |r| ==> HasType(vt, r[i].1)
    decreases MapT(vt), 0, |props|
  {
    if props != [] {
      ToCppWellTyped(vt, props[0].1);
      if ToCpp(vt, props[0].1).Ok? {
        var c := ToCpp(vt, props[0].1).value;
        AssignWellTyped(vt, acc, props[0].0, c);
        PropsWellTyped(vt, props[1..], Assign(acc, props[0].0, c));
      }
    }
  }

  lemma {:induction false} AlternativesWellTyped(alts: seq<CppType>, i: nat, v: JsVal)
    ensures TryToCpp(alts, i, v).Ok? ==>
      var r := TryToCpp(alts, i, v).value;
      r.VariantV? && i <= r.index < |alts| && HasType(alts[r.index], r.alt)
    decreases VariantT(alts), 0, |alts| - i
  {
    if i < |alts| {
      ToCppWellTyped(alts[i], v);
      if ToCpp(alts[i], v).Err? {
        AlternativesWellTyped(alts, i + 1, v);
      }
    }
  }

  /** An optional whose inner type itself converts to null comes back empty: presence is lost. */
  lemma NestedOptionalCollapses()
    ensures ToJs(OptionalT(OptionalT(BoolT)), Engaged(Nullopt)) == Null
    ensures ToCpp(OptionalT(OptionalT(BoolT)), Null) == Ok(Nullopt)
  {
  }

  // ---------------------------------------------------------------------
  // Scalars
  // ---------------------------------------------------------------------

  /** Exactly the 64-bit types become BigInt, and the script sees the same integer. */
  lemma NumberToJsKeepsValue(k: IntKind, x: int)
    requires InRange(k, x)
    ensures ToJs(IntT(k), IntV(x)).BigInt? <==> Is64Bit(k)
    ensures ToJs(IntT(k), IntV(x)) in {BigInt(x), Number(x)}
  {
  }

  /** The number converter accepts a Number or a BigInt and throws TypeError for anything else. */
  lemma NumberToCppAccepts(k: IntKind, v: JsVal)
    ensures ToCpp(IntT(k), v).Ok? <==> v.Number? || v.BigInt?
    ensures ToCpp(IntT(k), v).Ok? ==> InRange(k, ToCpp(IntT(k), v).value.i)
    ensures ToCpp(IntT(k), v).Err? ==> ToCpp(IntT(k), v).failure == ThrowTypeError(NUMBER_MISMATCH)
  {
  }

  /**
   * As written, the largest `uint64_t` reaches script as the BigInt -1,
   * where the corrected converter gives 2^64 - 1.
   */
  lemma Uint64AsWrittenIsNegative()
    ensures NumberToJsAsWritten(UInt64, 0xFFFF_FFFF_FFFF_FFFF) == BigInt(-1)
    ensures ToJs(IntT(UInt64), IntV(0xFFFF_FFFF_FFFF_FFFF)) == BigInt(0xFFFF_FFFF_FFFF_FFFF)
  {
  }

  /** The written and the corrected converter disagree exactly on the uint64 values from 2^63 up. */
  lemma NumberAsWrittenDiffersIff(k: IntKind, x: int)
    requires InRange(k, x)
    ensures NumberToJsAsWritten(k, x) != ToJs(IntT(k), IntV(x)) <==> k == UInt64 && x >= 0x8000_0000_0000_0000
  {
    if k == UInt64 && x >= 0x8000_0000_0000_0000 {
      assert Wrap(Int64, x) == x - 0x1_0000_0000_0000_0000;
    }
  }

  /** The written converter still round-trips, because `getUint64` undoes the reinterpretation. */
  lemma Uint64AsWrittenRoundTrips(x: int)
    requires InRange(UInt64, x)
    ensures ToCpp(IntT(UInt64), NumberToJsAsWritten(UInt64, x)) == Ok(IntV(x))
  {
    if x >= 0x8000_0000_0000_0000 {
      assert Wrap(Int64, x) == x - 0x1_0000_0000_0000_0000;
    }
  }

  /** An enum value wider than `int` does not survive `static_cast<int>`. */
  lemma WideEnumTruncated()
    ensures HasType(EnumT(Int64), EnumV(0x1_0000_0000))
    ensures ToCpp(EnumT(Int64), ToJs(EnumT(Int64), EnumV(0x1_0000_0000))) == Ok(EnumV(0))
  {
    assert Wrap(Int32, 0x1_0000_0000) == 0 by {
      assert (0x1_0000_0000 + 0x8000_0000) % 0x1_0000_0000 == 0x8000_0000;
    }
  }

  /** bool and string: the converted value is the same boolean or the same text. */
  lemma ScalarShapes(b: bool, s: string)
    ensures ToJs(BoolT, BoolV(b)) == Boolean(b) && ToCpp(BoolT, Boolean(b)) == Ok(BoolV(b))
    ensures ToJs(StringT, StringV(s)) == String(s) && ToCpp(StringT, String(s)) == Ok(StringV(s))
  {
  }

  /** monostate is null, and only null or undefined converts back to it. */
  lemma MonostateAcceptsOnlyNullish(v: JsVal)
    ensures ToJs(MonostateT, MonostateV) == Null
    ensures ToCpp(MonostateT, v).Ok? <==> IsNullOrUndefined(v)
    ensures ToCpp(MonostateT, v).Err? ==> ToCpp(MonostateT, v).failure == ThrowTypeError(MONOSTATE_MISMATCH)
  {
  }

  /** An optional maps null and undefined to empty, and converts anything else through its inner type. */
  lemma OptionalToCpp(inner: CppType, v: JsVal)
    ensures IsNullOrUndefined(v) ==> ToCpp(OptionalT(inner), v) == Ok(Nullopt)
    ensures !IsNullOrUndefined(v) ==>
      ToCpp(OptionalT(inner), v) == (match ToCpp(inner, v) case Ok(c) => Ok(Engaged(c)) case Err(f) => Err(f))
  {
  }

  // ---------------------------------------------------------------------
  // Containers
  // ---------------------------------------------------------------------

  /**
   * A vector converts element by element: on success the result has the
   * array's length and element i comes from array element i; on failure
   * the error is the one of the first element that fails.
   */
  lemma {:induction false} VectorElementwise(e: CppType, xs: seq<JsVal>)
    ensures ToCppItems(e, xs).Ok? <==> forall i :: 0 <= i < |xs| ==> ToCpp(e, xs[i]).Ok?
    ensures ToCppItems(e, xs).Ok? ==>
      |ToCppItems(e, xs).value| == |xs| &&
      forall i :: 0 <= i < |xs| ==> ToCpp(e, xs[i]) == Ok(ToCppItems(e, xs).value[i])
    ensures forall k :: 0 <= k < |xs| && ToCpp(e, xs[k]).Err? && (forall j :: 0 <= j < k ==> ToCpp(e, xs[j]).Ok?) ==>
      ToCppItems(e, xs) == Err(ToCpp(e, xs[k]).failure)
  {
    VectorSucceeds(e, xs);
    VectorFirstError(e, xs);
  }

  lemma {:induction false} VectorSucceeds(e: CppType, xs: seq<JsVal>)
    ensures ToCppItems(e, xs).Ok? <==> forall i :: 0 <= i < |xs| ==> ToCpp(e, xs[i]).Ok?
    ensures ToCppItems(e, xs).Ok? ==>
      |ToCppItems(e, xs).value| == |xs| &&
      forall i :: 0 <= i < |xs| ==> ToCpp(e, xs[i]) == Ok(ToCppItems(e, xs).value[i])
  {
    if xs != [] {
      VectorSucceeds(e, xs[1..]);
      assert forall i :: 1 <= i < |xs| ==> xs[1..][i - 1] == xs[i];
    }
  }

  lemma {:induction false} VectorFirstError(e: CppType, xs: seq<JsVal>)
    ensures forall k :: 0 <= k < |xs| && ToCpp(e, xs[k]).Err? && (forall j :: 0 <= j < k ==> ToCpp(e, xs[j]).Ok?) ==>
      ToCppItems(e, xs) == Err(ToCpp(e, xs[k]).failure)
  {
    if xs != [] {
      VectorFirstError(e, xs[1..]);
      assert forall i :: 1 <= i < |xs| ==> xs[1..][i - 1] == xs[i];
    }
  }

  /** A pair needs an array of exactly two elements. */
  lemma PairNeedsTwoElements(a: CppType, b: CppType, v: JsVal)
    requires !v.Array? || |v.elems| != 2
    ensures ToCpp(PairT(a, b), v) == Err(Throw(PAIR_MISMATCH))
  {
  }

  /** A pair becomes a two-element array, first then second. */
  lemma PairToJsShape(a: CppType, b: CppType, v: CppVal)
    requires HasType(PairT(a, b), v)
    ensures ToJs(PairT(a, b), v) == Array([ToJs(a, v.fst), ToJs(b, v.snd)])
    ensures |ToJs(PairT(a, b), v).elems| == 2
  {
  }

  // ---------------------------------------------------------------------
  // Variants
  // ---------------------------------------------------------------------

  /** Alternative `j` throws a v8kit `Exception`, which sends the search on. */
  predicate Skips(alts: seq<CppType>, j: nat, v: JsVal)
    requires j < |alts|
  {
    ToCpp(alts[j], v).Err? && ToCpp(alts[j], v).failure.Exception?
  }

  /**
   * A variant holds the first alternative, in declaration order, that
   * converts; the alternatives before it all threw a v8kit `Exception`.
   */
  lemma {:induction false} VariantPicksFirstAccepting(alts: seq<CppType>, i: nat, v: JsVal, k: nat)
    requires i <= k < |alts|
    requires ToCpp(alts[k], v).Ok?
    requires forall j :: i <= j < k ==> Skips(alts, j, v)
    ensures TryToCpp(alts, i, v) == Ok(VariantV(k, ToCpp(alts[k], v).value))
    decreases k - i
  {
    if i < k {
      assert Skips(alts, i, v);
      VariantPicksFirstAccepting(alts, i + 1, v, k);
      assert TryToCpp(alts, i, v) == TryToCpp(alts, i + 1, v);
    }
  }

  /** Any other failure is not caught: it leaves the variant conversion unchanged. */
  lemma {:induction false} VariantPropagatesForeignFailure(alts: seq<CppType>, i: nat, v: JsVal, k: nat)
    requires i <= k < |alts|
    requires ToCpp(alts[k], v).Err? && !ToCpp(alts[k], v).failure.Exception?
    requires forall j :: i <= j < k ==> Skips(alts, j, v)
    ensures TryToCpp(alts, i, v) == ToCpp(alts[k], v)
    decreases k - i
  {
    if i < k {
      assert Skips(alts, i, v);
      VariantPropagatesForeignFailure(alts, i + 1, v, k);
      assert TryToCpp(alts, i, v) == TryToCpp(alts, i + 1, v);
    }
  }

  /** When every alternative throws a v8kit `Exception`, the variant throws TypeError. */
  lemma {:induction false} VariantNoMatch(alts: seq<CppType>, i: nat, v: JsVal)
    requires forall j :: i <= j < |alts| ==> Skips(alts, j, v)
    ensures TryToCpp(alts, i, v) == Err(ThrowTypeError(VARIANT_MISMATCH))
    decreases |alts| - i
  {
    if i < |alts| {
      assert Skips(alts, i, v);
      VariantNoMatch(alts, i + 1, v);
      assert TryToCpp(alts, i, v) == TryToCpp(alts, i + 1, v);
    }
  }

  /** Conversely, a successful result names an alternative that accepts, after alternatives that all threw. */
  lemma {:induction false} VariantResultIsFirstAccepting(alts: seq<CppType>, i: nat, v: JsVal)
    requires TryToCpp(alts, i, v).Ok?
    ensures TryToCpp(alts, i, v).value.VariantV?
    ensures var k := TryToCpp(alts, i, v).value.index;
      i <= k < |alts| && ToCpp(alts[k], v) == Ok(TryToCpp(alts, i, v).value.alt) &&
      forall j :: i <= j < k ==> Skips(alts, j, v)
    decreases |alts| - i
  {
    if i < |alts| && ToCpp(alts[i], v).Err? {
      VariantResultIsFirstAccepting(alts, i + 1, v);
    }
  }

  /** A valueless variant is null; otherwise the held alternative is converted on its own. */
  lemma VariantToJs(alts: seq<CppType>, v: CppVal)
    requires HasType(VariantT(alts), v)
    ensures v.Valueless? ==> ToJs(VariantT(alts), v) == Null
    ensures v.VariantV? ==> ToJs(VariantT(alts), v) == ToJs(alts[v.index], v.alt)
  {
  }

  /** The value converters throw nothing but v8kit `Exception`s, so a variant of them never stops on a foreign failure. */
  lemma {:induction false} OnlyExceptions(t: CppType, v: JsVal)
    ensures ToCpp(t, v).Err? ==> ToCpp(t, v).failure.Exception?
    decreases t, 1, 0
  {
    match t
    case OptionalT(inner) =>
      if !IsNullOrUndefined(v) { OnlyExceptions(inner, v); }
    case VectorT(e) =>
      if v.Array? { ItemsOnlyExceptions(e, v.elems); }
    case MapT(vt) =>
      if IsObject(v) { PropsOnlyExceptions(vt, OwnProperties(v), []); }
    case VariantT(alts) =>
      AlternativesOnlyExceptions(alts, 0, v);
    case PairT(a, b) =>
      if v.Array? && |v.elems| == 2 {
        OnlyExceptions(a, v.elems[0]);
        OnlyExceptions(b, v.elems[1]);
      }
    case _ =>
  }

  lemma {:induction false} ItemsOnlyExceptions(e: CppType, xs: seq<JsVal>)
    ensures ToCppItems(e, xs).Err? ==> ToCppItems(e, xs).failure.Exception?
    decreases VectorT(e), 0, |xs|
  {
    if xs != [] {
      OnlyExceptions(e, xs[0]);
      ItemsOnlyExceptions(e, xs[1..]);
    }
  }

  lemma {:induction false} PropsOnlyExceptions(vt: CppType, props: seq<(string, JsVal)>, acc: seq<(string, CppVal)>)
    ensures ToCppProps(vt, props, acc).Err? ==> ToCppProps(vt, props, acc).failure.Exception?
    decreases MapT(vt), 0, |props|
  {
    if props != [] {
      OnlyExceptions(vt, props[0].1);
      if ToCpp(vt, props[0].1).Ok? {
        PropsOnlyExceptions(vt, props[1..], Assign(acc, props[0].0, ToCpp(vt, props[0].1).value));
      }
    }
  }

  lemma {:induction false} AlternativesOnlyExceptions(alts: seq<CppType>, i: nat, v: JsVal)
    ensures TryToCpp(alts, i, v).Err? ==> TryToCpp(alts, i, v).failure.Exception?
    decreases VariantT(alts), 0, |alts| - i
  {
    if i < |alts| {
      OnlyExceptions(alts[i], v);
      if ToCpp(alts[i], v).Err? {
        AlternativesOnlyExceptions(alts, i + 1, v);
      }
    }
  }

  /**
   * Converting a held alternative to script and back lands on the same
   * alternative or on an earlier one that also accepts the script value,
   * and on the same one exactly when every earlier alternative rejects it.
   */
  lemma VariantRoundTrip(alts: seq<CppType>, v: CppVal)
    requires HasType(VariantT(alts), v) && v.VariantV?
    requires RoundTrips(alts[v.index])
    ensures var r := ToCpp(VariantT(alts), ToJs(VariantT(alts), v));
      r.Ok? && r.value.VariantV? && r.value.index <= v.index
    ensures (forall j :: 0 <= j < v.index ==> ToCpp(alts[j], ToJs(VariantT(alts), v)).Err?) <==>
      ToCpp(VariantT(alts), ToJs(VariantT(alts), v)) == Ok(v)
  {
    var js := ToJs(VariantT(alts), v);
    RoundTrip(alts[v.index], v.alt);
    var k := FirstAccepting(alts, js, v.index);
    VariantPicksFirstAccepting(alts, 0, js, k);
    if forall j :: 0 <= j < v.index ==> ToCpp(alts[j], js).Err? {
      assert k == v.index;
    } else {
      var j :| 0 <= j < v.index && ToCpp(alts[j], js).Ok?;
      assert k <= j;
    }
  }

  /** The first alternative, up to `j`, that accepts `v`, given that `j` accepts it. */
  lemma {:induction false} FirstAccepting(alts: seq<CppType>, v: JsVal, j: nat) returns (k: nat)
    requires j < |alts| && ToCpp(alts[j], v).Ok?
    ensures k <= j && ToCpp(alts[k], v).Ok?
    ensures forall i :: 0 <= i < k ==> Skips(alts, i, v)
    ensures forall i :: 0 <= i < j && ToCpp(alts[i], v).Ok? ==> k <= i
  {
    if forall i :: 0 <= i < j ==> ToCpp(alts[i], v).Err? {
      forall i | 0 <= i < j ensures Skips(alts, i, v) { OnlyExceptions(alts[i], v); }
      k := j;
    } else {
      var i :| 0 <= i < j && ToCpp(alts[i], v).Ok?;
      k := FirstAccepting(alts, v, i);
    }
  }
}
