/**
 The tagged binary serializer: recursive packing of nested values, and an unpacker that threads an
 offset through arbitrary bytes.
 */
module BinarySerializer {
  import opened Prelude
  import opened Bytes

  /** UTF-8 text is carried as its octets, a float as its eight-byte pattern. */
  type Utf8 = s: seq<byte> | ValidUtf8(s) witness []

  type Double = s: seq<byte> | |s| == 8 witness [0, 0, 0, 0, 0, 0, 0, 0]

  datatype Value =
    | Null
    | Flag(b: bool)
    | Int(n: int)
    | Float(bits: Double)
    | Text(utf8: Utf8)
    | Blob(raw: seq<byte>)
    | List(items: seq<Value>)
    | Tuple(items: seq<Value>)
    | Dict(entries: Entries)
    | Other

  /** The entries of a dictionary, in insertion order. */
  datatype Entries = NoMore | Entry(key: Value, value: Value, next: Entries)
  {
    function Count(): nat { if NoMore? then 0 else 1 + next.Count() }

    function Then(more: Entries): Entries { if NoMore? then more else Entry(key, value, next.Then(more)) }
  }

  datatype Error = OutOfData | BadText | Unhashable | UnknownTag

  // ---------------------------------------------------------------- dictionaries as Python keeps them

  predicate Hashable(v: Value) {
    match v
    case List(_) => false
    case Dict(_) => false
    case Tuple(items) => forall i :: 0 <= i < |items| ==> Hashable(items[i])
    case _ => true
  }

  function PowerOfTwo(n: nat): (r: real)
    ensures r > 0.0
  {
    if n == 0 then 1.0 else 2.0 * PowerOfTwo(n - 1)
  }

  /** Two to the power of any integer. */
  function Scale(shift: int): real {
    if shift >= 0 then PowerOfTwo(shift) else 1.0 / PowerOfTwo(-shift)
  }

  function Signed(negative: bool, significand: nat, scale: real): real {
    (if negative then -1.0 else 1.0) * (significand as real) * scale
  }

  /** The number a finite double stands for; infinities and NaN stand for none. */
  function Number(v: Value): Option<real> {
    match v
    case Flag(b) => Some(if b then 1.0 else 0.0)
    case Int(n) => Some(n as real)
    case Float(bits) =>
      var p := FromBigEndian(bits);
      var negative := p / 0x8000_0000_0000_0000 % 2 == 1;
      var exponent, fraction := p / 0x10_0000_0000_0000 % 2048, p % 0x10_0000_0000_0000;
      if exponent == 2047 then None
      else
        var significand := if exponent == 0 then fraction else fraction + 0x10_0000_0000_0000;
        Some(Signed(negative, significand, Scale(Max(exponent, 1) - 1075)))
    case _ => None
  }

  predicate IsNaN(v: Value) {
    v.Float? && Number(v).None? && FromBigEndian(v.bits) % 0x10_0000_0000_0000 != 0
  }

  /** Python's `==` on keys: numbers by value across types, NaN equal to nothing, the rest by content. */
  predicate SameKey(a: Value, b: Value) {
    if Number(a).Some? || Number(b).Some? then Number(a) == Number(b)
    else if a.Tuple? && b.Tuple? then
      |a.items| == |b.items| && forall i :: 0 <= i < |a.items| ==> SameKey(a.items[i], b.items[i])
    else a == b && !IsNaN(a)
  }

  /** `result[key] = value`: an equal key keeps its place and its spelling, a new one goes to the end. */
  function Assign(entries: Entries, key: Value, value: Value): Entries {
    match entries
    case NoMore => Entry(key, value, NoMore)
    case Entry(k, v, next) => if SameKey(k, key) then Entry(k, value, next) else Entry(k, v, Assign(next, key, value))
  }

  /** None of the keys equals this one. */
  ghost predicate NewKey(entries: Entries, key: Value) {
    entries.NoMore? || (!SameKey(entries.key, key) && NewKey(entries.next, key))
  }

  lemma {:induction false} AssignNew(entries: Entries, key: Value, value: Value)
    requires NewKey(entries, key)
    ensures Assign(entries, key, value) == entries.Then(Entry(key, value, NoMore))
  {
    if entries.NoMore? {
    } else {
      AssignNew(entries.next, key, value);
    }
  }

  lemma {:induction false} ThenIsAssociative(a: Entries, b: Entries, c: Entries)
    ensures a.Then(b).Then(c) == a.Then(b.Then(c)) && a.Then(NoMore) == a
  {
    if a.NoMore? {
    } else {
      ThenIsAssociative(a.next, b, c);
    }
  }

  /** The pattern of a double: sign, eleven bits of exponent, fifty-two bits of fraction. */
  function DoubleOf(negative: bool, exponent: nat, fraction: nat): Value
    requires exponent < 2048 && fraction < 0x10_0000_0000_0000
  {
    Float(BigEndian((if negative then 0x8000_0000_0000_0000 else 0) + exponent * 0x10_0000_0000_0000 + fraction, 8))
  }

  lemma DoubleParts(negative: bool, exponent: nat, fraction: nat)
    requires exponent < 2048 && fraction < 0x10_0000_0000_0000
    ensures var p := FromBigEndian(DoubleOf(negative, exponent, fraction).bits);
            && (p / 0x8000_0000_0000_0000 % 2 == 1 <==> negative)
            && p / 0x10_0000_0000_0000 % 2048 == exponent && p % 0x10_0000_0000_0000 == fraction
  {
    var sign: nat := if negative then 1 else 0;
    var low := exponent * 0x10_0000_0000_0000 + fraction;
    var p := sign * 0x8000_0000_0000_0000 + low;
    Powers();
    DecodeEncode(p, 8);
    hide FromBigEndian, BigEndian;
    DivisionIsUnique(p, 0x8000_0000_0000_0000, sign, low);
    DivisionIsUnique(p, 0x10_0000_0000_0000, sign * 2048 + exponent, fraction);
    DivisionIsUnique(sign * 2048 + exponent, 2048, sign, exponent);
  }

  /** The number of a finite pattern, by its sign, its significand and the place of its last bit. */
  lemma DoubleNumber(negative: bool, exponent: nat, fraction: nat)
    requires exponent < 2047 && fraction < 0x10_0000_0000_0000
    ensures Number(DoubleOf(negative, exponent, fraction)) ==
            Some(Signed(negative, if exponent == 0 then fraction else fraction + 0x10_0000_0000_0000,
                        Scale(Max(exponent, 1) - 1075)))
  {
    DoubleParts(negative, exponent, fraction);
    hide FromBigEndian, BigEndian, PowerOfTwo, Signed, Scale;
  }

  lemma NoNumber(fraction: nat)
    requires fraction < 0x10_0000_0000_0000
    ensures Number(DoubleOf(false, 2047, fraction)).None? && (IsNaN(DoubleOf(false, 2047, fraction)) <==> fraction != 0)
  {
    DoubleParts(false, 2047, fraction);
    hide FromBigEndian, BigEndian, PowerOfTwo, Signed, Scale;
  }

  lemma ScaleDoubles(shift: int)
    ensures Scale(0) == 1.0 && Scale(shift + 1) == 2.0 * Scale(shift)
  {
    if shift < 0 {
      assert PowerOfTwo(-shift) == 2.0 * PowerOfTwo(-shift - 1);
      Halves(PowerOfTwo(-shift - 1));
    }
  }

  lemma Halves(x: real)
    requires x > 0.0
    ensures 1.0 / x == 2.0 * (1.0 / (2.0 * x))
  {
    assert 2.0 * (1.0 / (2.0 * x)) == 2.0 / (2.0 * x);
  }

  /**
   Which number a double is: with an exponent of 1075 the integer that its bits spell; one more in the exponent
   doubles it; below the least exponent the leading bit is missing; the sign bit negates; and the greatest
   exponent is no number.
   */
  lemma DoubleLaws(exponent: nat, fraction: nat)
    requires exponent < 2047 && fraction < 0x10_0000_0000_0000
    ensures Number(DoubleOf(false, 1075, fraction)) == Some((0x10_0000_0000_0000 + fraction) as real)
    ensures 1 <= exponent < 2046 ==>
              && Number(DoubleOf(false, exponent, fraction)).Some?
              && Number(DoubleOf(false, exponent + 1, fraction))
                 == Some(2.0 * Number(DoubleOf(false, exponent, fraction)).value)
    ensures && Number(DoubleOf(false, 0, fraction)).Some? && Number(DoubleOf(false, 1, 0)).Some?
            && Number(DoubleOf(false, 1, fraction))
               == Some(Number(DoubleOf(false, 0, fraction)).value + Number(DoubleOf(false, 1, 0)).value)
    ensures && Number(DoubleOf(false, exponent, fraction)).Some?
            && Number(DoubleOf(true, exponent, fraction)) == Some(-Number(DoubleOf(false, exponent, fraction)).value)
    ensures Number(DoubleOf(false, 2047, fraction)).None? && (IsNaN(DoubleOf(false, 2047, fraction)) <==> fraction != 0)
  {
    hide Number, DoubleOf, IsNaN, Signed, Scale;
    DoubleNumber(false, 1075, fraction);
    DoubleNumber(false, exponent, fraction);
    DoubleNumber(true, exponent, fraction);
    DoubleNumber(false, 0, fraction);
    DoubleNumber(false, 1, 0);
    DoubleNumber(false, 1, fraction);
    NoNumber(fraction);
    ScaleDoubles(0);
    SignedLaws(0x10_0000_0000_0000 + fraction, fraction, Scale(-1074));
    if 1 <= exponent < 2046 {
      DoubleNumber(false, exponent + 1, fraction);
      ScaleDoubles(exponent - 1075);
      SignedLaws(0x10_0000_0000_0000 + fraction, fraction, Scale(exponent - 1075));
    }
    SignedNegates(if exponent == 0 then fraction else fraction + 0x10_0000_0000_0000, Scale(Max(exponent, 1) - 1075));
  }

  lemma SignedNegates(n: nat, z: real)
    ensures Signed(true, n, z) == -Signed(false, n, z)
  {
  }

  lemma SignedLaws(n: nat, x: nat, z: real)
    requires n >= x
    ensures Signed(false, n, 1.0) == n as real
    ensures Signed(false, n, 2.0 * z) == 2.0 * Signed(false, n, z)
    ensures Signed(false, n, z) == Signed(false, x, z) + Signed(false, n - x, z)
  {
    Distributes(x as real, (n - x) as real, z);
    assert n as real == x as real + (n - x) as real;
    TwiceAs(n as real, z);
  }

  lemma TwiceAs(x: real, z: real)
    ensures x * (2.0 * z) == 2.0 * (x * z)
  {
  }

  lemma Distributes(x: real, y: real, z: real)
    ensures (x + y) * z == x * z + y * z
  {
  }

  /** Numbers are the same key if and only if they are equal, whatever their types; False is 0 and True is 1. */
  lemma NumericKeys(a: Value, b: Value)
    ensures Number(Int(0)) == Number(Flag(false)) == Some(0.0) && Number(Int(1)) == Number(Flag(true)) == Some(1.0)
    ensures a.Int? && b.Int? ==> (SameKey(a, b) <==> a.n == b.n)
    ensures Number(a).Some? && Number(b).Some? ==> (SameKey(a, b) <==> Number(a) == Number(b))
    ensures Number(a).Some? && Number(b).None? ==> !SameKey(a, b) && !SameKey(b, a)
    ensures IsNaN(a) ==> !SameKey(a, a)
  {
    if a.Int? && b.Int? {
      assert a.n as real == b.n as real <==> a.n == b.n;
    }
  }

  /** An equal key that is there already keeps its place and its spelling; only its value changes. */
  lemma {:induction false} AssignOld(before: Entries, k: Value, v: Value, after: Entries, key: Value, value: Value)
    requires NewKey(before, key) && SameKey(k, key)
    ensures Assign(before.Then(Entry(k, v, after)), key, value) == before.Then(Entry(k, value, after))
  {
    if before.NoMore? {
    } else {
      hide SameKey;
      AssignOld(before.next, k, v, after, key, value);
    }
  }

  // ---------------------------------------------------------------- packing

  /** The encoding, or nothing where struct.pack or the type switch raises. */
  function Pack(v: Value): Option<seq<byte>>
    decreases v, 0
  {
    match v
    case Null => Some([0])
    case Flag(b) => Some([1, if b then 1 else 0])
    case Int(n) => if FitsSigned(n, TWO_64) then Some([2] + BigEndian(ToUnsigned(n, TWO_64), 8)) else None
    case Float(bits) => Some([3] + bits)
    case Text(utf8) => if |utf8| < TWO_32 then Some([4] + BigEndian(|utf8|, 4) + utf8) else None
    case Blob(raw) => if |raw| < TWO_32 then Some([5] + BigEndian(|raw|, 4) + raw) else None
    case List(items) => Headed(6, |items|, PackItems(items))
    case Tuple(items) => Headed(6, |items|, PackItems(items))
    case Dict(entries) => Headed(7, entries.Count(), PackEntries(entries))
    case Other => None
  }

  function Headed(tag: byte, count: nat, body: Option<seq<byte>>): Option<seq<byte>> {
    if count < TWO_32 && body.Some? then Some([tag] + BigEndian(count, 4) + body.value) else None
  }

  function Joined(a: Option<seq<byte>>, b: Option<seq<byte>>): Option<seq<byte>> {
    if a.Some? && b.Some? then Some(a.value + b.value) else None
  }

  function PackItems(items: seq<Value>): Option<seq<byte>>
    decreases items, 1
  {
    if items == [] then Some([]) else Joined(Pack(items[0]), PackItems(items[1..]))
  }

  function PackEntries(entries: Entries): Option<seq<byte>>
    decreases entries, 1
  {
    match entries
    case NoMore => Some([])
    case Entry(key, value, next) => Joined(Joined(Pack(key), Pack(value)), PackEntries(next))
  }

  /** What the format can carry: 64-bit integers, 32-bit lengths, no foreign objects, all the way down. */
  ghost predicate Encodable(v: Value) {
    match v
    case Int(n) => FitsSigned(n, TWO_64)
    case Text(utf8) => |utf8| < TWO_32
    case Blob(raw) => |raw| < TWO_32
    case List(items) => |items| < TWO_32 && forall i :: 0 <= i < |items| ==> Encodable(items[i])
    case Tuple(items) => |items| < TWO_32 && forall i :: 0 <= i < |items| ==> Encodable(items[i])
    case Dict(entries) => entries.Count() < TWO_32 && EncodableEntries(entries)
    case Other => false
    case _ => true
  }

  ghost predicate EncodableEntries(entries: Entries) {
    entries.NoMore? || (Encodable(entries.key) && Encodable(entries.value) && EncodableEntries(entries.next))
  }

  // ---------------------------------------------------------------- unpacking

  /** `struct.unpack_from` of an unsigned big-endian field. */
  function Field(data: seq<byte>, offset: nat, width: nat): Option<nat> {
    if offset + width <= |data| then Some(FromBigEndian(data[offset..offset + width])) else None
  }

  function Left(data: seq<byte>, offset: nat): nat { if offset < |data| then |data| - offset else 0 }

  function Unpack(data: seq<byte>, offset: nat): (r: Result<(Value, nat), Error>)
    ensures r.Ok? ==> r.value.1 > offset
    decreases Left(data, offset), 0, 0
  {
    if offset >= |data| then Err(OutOfData)
    else
      var tag, at := data[offset], offset + 1;
      if tag == 0 then Ok((Null, at))
      else if tag == 1 then
        if at < |data| then Ok((Flag(data[at] != 0), at + 1)) else Err(OutOfData)
      else if tag == 2 then
        var field := Field(data, at, 8);
        if field.Some? then Ok((Int(ToSigned(field.value, TWO_64)), at + 8)) else Err(OutOfData)
      else if tag == 3 then
        if at + 8 <= |data| then Ok((Float(data[at..at + 8]), at + 8)) else Err(OutOfData)
      else if tag == 4 then
        var length := Field(data, at, 4);
        if length.None? then Err(OutOfData)
        else
          var text := Slice(data, at + 4, at + 4 + length.value);
          if ValidUtf8(text) then Ok((Text(text), at + 4 + length.value)) else Err(BadText)
      else if tag == 5 then
        var length := Field(data, at, 4);
        if length.None? then Err(OutOfData)
        else Ok((Blob(Slice(data, at + 4, at + 4 + length.value)), at + 4 + length.value))
      else if tag == 6 then
        var count := Field(data, at, 4);
        if count.None? then Err(OutOfData)
        else
          var items := UnpackItems(data, at + 4, count.value);
          if items.Ok? then Ok((List(items.value.0), items.value.1)) else Err(items.error)
      else if tag == 7 then
        var count := Field(data, at, 4);
        if count.None? then Err(OutOfData)
        else
          var entries := UnpackEntries(data, at + 4, count.value, NoMore);
          if entries.Ok? then Ok((Dict(entries.value.0), entries.value.1)) else Err(entries.error)
      else Err(UnknownTag)
  }

  function UnpackItems(data: seq<byte>, offset: nat, count: nat): (r: Result<(seq<Value>, nat), Error>)
    ensures r.Ok? ==> r.value.1 >= offset
    decreases Left(data, offset), 1, count
  {
    if count == 0 then Ok(([], offset))
    else
      var first := Unpack(data, offset);
      if first.Err? then Err(first.error)
      else
        var rest := UnpackItems(data, first.value.1, count - 1);
        if rest.Err? then Err(rest.error) else Ok(([first.value.0] + rest.value.0, rest.value.1))
  }

  /** The dictionary loop, with the entries assigned so far. */
  function UnpackEntries(data: seq<byte>, offset: nat, count: nat, done: Entries)
    : (r: Result<(Entries, nat), Error>)
    ensures r.Ok? ==> r.value.1 >= offset
    decreases Left(data, offset), 1, count
  {
    if count == 0 then Ok((done, offset))
    else
      var key := Unpack(data, offset);
      if key.Err? then Err(key.error)
      else
        var value := Unpack(data, key.value.1);
        if value.Err? then Err(value.error)
        else if !Hashable(key.value.0) then Err(Unhashable)
        else UnpackEntries(data, value.value.1, count - 1, Assign(done, key.value.0, value.value.0))
  }

  // ---------------------------------------------------------------- the round trip

  /** What a value reads back as: tuples come back as lists. */
  function ReadBack(v: Value): Value
    decreases v, 0
  {
    match v
    case List(items) => List(ReadBackItems(items))
    case Tuple(items) => List(ReadBackItems(items))
    case Dict(entries) => Dict(ReadBackEntries(entries))
    case _ => v
  }

  function ReadBackItems(items: seq<Value>): seq<Value>
    decreases items, 1
  {
    if items == [] then [] else [ReadBack(items[0])] + ReadBackItems(items[1..])
  }

  function ReadBackEntries(entries: Entries): Entries
    decreases entries, 1
  {
    match entries
    case NoMore => NoMore
    case Entry(key, value, next) => Entry(ReadBack(key), ReadBack(value), ReadBackEntries(next))
  }

  /** Python's own invariant: the keys of a dictionary are hashable and pairwise unequal, at every level. */
  ghost predicate WellFormed(v: Value) {
    match v
    case List(items) => forall i :: 0 <= i < |items| ==> WellFormed(items[i])
    case Tuple(items) => forall i :: 0 <= i < |items| ==> WellFormed(items[i])
    case Dict(entries) => WellFormedEntries(entries)
    case _ => true
  }

  ghost predicate WellFormedEntries(entries: Entries) {
    entries.NoMore? ||
    (&& Hashable(entries.key) && WellFormed(entries.key) && WellFormed(entries.value)
     && DiffersFromAll(entries.key, entries.next) && WellFormedEntries(entries.next))
  }

  ghost predicate DiffersFromAll(key: Value, entries: Entries) {
    entries.NoMore? || (!SameKey(key, entries.key) && DiffersFromAll(key, entries.next))
  }

  /** No dictionary, at any level, has a tuple among its keys. */
  ghost predicate ScalarKeys(v: Value)
    decreases v, 0
  {
    match v
    case List(items) => ScalarKeysIn(items)
    case Tuple(items) => ScalarKeysIn(items)
    case Dict(entries) => ScalarKeysOf(entries)
    case _ => true
  }

  ghost predicate ScalarKeysIn(items: seq<Value>)
    decreases items, 1
  {
    items == [] || (ScalarKeys(items[0]) && ScalarKeysIn(items[1..]))
  }

  ghost predicate ScalarKeysOf(entries: Entries)
    decreases entries, 1
  {
    entries.NoMore? || (!entries.key.Tuple? && ScalarKeys(entries.value) && ScalarKeysOf(entries.next))
  }

  /** The bytes `bs` lie in the data at the offset. */
  ghost predicate At(data: seq<byte>, offset: nat, bs: seq<byte>) {
    offset + |bs| <= |data| && data[offset..offset + |bs|] == bs
  }

  lemma AtConcat(data: seq<byte>, offset: nat, a: seq<byte>, b: seq<byte>)
    requires At(data, offset, a + b)
    ensures At(data, offset, a) && At(data, offset + |a|, b)
  {
    assert data[offset..offset + |a|] == (a + b)[..|a|];
    assert data[offset + |a|..offset + |a| + |b|] == (a + b)[|a|..];
  }

  lemma FieldAt(data: seq<byte>, offset: nat, n: nat, width: nat)
    requires At(data, offset, BigEndian(n, width)) && n < Power256(width)
    ensures Field(data, offset, width) == Some(n)
  {
    DecodeEncode(n, width);
  }

  /** A tag byte, a four-byte count, and the body after them. */
  lemma HeadAt(data: seq<byte>, offset: nat, tag: byte, count: nat, body: seq<byte>)
    requires At(data, offset, [tag] + BigEndian(count, 4) + body) && count < TWO_32
    ensures offset < |data| && data[offset] == tag
    ensures Field(data, offset + 1, 4) == Some(count)
    ensures At(data, offset + 5, body)
  {
    AtConcat(data, offset, [tag] + BigEndian(count, 4), body);
    AtConcat(data, offset, [tag], BigEndian(count, 4));
    assert data[offset..offset + 1][0] == tag;
    Powers();
    FieldAt(data, offset + 1, count, 4);
  }

  lemma SignedRoundTrip(n: int)
    requires FitsSigned(n, TWO_64)
    ensures 0 <= ToUnsigned(n, TWO_64) < TWO_64 && ToSigned(ToUnsigned(n, TWO_64), TWO_64) == n
  {
  }

  /** The outcome of unpacking an encoding that ends at `end`. */
  ghost function Outcome(v: Value, end: nat): Result<(Value, nat), Error> {
    if ScalarKeys(v) then Ok((ReadBack(v), end)) else Err(Unhashable)
  }

  lemma {:induction false} HashableHasScalarKeys(v: Value)
    requires Hashable(v)
    ensures ScalarKeys(v)
  {
    if v.Tuple? {
      HashableItemsHaveScalarKeys(v.items);
    }
  }

  lemma {:induction false} HashableItemsHaveScalarKeys(items: seq<Value>)
    requires forall i :: 0 <= i < |items| ==> Hashable(items[i])
    ensures ScalarKeysIn(items)
  {
    if items == [] {
    } else {
      HashableHasScalarKeys(items[0]);
      HashableItemsHaveScalarKeys(items[1..]);
    }
  }

  lemma UnpackInt(data: seq<byte>, offset: nat, n: int)
    requires FitsSigned(n, TWO_64) && At(data, offset, [2] + BigEndian(ToUnsigned(n, TWO_64), 8))
    ensures Unpack(data, offset) == Ok((Int(n), offset + 9))
  {
    SignedRoundTrip(n);
    AtConcat(data, offset, [2], BigEndian(ToUnsigned(n, TWO_64), 8));
    assert data[offset..offset + 1][0] == 2;
    Powers();
    FieldAt(data, offset + 1, ToUnsigned(n, TWO_64), 8);
  }

  lemma UnpackFloat(data: seq<byte>, offset: nat, bits: Double)
    requires At(data, offset, [3] + bits)
    ensures Unpack(data, offset) == Ok((Float(bits), offset + 9))
  {
    AtConcat(data, offset, [3], bits);
    assert data[offset..offset + 1][0] == 3;
  }

  lemma UnpackSmall(data: seq<byte>, offset: nat, v: Value)
    requires (v.Null? || v.Flag?) && At(data, offset, Pack(v).value)
    ensures Unpack(data, offset) == Ok((v, offset + |Pack(v).value|))
  {
    var bs := Pack(v).value;
    var there := data[offset..offset + |bs|];
    assert there[0] == data[offset] && there == bs;
    if v.Flag? {
      assert there[1] == data[offset + 1];
    }
  }

  /** What unpacking does behind a tag and a four-byte length or count. */
  lemma UnpackHeaded(data: seq<byte>, offset: nat, n: nat)
    requires offset < |data| && Field(data, offset + 1, 4) == Some(n)
    ensures data[offset] == 4 ==>
              var text := Slice(data, offset + 5, offset + 5 + n);
              Unpack(data, offset) == if ValidUtf8(text) then Ok((Text(text), offset + 5 + n)) else Err(BadText)
    ensures data[offset] == 5 ==>
              Unpack(data, offset) == Ok((Blob(Slice(data, offset + 5, offset + 5 + n)), offset + 5 + n))
    ensures data[offset] == 6 ==>
              var items := UnpackItems(data, offset + 5, n);
              Unpack(data, offset) == if items.Ok? then Ok((List(items.value.0), items.value.1)) else Err(items.error)
    ensures data[offset] == 7 ==>
              var entries := UnpackEntries(data, offset + 5, n, NoMore);
              Unpack(data, offset) == if entries.Ok? then Ok((Dict(entries.value.0), entries.value.1))
                                      else Err(entries.error)
  {
    hide Field, Slice, ValidUtf8, UnpackItems, UnpackEntries;
  }

  lemma SliceAt(data: seq<byte>, offset: nat, body: seq<byte>)
    requires At(data, offset, body)
    ensures Slice(data, offset, offset + |body|) == body
  {
  }

  lemma UnpackString(data: seq<byte>, offset: nat, v: Value)
    requires (v.Text? || v.Blob?) && Pack(v).Some? && At(data, offset, Pack(v).value)
    ensures Unpack(data, offset) == Ok((v, offset + |Pack(v).value|))
  {
    hide Unpack;
    hide Field;
    hide ValidUtf8;
    hide Slice;
    hide At;
    hide FromBigEndian;
    var body := if v.Text? then v.utf8 else v.raw;
    HeadAt(data, offset, if v.Text? then 4 else 5, |body|, body);
    UnpackHeaded(data, offset, |body|);
    SliceAt(data, offset + 5, body);
  }

  /** Unpacking an encoding anywhere in any data gives the value back and stops just after it. */
  lemma {:induction false} UnpackPacked(data: seq<byte>, offset: nat, v: Value)
    requires WellFormed(v) && Pack(v).Some? && At(data, offset, Pack(v).value)
    ensures Unpack(data, offset) == Outcome(v, offset + |Pack(v).value|)
    decreases v, 0
  {
    hide Unpack, Field, At, Hashable, SameKey, FromBigEndian, ValidUtf8;
    match v
    case Null => UnpackSmall(data, offset, v);
    case Flag(b) => UnpackSmall(data, offset, v);
    case Int(n) => UnpackInt(data, offset, n);
    case Float(bits) => UnpackFloat(data, offset, bits);
    case Text(utf8) => UnpackString(data, offset, v);
    case Blob(raw) => UnpackString(data, offset, v);
    case List(items) => UnpackPackedList(data, offset, items);
    case Tuple(items) => UnpackPackedList(data, offset, items);
    case Dict(entries) => UnpackPackedDict(data, offset, entries);
    case Other =>
  }

  lemma {:induction false} UnpackPackedDict(data: seq<byte>, offset: nat, entries: Entries)
    requires WellFormedEntries(entries)
    requires Pack(Dict(entries)).Some? && At(data, offset, Pack(Dict(entries)).value)
    ensures Unpack(data, offset) ==
            if ScalarKeysOf(entries) then Ok((Dict(ReadBackEntries(entries)), offset + |Pack(Dict(entries)).value|))
            else Err(Unhashable)
    decreases entries, 2
  {
    hide Unpack, Field, At, Hashable, SameKey, FromBigEndian, ValidUtf8;
    HeadAt(data, offset, 7, entries.Count(), PackEntries(entries).value);
    UnpackHeaded(data, offset, entries.Count());
    AllNewAtFirst(entries);
    UnpackPackedEntries(data, offset + 5, entries, NoMore);
  }

  lemma {:induction false} UnpackPackedList(data: seq<byte>, offset: nat, items: seq<Value>)
    requires forall i :: 0 <= i < |items| ==> WellFormed(items[i])
    requires Pack(List(items)).Some? && At(data, offset, Pack(List(items)).value)
    ensures Unpack(data, offset) ==
            if ScalarKeysIn(items) then Ok((List(ReadBackItems(items)), offset + |Pack(List(items)).value|))
            else Err(Unhashable)
    decreases items, 2
  {
    hide Unpack;
    hide Field;
    hide At;
    HeadAt(data, offset, 6, |items|, PackItems(items).value);
    UnpackHeaded(data, offset, |items|);
    UnpackPackedItems(data, offset + 5, items);
  }

  lemma {:induction false} UnpackPackedItems(data: seq<byte>, offset: nat, items: seq<Value>)
    requires forall i :: 0 <= i < |items| ==> WellFormed(items[i])
    requires PackItems(items).Some? && At(data, offset, PackItems(items).value)
    ensures UnpackItems(data, offset, |items|) ==
            if ScalarKeysIn(items) then Ok((ReadBackItems(items), offset + |PackItems(items).value|))
            else Err(Unhashable)
    decreases items, 1
  {
    hide Unpack;
    hide At;
    if items == [] {
    } else {
      var first := Pack(items[0]).value;
      AtConcat(data, offset, first, PackItems(items[1..]).value);
      UnpackPacked(data, offset, items[0]);
      UnpackPackedItems(data, offset + |first|, items[1..]);
    }
  }

  /** Hashable scalars read back as themselves. */
  lemma ScalarReadsBack(k: Value)
    requires Hashable(k)
    ensures Hashable(ReadBack(k)) <==> !k.Tuple?
    ensures !k.Tuple? ==> ReadBack(k) == k
  {
  }

  lemma {:induction false} NewKeyAfter(done: Entries, key: Value, value: Value, k: Value)
    requires NewKey(done, k) && !SameKey(key, k)
    ensures NewKey(done.Then(Entry(key, value, NoMore)), k)
  {
    if done.NoMore? {
    } else {
      NewKeyAfter(done.next, key, value, k);
    }
  }

  ghost predicate AllNew(done: Entries, entries: Entries) {
    entries.NoMore? || (NewKey(done, entries.key) && AllNew(done, entries.next))
  }

  lemma {:induction false} AllNewAtFirst(entries: Entries)
    ensures AllNew(NoMore, entries)
  {
    if entries.NoMore? {
    } else {
      AllNewAtFirst(entries.next);
    }
  }

  lemma {:induction false} AllNewAfter(done: Entries, key: Value, value: Value, entries: Entries)
    requires AllNew(done, entries) && DiffersFromAll(key, entries)
    ensures AllNew(done.Then(Entry(key, value, NoMore)), entries)
  {
    if entries.NoMore? {
    } else {
      NewKeyAfter(done, key, value, entries.key);
      AllNewAfter(done, key, value, entries.next);
    }
  }

  lemma {:induction false} UnpackPackedEntries(data: seq<byte>, offset: nat, entries: Entries, done: Entries)
    requires WellFormedEntries(entries) && AllNew(done, entries)
    requires PackEntries(entries).Some? && At(data, offset, PackEntries(entries).value)
    ensures UnpackEntries(data, offset, entries.Count(), done) ==
            if ScalarKeysOf(entries)
            then Ok((done.Then(ReadBackEntries(entries)), offset + |PackEntries(entries).value|))
            else Err(Unhashable)
    decreases entries, 1
  {
    hide Unpack;
    hide At;
    hide SameKey;
    hide Pack;
    hide ReadBack;
    hide WellFormed;
    hide Hashable;
    hide ScalarKeys;
    match entries
    case NoMore => ThenIsAssociative(done, NoMore, NoMore);
    case Entry(k, x, next) =>
      var key, value, rest := Pack(k).value, Pack(x).value, PackEntries(next).value;
      AtConcat(data, offset, key + value, rest);
      AtConcat(data, offset, key, value);
      UnpackPacked(data, offset, k);
      UnpackPacked(data, offset + |key|, x);
      HashableHasScalarKeys(k);
      ScalarReadsBack(k);
      if !k.Tuple? && ScalarKeys(x) {
        AssignNew(done, k, ReadBack(x));
        var grown := done.Then(Entry(k, ReadBack(x), NoMore));
        AllNewAfter(done, k, ReadBack(x), next);
        UnpackPackedEntries(data, offset + |key + value|, next, grown);
        ThenIsAssociative(done, Entry(k, ReadBack(x), NoMore), ReadBackEntries(next));
      }
  }

  lemma InContext(prefix: seq<byte>, bs: seq<byte>, suffix: seq<byte>)
    ensures At(prefix + bs + suffix, |prefix|, bs)
  {
  }

  /**
   The round trip in context: behind any prefix and before any suffix, unpacking returns the value
   (tuples as lists) and the position just after its encoding.
   */
  lemma RoundTrip(prefix: seq<byte>, v: Value, suffix: seq<byte>)
    requires WellFormed(v) && ScalarKeys(v) && Pack(v).Some?
    ensures Unpack(prefix + Pack(v).value + suffix, |prefix|) == Ok((ReadBack(v), |prefix| + |Pack(v).value|))
  {
    hide Unpack;
    hide At;
    InContext(prefix, Pack(v).value, suffix);
    UnpackPacked(prefix + Pack(v).value + suffix, |prefix|, v);
  }

  /** A value that can be packed survives the round trip if and only if no dictionary in it has a tuple for a key. */
  lemma RoundTripIffScalarKeys(v: Value)
    requires WellFormed(v) && Pack(v).Some?
    ensures Unpack(Pack(v).value, 0) == Ok((ReadBack(v), |Pack(v).value|)) <==> ScalarKeys(v)
    ensures !ScalarKeys(v) ==> Unpack(Pack(v).value, 0) == Err(Unhashable)
  {
    hide Unpack;
    UnpackPacked(Pack(v).value, 0, v);
  }

  /** {(1,): None} packs, but its key comes back as a list and cannot be a key again. */
  lemma TupleKeyFails()
    ensures exists v: Value :: WellFormed(v) && Pack(v).Some? && Unpack(Pack(v).value, 0) == Err(Unhashable)
  {
    var k := Tuple([Int(1)]);
    var v := Dict(Entry(k, Null, NoMore));
    assert Hashable(k) && WellFormed(k) && WellFormedEntries(Entry(k, Null, NoMore)) && WellFormed(v);
    PackIffEncodable(v);
    assert Encodable(k);
    RoundTripIffScalarKeys(v);
  }

  predicate IsScalar(v: Value) { !v.List? && !v.Tuple? && !v.Dict? && !v.Other? }

  lemma UnpackScalar(data: seq<byte>, offset: nat, v: Value)
    requires IsScalar(v) && Pack(v).Some? && At(data, offset, Pack(v).value)
    ensures Unpack(data, offset) == Ok((v, offset + |Pack(v).value|)) && ReadBack(v) == v
  {
    hide Unpack, At, Field, FromBigEndian, ValidUtf8;
    match v
    case Null => UnpackSmall(data, offset, v);
    case Flag(_) => UnpackSmall(data, offset, v);
    case Int(n) => UnpackInt(data, offset, n);
    case Float(bits) => UnpackFloat(data, offset, bits);
    case _ => UnpackString(data, offset, v);
  }

  function TagOf(v: Value): byte
    requires Pack(v).Some?
  {
    match v
    case Null => 0
    case Flag(_) => 1
    case Int(_) => 2
    case Float(_) => 3
    case Text(_) => 4
    case Blob(_) => 5
    case Dict(_) => 7
    case _ => 6
  }

  lemma TagAt(data: seq<byte>, offset: nat, v: Value)
    requires Pack(v).Some? && At(data, offset, Pack(v).value)
    ensures offset < |data| && data[offset] == TagOf(v)
  {
    var bs := Pack(v).value;
    assert bs[0] == TagOf(v);
    assert data[offset..offset + |bs|][0] == data[offset];
  }

  /** Two encodings that start at the same place are one: whatever the keys of dictionaries in it. */
  lemma {:induction false} OneEncodingAt(data: seq<byte>, offset: nat, v: Value, w: Value)
    requires Pack(v).Some? && At(data, offset, Pack(v).value)
    requires Pack(w).Some? && At(data, offset, Pack(w).value)
    ensures ReadBack(v) == ReadBack(w) && |Pack(v).value| == |Pack(w).value|
    decreases v, 0
  {
    hide Unpack, At, Field;
    TagAt(data, offset, v);
    TagAt(data, offset, w);
    if IsScalar(v) {
      UnpackScalar(data, offset, v);
      UnpackScalar(data, offset, w);
    } else if v.Dict? {
      HeadAt(data, offset, 7, v.entries.Count(), PackEntries(v.entries).value);
      HeadAt(data, offset, 7, w.entries.Count(), PackEntries(w.entries).value);
      OneEncodingOfEntriesAt(data, offset + 5, v.entries, w.entries);
    } else {
      HeadAt(data, offset, 6, |v.items|, PackItems(v.items).value);
      HeadAt(data, offset, 6, |w.items|, PackItems(w.items).value);
      OneEncodingOfItemsAt(data, offset + 5, v.items, w.items);
    }
  }

  lemma {:induction false} OneEncodingOfItemsAt(data: seq<byte>, offset: nat, vs: seq<Value>, ws: seq<Value>)
    requires |vs| == |ws|
    requires PackItems(vs).Some? && At(data, offset, PackItems(vs).value)
    requires PackItems(ws).Some? && At(data, offset, PackItems(ws).value)
    ensures ReadBackItems(vs) == ReadBackItems(ws) && |PackItems(vs).value| == |PackItems(ws).value|
    decreases vs, 1
  {
    hide Pack, At, ReadBack;
    if vs == [] {
    } else {
      AtConcat(data, offset, Pack(vs[0]).value, PackItems(vs[1..]).value);
      AtConcat(data, offset, Pack(ws[0]).value, PackItems(ws[1..]).value);
      OneEncodingAt(data, offset, vs[0], ws[0]);
      OneEncodingOfItemsAt(data, offset + |Pack(vs[0]).value|, vs[1..], ws[1..]);
    }
  }

  lemma {:induction false} OneEncodingOfEntriesAt(data: seq<byte>, offset: nat, vs: Entries, ws: Entries)
    requires vs.Count() == ws.Count()
    requires PackEntries(vs).Some? && At(data, offset, PackEntries(vs).value)
    requires PackEntries(ws).Some? && At(data, offset, PackEntries(ws).value)
    ensures ReadBackEntries(vs) == ReadBackEntries(ws) && |PackEntries(vs).value| == |PackEntries(ws).value|
    decreases vs, 1
  {
    hide Pack, At, ReadBack;
    if vs.NoMore? {
    } else {
      EntryAt(data, offset, vs);
      EntryAt(data, offset, ws);
      var key := |Pack(vs.key).value|;
      OneEncodingAt(data, offset, vs.key, ws.key);
      OneEncodingAt(data, offset + key, vs.value, ws.value);
      OneEncodingOfEntriesAt(data, offset + key + |Pack(vs.value).value|, vs.next, ws.next);
    }
  }

  /** A key, its value, and the entries after them. */
  lemma EntryAt(data: seq<byte>, offset: nat, entries: Entries)
    requires entries.Entry? && PackEntries(entries).Some? && At(data, offset, PackEntries(entries).value)
    ensures var key, value, rest := Pack(entries.key), Pack(entries.value), PackEntries(entries.next);
            && key.Some? && value.Some? && rest.Some?
            && PackEntries(entries).value == key.value + value.value + rest.value
            && At(data, offset, key.value) && At(data, offset + |key.value|, value.value)
            && At(data, offset + |key.value| + |value.value|, rest.value)
  {
    hide Pack, At;
    var key, value, rest := Pack(entries.key).value, Pack(entries.value).value, PackEntries(entries.next).value;
    AtConcat(data, offset, key + value, rest);
    AtConcat(data, offset, key, value);
  }

  /** No encoding is a proper prefix of another one, and equal encodings read back equal. */
  lemma {:induction false} PrefixFree(v: Value, w: Value, suffix: seq<byte>)
    requires Pack(v).Some? && Pack(w).Some? && Pack(w).value == Pack(v).value + suffix
    ensures suffix == [] && ReadBack(v) == ReadBack(w)
  {
    var data := Pack(w).value;
    hide Pack, ReadBack;
    assert At(data, 0, data) && At(data, 0, Pack(v).value);
    OneEncodingAt(data, 0, v, w);
  }

  /** Packing raises exactly on what the format cannot carry. */
  lemma {:induction false} PackIffEncodable(v: Value)
    ensures Pack(v).Some? <==> Encodable(v)
    decreases v, 0
  {
    match v
    case List(items) => PackItemsIffEncodable(items);
    case Tuple(items) => PackItemsIffEncodable(items);
    case Dict(entries) => PackEntriesIffEncodable(entries);
    case _ =>
  }

  lemma {:induction false} PackItemsIffEncodable(items: seq<Value>)
    ensures PackItems(items).Some? <==> forall i :: 0 <= i < |items| ==> Encodable(items[i])
    decreases items, 1
  {
    if items == [] {
    } else {
      PackIffEncodable(items[0]);
      PackItemsIffEncodable(items[1..]);
      assert forall i :: 0 < i < |items| ==> items[i] == items[1..][i - 1];
      assert forall i :: 0 <= i < |items[1..]| ==> items[1..][i] == items[i + 1];
    }
  }

  lemma {:induction false} PackEntriesIffEncodable(entries: Entries)
    ensures PackEntries(entries).Some? <==> EncodableEntries(entries)
    decreases entries, 1
  {
    if entries.NoMore? {
    } else {
      PackIffEncodable(entries.key);
      PackIffEncodable(entries.value);
      PackEntriesIffEncodable(entries.next);
    }
  }

  // ---------------------------------------------------------------- the format table

  function Joint(parts: seq<seq<byte>>): seq<byte> {
    if parts == [] then [] else parts[0] + Joint(parts[1..])
  }

  /** The bytes are the encodings of these values, one after the other. */
  ghost predicate AreEncodings(bs: seq<byte>, vs: seq<Value>) {
    exists parts: seq<seq<byte>> :: bs == Joint(parts) && EncodeEach(parts, vs)
  }

  ghost predicate EncodeEach(parts: seq<seq<byte>>, vs: seq<Value>) {
    |parts| == |vs| && forall i :: 0 <= i < |vs| ==> Pack(vs[i]) == Some(parts[i])
  }

  /** The keys and values of a dictionary, in insertion order. */
  function KeysAndValues(entries: Entries): seq<Value> {
    if entries.NoMore? then [] else [entries.key] + [entries.value] + KeysAndValues(entries.next)
  }

  /** A tag, a four-byte length or count with the most significant byte first, and a body. */
  ghost predicate Laid(bs: seq<byte>, tag: byte, count: nat, body: seq<byte>) {
    |bs| >= 5 && bs[0] == tag && AreDigits(bs[1..5], count) && bs[5..] == body
  }

  lemma HeadIsLaid(tag: byte, count: nat, body: seq<byte>)
    ensures Laid([tag] + BigEndian(count, 4) + body, tag, count, body)
  {
    var bs := [tag] + BigEndian(count, 4) + body;
    BigEndianIsDigits(count, 4);
    assert bs[1..5] == BigEndian(count, 4);
  }

  lemma {:induction false} ItemsAreJoined(vs: seq<Value>) returns (parts: seq<seq<byte>>)
    requires PackItems(vs).Some?
    ensures PackItems(vs).value == Joint(parts) && EncodeEach(parts, vs)
  {
    hide Pack;
    if vs == [] {
      parts := [];
    } else {
      var rest := ItemsAreJoined(vs[1..]);
      parts := [Pack(vs[0]).value] + rest;
      assert parts[1..] == rest;
      assert forall i :: 1 <= i < |vs| ==> vs[i] == vs[1..][i - 1];
    }
  }

  lemma {:induction false} EntriesAreItems(entries: Entries)
    ensures PackEntries(entries) == PackItems(KeysAndValues(entries))
  {
    hide Pack;
    if entries.NoMore? {
    } else {
      var rest := KeysAndValues(entries.next);
      var all := [entries.key] + [entries.value] + rest;
      EntriesAreItems(entries.next);
      assert all[1..] == [entries.value] + rest && all[1..][1..] == rest;
      JoinedIsAssociative(Pack(entries.key), Pack(entries.value), PackItems(rest));
    }
  }

  lemma JoinedIsAssociative(a: Option<seq<byte>>, b: Option<seq<byte>>, c: Option<seq<byte>>)
    ensures Joined(Joined(a, b), c) == Joined(a, Joined(b, c))
  {
    if a.Some? && b.Some? && c.Some? {
      ConcatIsAssociative(a.value, b.value, c.value);
    }
  }

  /** The wire format of scalars and strings. */
  lemma PackedScalar(v: Value)
    requires Pack(v).Some?
    ensures var bs := Pack(v).value;
            match v
            case Null => bs == [0]
            case Flag(b) => bs == [1, if b then 1 else 0]
            case Int(n) => |bs| == 9 && bs[0] == 2 && AreDigits(bs[1..], n % TWO_64)
            case Float(bits) => bs == [3] + bits
            case Text(utf8) => Laid(bs, 4, |utf8|, utf8)
            case Blob(raw) => Laid(bs, 5, |raw|, raw)
            case _ => true
  {
    hide ValidUtf8;
    match v
    case Int(n) =>
      TwosComplement(n, TWO_64);
      BigEndianIsDigits(ToUnsigned(n, TWO_64), 8);
      assert Pack(v).value[1..] == BigEndian(ToUnsigned(n, TWO_64), 8);
    case Text(utf8) => HeadIsLaid(4, |utf8|, utf8);
    case Blob(raw) => HeadIsLaid(5, |raw|, raw);
    case _ =>
  }

  /** The wire format of lists, tuples and dictionaries: the encodings of what they hold, in order. */
  lemma PackedContainer(v: Value) returns (body: seq<byte>)
    requires Pack(v).Some? && (v.List? || v.Tuple? || v.Dict?)
    ensures match v
            case Dict(entries) =>
              Laid(Pack(v).value, 7, entries.Count(), body) && AreEncodings(body, KeysAndValues(entries))
            case List(items) => Laid(Pack(v).value, 6, |items|, body) && AreEncodings(body, items)
            case Tuple(items) => Laid(Pack(v).value, 6, |items|, body) && AreEncodings(body, items)
            case _ => true
  {
    if v.Dict? {
      body := PackEntries(v.entries).value;
      HeadIsLaid(7, v.entries.Count(), body);
      EntriesAreItems(v.entries);
      var parts := ItemsAreJoined(KeysAndValues(v.entries));
    } else {
      body := PackItems(v.items).value;
      HeadIsLaid(6, |v.items|, body);
      var parts := ItemsAreJoined(v.items);
    }
  }

  // ---------------------------------------------------------------- decoding arbitrary bytes

  /** A list or a dictionary where a key should be raises, after its value was read. */
  lemma ContainerKeyFails(data: seq<byte>, offset: nat, count: nat, done: Entries)
    requires count > 0 && Unpack(data, offset).Ok?
    requires Unpack(data, offset).value.0.List? || Unpack(data, offset).value.0.Dict?
    ensures UnpackEntries(data, offset, count, done).Err?
    ensures Unpack(data, Unpack(data, offset).value.1).Ok? ==>
              UnpackEntries(data, offset, count, done) == Err(Unhashable)
  {
    hide Unpack;
  }

  /** Bytes that no encoding starts with: tags from 8 on are unknown, and any byte but zero is a true flag. */
  lemma UnpackForeignBytes(data: seq<byte>, offset: nat)
    ensures offset >= |data| ==> Unpack(data, offset) == Err(OutOfData)
    ensures offset < |data| && data[offset] > 7 ==> Unpack(data, offset) == Err(UnknownTag)
    ensures offset + 1 < |data| && data[offset] == 1 ==>
              Unpack(data, offset) == Ok((Flag(data[offset + 1] != 0), offset + 2))
  {
  }

  /** How many values an unpack call starts on: the tags it reads. */
  function Steps(data: seq<byte>, offset: nat): nat
    decreases Left(data, offset), 0, 0
  {
    if offset >= |data| then 0
    else
      var count := Field(data, offset + 1, 4);
      if count.None? then 1
      else if data[offset] == 6 then 1 + StepsOfItems(data, offset + 5, count.value)
      else if data[offset] == 7 then 1 + StepsOfEntries(data, offset + 5, count.value)
      else 1
  }

  function StepsOfItems(data: seq<byte>, offset: nat, count: nat): nat
    decreases Left(data, offset), 1, count
  {
    if count == 0 then 0
    else
      var first := Unpack(data, offset);
      Steps(data, offset) + if first.Err? then 0 else StepsOfItems(data, first.value.1, count - 1)
  }

  function StepsOfEntries(data: seq<byte>, offset: nat, count: nat): nat
    decreases Left(data, offset), 1, count
  {
    if count == 0 then 0
    else
      var key := Unpack(data, offset);
      if key.Err? then Steps(data, offset)
      else
        var value := Unpack(data, key.value.1);
        Steps(data, offset) + Steps(data, key.value.1) +
        if value.Err? || !Hashable(key.value.0) then 0 else StepsOfEntries(data, value.value.1, count - 1)
  }

  /** Where a call stops looking: its end position, or the end of the data. */
  function Reach<T>(data: seq<byte>, r: Result<(T, nat), Error>): nat {
    if r.Ok? then Min(r.value.1, |data|) else |data|
  }

  /**
   Whatever counts the input claims, unpacking reads at most one tag per byte: every nested call
   starts at a later byte of the input.
   */
  lemma {:induction false} StepsBounded(data: seq<byte>, offset: nat)
    requires offset <= |data|
    ensures offset + Steps(data, offset) <= Reach(data, Unpack(data, offset))
    decreases Left(data, offset), 0, 0
  {
    var count := Field(data, offset + 1, 4);
    if offset < |data| && count.Some? {
      UnpackHeaded(data, offset, count.value);
      if data[offset] == 6 {
        StepsOfItemsBounded(data, offset + 5, count.value);
      } else if data[offset] == 7 {
        StepsOfEntriesBounded(data, offset + 5, count.value, NoMore);
      }
    }
  }

  lemma {:induction false} StepsOfItemsBounded(data: seq<byte>, offset: nat, count: nat)
    requires offset <= |data|
    ensures offset + StepsOfItems(data, offset, count) <= Reach(data, UnpackItems(data, offset, count))
    decreases Left(data, offset), 1, count
  {
    hide Unpack;
    hide Steps;
    if count == 0 {
    } else {
      StepsBounded(data, offset);
      var first := Unpack(data, offset);
      if first.Ok? {
        if first.value.1 <= |data| {
          StepsOfItemsBounded(data, first.value.1, count - 1);
        } else {
          NoStepsBeyond(data, first.value.1, count - 1, NoMore);
        }
      }
    }
  }

  /** Past the end of the data nothing is read. */
  lemma NoStepsBeyond(data: seq<byte>, offset: nat, count: nat, done: Entries)
    requires offset >= |data|
    ensures Steps(data, offset) == 0 && Unpack(data, offset) == Err(OutOfData)
    ensures StepsOfItems(data, offset, count) == 0 && StepsOfEntries(data, offset, count) == 0
    ensures count > 0 ==> UnpackItems(data, offset, count) == Err(OutOfData)
    ensures count > 0 ==> UnpackEntries(data, offset, count, done) == Err(OutOfData)
  {
    assert Unpack(data, offset) == Err(OutOfData);
  }

  lemma {:induction false} StepsOfEntriesBounded(data: seq<byte>, offset: nat, count: nat, done: Entries)
    requires offset <= |data|
    ensures offset + StepsOfEntries(data, offset, count) <= Reach(data, UnpackEntries(data, offset, count, done))
    decreases Left(data, offset), 1, count
  {
    hide Unpack;
    hide Steps;
    hide Assign;
    if count == 0 {
    } else {
      StepsBounded(data, offset);
      var key := Unpack(data, offset);
      if key.Ok? {
        if key.value.1 > |data| {
          NoStepsBeyond(data, key.value.1, 0, NoMore);
        } else {
          StepsBounded(data, key.value.1);
          var value := Unpack(data, key.value.1);
          if value.Ok? && Hashable(key.value.0) {
            if value.value.1 <= |data| {
              StepsOfEntriesBounded(data, value.value.1, count - 1, Assign(done, key.value.0, value.value.0));
            } else {
              NoStepsBeyond(data, value.value.1, count - 1, Assign(done, key.value.0, value.value.0));
            }
          }
        }
      }
    }
  }

  // ---------------------------------------------------------------- truncated input

  /**
   A truncated encoding still unpacks when the missing bytes all belong to a string at its very end
   (and what is left of a text is whole characters).
   */
  ghost predicate Survives(v: Value, cut: nat)
    decreases v, 0
  {
    match v
    case Text(utf8) => cut <= |utf8| && ValidUtf8(utf8[..|utf8| - cut])
    case Blob(raw) => cut <= |raw|
    case List(items) => SurvivesItems(items, cut)
    case Tuple(items) => SurvivesItems(items, cut)
    case Dict(entries) => SurvivesEntries(entries, cut)
    case _ => false
  }

  ghost predicate SurvivesItems(items: seq<Value>, cut: nat)
    decreases items, 1
  {
    items != [] && if |items| == 1 then Survives(items[0], cut) else SurvivesItems(items[1..], cut)
  }

  ghost predicate SurvivesEntries(entries: Entries, cut: nat)
    decreases entries, 1
  {
    entries.Entry? && if entries.next.NoMore? then Survives(entries.value, cut) else SurvivesEntries(entries.next, cut)
  }

  lemma {:induction false} SurvivorsLoseLessThanAll(v: Value, cut: nat)
    requires Survives(v, cut) && Pack(v).Some?
    ensures cut < |Pack(v).value|
    decreases v, 0
  {
    match v
    case List(items) => SurvivingItemsLoseLess(items, cut);
    case Tuple(items) => SurvivingItemsLoseLess(items, cut);
    case Dict(entries) => SurvivingEntriesLoseLess(entries, cut);
    case _ =>
  }

  lemma {:induction false} SurvivingItemsLoseLess(items: seq<Value>, cut: nat)
    requires SurvivesItems(items, cut) && PackItems(items).Some?
    ensures cut < |PackItems(items).value|
    decreases items, 1
  {
    if |items| == 1 {
      SurvivorsLoseLessThanAll(items[0], cut);
    } else {
      SurvivingItemsLoseLess(items[1..], cut);
    }
  }

  lemma {:induction false} SurvivingEntriesLoseLess(entries: Entries, cut: nat)
    requires SurvivesEntries(entries, cut) && PackEntries(entries).Some?
    ensures cut < |PackEntries(entries).value|
    decreases entries, 1
  {
    if entries.next.NoMore? {
      SurvivorsLoseLessThanAll(entries.value, cut);
    } else {
      SurvivingEntriesLoseLess(entries.next, cut);
    }
  }

  /** The data ends `cut` bytes before the end of `bs`. */
  ghost predicate CutAt(data: seq<byte>, offset: nat, bs: seq<byte>, cut: nat) {
    0 < cut <= |bs| && offset + |bs| - cut == |data| && data[offset..] == bs[..|bs| - cut]
  }

  lemma CutSecond(data: seq<byte>, offset: nat, a: seq<byte>, b: seq<byte>, cut: nat)
    requires CutAt(data, offset, a + b, cut) && cut <= |b|
    ensures At(data, offset, a) && CutAt(data, offset + |a|, b, cut)
  {
    assert data[offset..offset + |a|] == data[offset..][..|a|] == (a + b)[..|a|];
    assert data[offset + |a|..] == data[offset..][|a|..] == (a + b)[..|a + b| - cut][|a|..];
  }

  lemma CutFirst(data: seq<byte>, offset: nat, a: seq<byte>, b: seq<byte>, cut: nat)
    requires CutAt(data, offset, a + b, cut) && cut > |b|
    ensures CutAt(data, offset, a, cut - |b|)
  {
    assert (a + b)[..|a + b| - cut] == a[..|a| - (cut - |b|)];
  }

  /** A cut inside the tag or the count is always noticed. */
  lemma CutHead(data: seq<byte>, offset: nat, tag: byte, count: nat, body: seq<byte>, cut: nat)
    requires CutAt(data, offset, [tag] + BigEndian(count, 4) + body, cut) && 4 <= tag <= 7 && count < TWO_32
    ensures if cut <= |body| then
              && offset < |data| && data[offset] == tag
              && Field(data, offset + 1, 4) == Some(count)
              && CutAt(data, offset + 5, body, cut)
            else Unpack(data, offset) == Err(OutOfData)
  {
    var head := [tag] + BigEndian(count, 4);
    if cut <= |body| {
      CutSecond(data, offset, head, body, cut);
      assert head + [] == head;
      HeadAt(data, offset, tag, count, []);
    } else {
      CutFirst(data, offset, head, body, cut);
      assert Field(data, offset + 1, 4) == None;
      if offset < |data| {
        assert data[offset] == data[offset..][0] == head[0];
      }
    }
  }

  lemma CutString(data: seq<byte>, offset: nat, v: Value, cut: nat)
    requires (v.Text? || v.Blob?) && Pack(v).Some? && CutAt(data, offset, Pack(v).value, cut)
    ensures Unpack(data, offset).Ok? <==> Survives(v, cut)
    ensures Unpack(data, offset).Ok? ==> Unpack(data, offset).value.1 == offset + |Pack(v).value|
  {
    hide Unpack;
    hide Field;
    hide ValidUtf8;
    var body := if v.Text? then v.utf8 else v.raw;
    CutHead(data, offset, if v.Text? then 4 else 5, |body|, body, cut);
    if cut <= |body| {
      UnpackHeaded(data, offset, |body|);
      assert Slice(data, offset + 5, offset + 5 + |body|) == data[offset + 5..];
    }
  }

  lemma CutScalar(data: seq<byte>, offset: nat, v: Value, cut: nat)
    requires (v.Null? || v.Flag? || v.Int? || v.Float?) && Pack(v).Some? && CutAt(data, offset, Pack(v).value, cut)
    ensures Unpack(data, offset) == Err(OutOfData)
  {
    if offset < |data| {
      assert data[offset] == data[offset..][0] == Pack(v).value[0];
    }
  }

  /**
   Truncation goes unnoticed exactly when the encoding survives it and has no tuple among its keys; the
   reported end then lies beyond the data.
   */
  lemma {:induction false} UnpackCut(data: seq<byte>, offset: nat, v: Value, cut: nat)
    requires WellFormed(v) && Pack(v).Some? && CutAt(data, offset, Pack(v).value, cut)
    ensures Unpack(data, offset).Ok? <==> ScalarKeys(v) && Survives(v, cut)
    ensures Unpack(data, offset).Ok? ==> Unpack(data, offset).value.1 == offset + |Pack(v).value| > |data|
    decreases v, 0
  {
    hide Unpack;
    hide Field;
    BeyondData(data, offset, Pack(v).value, cut);
    hide CutAt;
    match v
    case Text(_) => CutString(data, offset, v, cut);
    case Blob(_) => CutString(data, offset, v, cut);
    case List(items) => UnpackCutList(data, offset, items, cut);
    case Tuple(items) => UnpackCutList(data, offset, items, cut);
    case Dict(entries) =>
      var body := PackEntries(entries).value;
      CutHead(data, offset, 7, entries.Count(), body, cut);
      if cut <= |body| {
        UnpackHeaded(data, offset, entries.Count());
        AllNewAtFirst(entries);
        UnpackCutEntries(data, offset + 5, entries, NoMore, cut);
      } else if Survives(v, cut) {
        SurvivingEntriesLoseLess(entries, cut);
      }
    case Other =>
    case _ => CutScalar(data, offset, v, cut);
  }

  lemma BeyondData(data: seq<byte>, offset: nat, bs: seq<byte>, cut: nat)
    requires CutAt(data, offset, bs, cut)
    ensures offset + |bs| > |data| && cut > 0
  {
  }

  lemma {:induction false} UnpackCutList(data: seq<byte>, offset: nat, items: seq<Value>, cut: nat)
    requires forall i :: 0 <= i < |items| ==> WellFormed(items[i])
    requires Pack(List(items)).Some? && CutAt(data, offset, Pack(List(items)).value, cut)
    ensures Unpack(data, offset).Ok? <==> ScalarKeysIn(items) && SurvivesItems(items, cut)
    ensures Unpack(data, offset).Ok? ==> Unpack(data, offset).value.1 == offset + |Pack(List(items)).value|
    decreases items, 2
  {
    hide Unpack;
    hide Field;
    hide CutAt;
    var body := PackItems(items).value;
    CutHead(data, offset, 6, |items|, body, cut);
    if cut <= |body| {
      UnpackHeaded(data, offset, |items|);
      UnpackCutItems(data, offset + 5, items, cut);
    } else if SurvivesItems(items, cut) {
      SurvivingItemsLoseLess(items, cut);
    }
  }

  lemma {:induction false} UnpackCutItems(data: seq<byte>, offset: nat, items: seq<Value>, cut: nat)
    requires forall i :: 0 <= i < |items| ==> WellFormed(items[i])
    requires PackItems(items).Some? && CutAt(data, offset, PackItems(items).value, cut)
    ensures UnpackItems(data, offset, |items|).Ok? <==> ScalarKeysIn(items) && SurvivesItems(items, cut)
    ensures UnpackItems(data, offset, |items|).Ok? ==>
              UnpackItems(data, offset, |items|).value.1 == offset + |PackItems(items).value|
    decreases items, 1
  {
    hide Unpack;
    BeyondData(data, offset, PackItems(items).value, cut);
    assert items != [] by { assert |PackItems(items).value| >= cut; }
    hide CutAt;
    hide At;
    var first, rest := Pack(items[0]).value, PackItems(items[1..]).value;
    if cut <= |rest| {
      CutSecond(data, offset, first, rest, cut);
      UnpackPacked(data, offset, items[0]);
      UnpackCutItems(data, offset + |first|, items[1..], cut);
    } else {
      CutFirst(data, offset, first, rest, cut);
      UnpackCut(data, offset, items[0], cut - |rest|);
      if |items| == 1 {
        assert rest == [];
      } else {
        NoStepsBeyond(data, Max(offset + |first|, |data|), |items| - 1, NoMore);
        if SurvivesItems(items[1..], cut) {
          SurvivingItemsLoseLess(items[1..], cut);
        }
      }
    }
  }

  lemma {:induction false} UnpackCutEntries(data: seq<byte>, offset: nat, entries: Entries, done: Entries, cut: nat)
    requires WellFormedEntries(entries) && AllNew(done, entries)
    requires PackEntries(entries).Some? && CutAt(data, offset, PackEntries(entries).value, cut)
    ensures UnpackEntries(data, offset, entries.Count(), done).Ok? <==>
              ScalarKeysOf(entries) && SurvivesEntries(entries, cut)
    ensures UnpackEntries(data, offset, entries.Count(), done).Ok? ==>
              UnpackEntries(data, offset, entries.Count(), done).value.1 == offset + |PackEntries(entries).value|
    decreases entries, 1
  {
    hide Unpack;
    hide SameKey;
    hide CutAt;
    hide At;
    CutLeavesSomething(data, offset, PackEntries(entries).value, cut);
    hide Pack;
    hide ReadBack;
    hide WellFormed;
    hide Hashable;
    hide ScalarKeys;
    hide Survives;
    var pair, rest := Pack(entries.key).value + Pack(entries.value).value, PackEntries(entries.next).value;
    if cut <= |rest| {
      CutSecond(data, offset, pair, rest, cut);
      CutLeavesSomething(data, offset + |pair|, rest, cut);
      if !entries.key.Tuple? && ScalarKeys(entries.value) {
        var grown := FirstPairUnpacks(data, offset, entries, done);
        UnpackCutEntries(data, offset + |pair|, entries.next, grown, cut);
      } else {
        FirstPairFails(data, offset, entries, done);
      }
    } else {
      CutFirst(data, offset, pair, rest, cut);
      LastPairCut(data, offset, entries, cut - |rest|, done);
      if entries.next.Entry? && SurvivesEntries(entries.next, cut) {
        SurvivingEntriesLoseLess(entries.next, cut);
      }
    }
  }

  /** One turn of the dictionary loop over a pair that is there in full. */
  lemma FirstPairUnpacks(data: seq<byte>, offset: nat, entries: Entries, done: Entries) returns (grown: Entries)
    requires entries.Entry? && WellFormedEntries(entries) && AllNew(done, entries)
    requires !entries.key.Tuple? && ScalarKeys(entries.value) && PackEntries(entries).Some?
    requires At(data, offset, Pack(entries.key).value + Pack(entries.value).value)
    ensures UnpackEntries(data, offset, entries.Count(), done)
            == UnpackEntries(data, offset + |Pack(entries.key).value + Pack(entries.value).value|,
                             entries.next.Count(), grown)
    ensures grown == done.Then(Entry(entries.key, ReadBack(entries.value), NoMore)) && AllNew(grown, entries.next)
  {
    hide Unpack;
    hide SameKey;
    hide At;
    hide Pack;
    hide ReadBack;
    hide WellFormed;
    hide Hashable;
    hide ScalarKeys;
    var Entry(k, x, next) := entries;
    var key, value := Pack(k).value, Pack(x).value;
    HashableHasScalarKeys(k);
    ScalarReadsBack(k);
    AtConcat(data, offset, key, value);
    UnpackPacked(data, offset, k);
    UnpackPacked(data, offset + |key|, x);
    AssignNew(done, k, ReadBack(x));
    AllNewAfter(done, k, ReadBack(x), next);
    grown := done.Then(Entry(k, ReadBack(x), NoMore));
  }

  /** A pair that is there in full is refused if its key or something in its value has a tuple for a key. */
  lemma FirstPairFails(data: seq<byte>, offset: nat, entries: Entries, done: Entries)
    requires entries.Entry? && WellFormedEntries(entries) && PackEntries(entries).Some?
    requires entries.key.Tuple? || !ScalarKeys(entries.value)
    requires At(data, offset, Pack(entries.key).value + Pack(entries.value).value)
    ensures UnpackEntries(data, offset, entries.Count(), done) == Err(Unhashable)
  {
    hide Unpack, SameKey, At, Pack, ReadBack, WellFormed, Hashable, ScalarKeys;
    var Entry(k, x, next) := entries;
    var key, value := Pack(k).value, Pack(x).value;
    HashableHasScalarKeys(k);
    ScalarReadsBack(k);
    AtConcat(data, offset, key, value);
    UnpackPacked(data, offset, k);
    UnpackPacked(data, offset + |key|, x);
  }

  lemma CutLeavesSomething(data: seq<byte>, offset: nat, bs: seq<byte>, cut: nat)
    requires CutAt(data, offset, bs, cut)
    ensures bs != []
  {
  }

  /** The data ends inside the first key/value pair of `entries`. */
  lemma {:induction false} LastPairCut(data: seq<byte>, offset: nat, entries: Entries, cut: nat, done: Entries)
    requires entries.Entry? && WellFormedEntries(entries) && PackEntries(entries).Some?
    requires CutAt(data, offset, Pack(entries.key).value + Pack(entries.value).value, cut)
    ensures UnpackEntries(data, offset, entries.Count(), done).Ok? <==>
              && !entries.key.Tuple? && ScalarKeys(entries.value)
              && entries.next.NoMore? && Survives(entries.value, cut)
    ensures UnpackEntries(data, offset, entries.Count(), done).Ok? ==>
              UnpackEntries(data, offset, entries.Count(), done).value.1
              == offset + |Pack(entries.key).value + Pack(entries.value).value|
    decreases entries, 0
  {
    hide Unpack;
    hide CutAt;
    hide At;
    hide Assign;
    hide Pack;
    hide ReadBack;
    hide WellFormed;
    hide Hashable;
    hide ScalarKeys;
    hide Survives;
    var Entry(k, x, next) := entries;
    var key, value := Pack(k).value, Pack(x).value;
    HashableHasScalarKeys(k);
    ScalarReadsBack(k);
    if cut <= |value| {
      CutSecond(data, offset, key, value, cut);
      UnpackPacked(data, offset, k);
      UnpackCut(data, offset + |key|, x, cut);
      var got := Unpack(data, offset + |key|);
      if got.Ok? {
        NoStepsBeyond(data, got.value.1, next.Count(), Assign(done, ReadBack(k), got.value.0));
      }
    } else {
      CutFirst(data, offset, key, value, cut);
      UnpackCut(data, offset, k, cut - |value|);
      NoStepsBeyond(data, Max(offset + |key|, |data|), 0, NoMore);
      if Survives(x, cut) {
        SurvivorsLoseLessThanAll(x, cut);
      }
    }
  }

  /** A truncated text or byte string at the very end is accepted, short: b"ab" loses its last byte. */
  lemma TruncatedBytesAreAccepted()
    ensures var bs := Pack(Blob([97, 98])).value;
            Unpack(bs[..|bs| - 1], 0) == Ok((Blob([97]), |bs|))
  {
    var v := Blob([97, 98]);
    var bs := Pack(v).value;
    var data := bs[..|bs| - 1];
    assert data[0..] == data && CutAt(data, 0, bs, 1);
    CutHead(data, 0, 5, 2, [97, 98], 1);
    UnpackHeaded(data, 0, 2);
    assert data[5..] == [97] && |data| == 6;
    assert Slice(data, 5, 7) == data[5..];
  }

  // ---------------------------------------------------------------- the loops

  lemma JoinedNothing(b: Option<seq<byte>>)
    ensures Joined(Some([]), b) == b
  {
    if b.Some? {
      assert [] + b.value == b.value;
    }
  }

  lemma ResumedFromNothing(rest: Result<(seq<Value>, nat), Error>)
    ensures Resumed([], rest) == rest
  {
    if rest.Ok? {
      assert [] + rest.value.0 == rest.value.0;
    }
  }

  lemma JoinedThrice(a: seq<byte>, b: seq<byte>, c: seq<byte>, rest: Option<seq<byte>>)
    ensures Joined(Some(a), Joined(Joined(Some(b), Some(c)), rest)) == Joined(Some(a + b + c), rest)
  {
    if rest.Some? {
      assert a + (b + c + rest.value) == a + b + c + rest.value;
    }
  }

  lemma PackItemsNext(items: seq<Value>, i: nat)
    requires i < |items|
    ensures PackItems(items[i..]) == Joined(Pack(items[i]), PackItems(items[i + 1..]))
  {
    assert items[i..][1..] == items[i + 1..];
  }

  method PackAll(items: seq<Value>) returns (r: Option<seq<byte>>)
    ensures r == PackItems(items)
    decreases items, 1
  {
    hide Pack;
    var parts: seq<byte> := [];
    assert items[0..] == items;
    JoinedNothing(PackItems(items));
    for i := 0 to |items|
      invariant PackItems(items) == Joined(Some(parts), PackItems(items[i..]))
    {
      PackItemsNext(items, i);
      var part := PackValue(items[i]);
      if part.None? {
        return None;
      }
      if PackItems(items[i + 1..]).Some? {
        assert parts + (part.value + PackItems(items[i + 1..]).value)
               == parts + part.value + PackItems(items[i + 1..]).value;
      }
      parts := parts + part.value;
    }
    assert parts + [] == parts;
    return Some(parts);
  }

  method PackPairs(entries: Entries) returns (r: Option<seq<byte>>)
    ensures r == PackEntries(entries)
    decreases entries, 1
  {
    hide Pack;
    var parts: seq<byte> := [];
    var rest := entries;
    JoinedNothing(PackEntries(entries));
    while rest.Entry?
      invariant PackEntries(entries) == Joined(Some(parts), PackEntries(rest))
      invariant rest == entries || rest < entries
      decreases rest
    {
      var key := PackValue(rest.key);
      if key.None? {
        return None;
      }
      var value := PackValue(rest.value);
      if value.None? {
        return None;
      }
      JoinedThrice(parts, key.value, value.value, PackEntries(rest.next));
      parts := parts + key.value + value.value;
      rest := rest.next;
    }
    assert parts + [] == parts;
    return Some(parts);
  }

  /** The packer as written: a type switch, with loops over list items and dictionary entries. */
  method PackValue(v: Value) returns (r: Option<seq<byte>>)
    ensures r == Pack(v)
    decreases v, 0
  {
    match v {
      case Null => return Some([0]);
      case Flag(b) => return Some([1, if b then 1 else 0]);
      case Int(n) =>
        if !FitsSigned(n, TWO_64) { return None; }
        return Some([2] + BigEndian(ToUnsigned(n, TWO_64), 8));
      case Float(bits) => return Some([3] + bits);
      case Text(utf8) =>
        if |utf8| >= TWO_32 { return None; }
        return Some([4] + BigEndian(|utf8|, 4) + utf8);
      case Blob(raw) =>
        if |raw| >= TWO_32 { return None; }
        return Some([5] + BigEndian(|raw|, 4) + raw);
      case List(items) =>
        if |items| >= TWO_32 { return None; }
        var body := PackAll(items);
        if body.None? { return None; }
        return Some([6] + BigEndian(|items|, 4) + body.value);
      case Tuple(items) =>
        if |items| >= TWO_32 { return None; }
        var body := PackAll(items);
        if body.None? { return None; }
        return Some([6] + BigEndian(|items|, 4) + body.value);
      case Dict(entries) =>
        if entries.Count() >= TWO_32 { return None; }
        var body := PackPairs(entries);
        if body.None? { return None; }
        return Some([7] + BigEndian(entries.Count(), 4) + body.value);
      case Other => return None;
    }
  }

  /** Items read so far, followed by what the rest of the loop reads. */
  function Resumed(items: seq<Value>, rest: Result<(seq<Value>, nat), Error>): Result<(seq<Value>, nat), Error> {
    if rest.Ok? then Ok((items + rest.value.0, rest.value.1)) else rest
  }

  /** Each of the three methods also counts the tags that it reads. */
  method UnpackAll(data: seq<byte>, offset: nat, count: nat)
    returns (r: Result<(seq<Value>, nat), Error>, ghost steps: nat)
    ensures r == UnpackItems(data, offset, count) && steps == StepsOfItems(data, offset, count)
    decreases Left(data, offset), 1
  {
    hide Unpack, Steps;
    steps := 0;
    var items: seq<Value> := [];
    var at := offset;
    ResumedFromNothing(UnpackItems(data, offset, count));
    for i := 0 to count
      invariant at >= offset
      invariant UnpackItems(data, offset, count) == Resumed(items, UnpackItems(data, at, count - i))
      invariant StepsOfItems(data, offset, count) == steps + StepsOfItems(data, at, count - i)
    {
      var item, taken := UnpackValue(data, at);
      steps := steps + taken;
      if item.Err? {
        return Err(item.error), steps;
      }
      ghost var rest := UnpackItems(data, item.value.1, count - i - 1);
      if rest.Ok? {
        assert items + ([item.value.0] + rest.value.0) == items + [item.value.0] + rest.value.0;
      }
      items, at := items + [item.value.0], item.value.1;
    }
    assert items + [] == items;
    return Ok((items, at)), steps;
  }

  method UnpackPairs(data: seq<byte>, offset: nat, count: nat)
    returns (r: Result<(Entries, nat), Error>, ghost steps: nat)
    ensures r == UnpackEntries(data, offset, count, NoMore) && steps == StepsOfEntries(data, offset, count)
    decreases Left(data, offset), 1
  {
    hide Unpack, Steps, Assign, Hashable;
    steps := 0;
    var result := NoMore;
    var at := offset;
    for i := 0 to count
      invariant at >= offset
      invariant UnpackEntries(data, offset, count, NoMore) == UnpackEntries(data, at, count - i, result)
      invariant StepsOfEntries(data, offset, count) == steps + StepsOfEntries(data, at, count - i)
    {
      var key, taken := UnpackValue(data, at);
      steps := steps + taken;
      if key.Err? {
        return Err(key.error), steps;
      }
      var value, more := UnpackValue(data, key.value.1);
      steps := steps + more;
      if value.Err? {
        return Err(value.error), steps;
      }
      if !Hashable(key.value.0) {
        return Err(Unhashable), steps;
      }
      result, at := Assign(result, key.value.0, value.value.0), value.value.1;
    }
    return Ok((result, at)), steps;
  }

  /** The unpacker as written: a tag switch that threads the offset through its loops. */
  method UnpackValue(data: seq<byte>, offset: nat) returns (r: Result<(Value, nat), Error>, ghost steps: nat)
    ensures r == Unpack(data, offset) && steps == Steps(data, offset)
    decreases Left(data, offset), 0
  {
    hide FromBigEndian;
    hide ValidUtf8;
    steps := 0;
    if offset >= |data| {
      return Err(OutOfData), steps;
    }
    steps := 1;
    var tag, at := data[offset], offset + 1;
    if tag == 0 {
      return Ok((Null, at)), steps;
    } else if tag == 1 {
      if at >= |data| { return Err(OutOfData), steps; }
      return Ok((Flag(data[at] != 0), at + 1)), steps;
    } else if tag == 2 {
      var field := Field(data, at, 8);
      if field.None? { return Err(OutOfData), steps; }
      return Ok((Int(ToSigned(field.value, TWO_64)), at + 8)), steps;
    } else if tag == 3 {
      if at + 8 > |data| { return Err(OutOfData), steps; }
      return Ok((Float(data[at..at + 8]), at + 8)), steps;
    } else if tag > 7 {
      return Err(UnknownTag), steps;
    }
    var length := Field(data, at, 4);
    if length.None? {
      return Err(OutOfData), steps;
    }
    at := at + 4;
    if tag == 4 {
      var text := Slice(data, at, at + length.value);
      if !ValidUtf8(text) { return Err(BadText), steps; }
      return Ok((Text(text), at + length.value)), steps;
    } else if tag == 5 {
      return Ok((Blob(Slice(data, at, at + length.value)), at + length.value)), steps;
    } else if tag == 6 {
      var items, taken := UnpackAll(data, at, length.value);
      steps := steps + taken;
      if items.Err? { return Err(items.error), steps; }
      return Ok((List(items.value.0), items.value.1)), steps;
    } else {
      var entries, taken := UnpackPairs(data, at, length.value);
      steps := steps + taken;
      if entries.Err? { return Err(entries.error), steps; }
      return Ok((Dict(entries.value.0), entries.value.1)), steps;
    }
  }
}
