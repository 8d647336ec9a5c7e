/** The wire format shared by the generated codecs model/span.pb.go, model/trace.pb.go and
    model/trace_payload.pb.go, which each carry a private copy of these routines.

    Protocol Buffers Encoding, sections "Base 128 Varints" and "Message Structure". Integers are unbounded
    here, so every truncation the generated code relies on is written out. */
module Wire {
  import opened Division

  type Byte = b: int | 0 <= b < 256
  type U64 = x: int | 0 <= x < 0x1_0000_0000_0000_0000
  type I64 = x: int | -0x8000_0000_0000_0000 <= x < 0x8000_0000_0000_0000
  type I32 = x: int | -0x8000_0000 <= x < 0x8000_0000

  /** A string or byte slice. */
  type Bytes = seq<Byte>

  datatype Error =
    | IntOverflow | UnexpectedEOF | InvalidLength | WrongWireType | EndGroup | IllegalTag | IllegalWireType
    | SliceOutOfRange  // the run-time panic of an index that wrapped around

  datatype Result<+T> = Ok(value: T) | Err(error: Error) {
    predicate IsFailure() { Err? }
    function PropagateFailure<U>(): Result<U> requires Err? { Err(error) }
    function Extract(): T requires Ok? { value }
  }

  // ---------------------------------------------------------------- integer conversions

  function ToU64(x: int): U64 {
    x % 0x1_0000_0000_0000_0000
  }

  function ToI64(x: int): I64 {
    (x + 0x8000_0000_0000_0000) % 0x1_0000_0000_0000_0000 - 0x8000_0000_0000_0000
  }

  function ToI32(x: int): I32 {
    (x + 0x8000_0000) % 0x1_0000_0000 - 0x8000_0000
  }

  /** Sign extension to 64 bits and truncation back lose nothing. */
  lemma SignedRoundTrip(x: I64)
    ensures ToI64(ToU64(x)) == x
    ensures -0x8000_0000 <= x < 0x8000_0000 ==> ToI32(ToU64(x)) == x
  {
    Unsigned(x);
    hide ToU64;
    if -0x8000_0000 <= x < 0x8000_0000 {
      Truncated(x);
    }
  }

  lemma Unsigned(x: I64)
    ensures ToU64(x) == if x >= 0 then x else x + 0x1_0000_0000_0000_0000
  {
  }

  lemma Truncated(x: I32)
    ensures ToI32(ToU64(x)) == x
  {
    Unsigned(x);
    hide ToU64;
  }

  // ---------------------------------------------------------------- varints

  function EncodeVarint(v: nat): (r: Bytes)
    ensures r != []
  {
    if v < 128 then [v] else [v % 128 + 128] + EncodeVarint(v / 128)
  }

  function SizeVarint(v: nat): nat {
    if v < 128 then 1 else 1 + SizeVarint(v / 128)
  }

  /** A varint is the number in groups of seven bits, the lowest first, each but the last marked by its eighth bit, and
      without groups of zeros at the end. */
  lemma {:induction false} VarintGroups(v: nat, k: nat)
    ensures var b := EncodeVarint(v);
            && (k < |b| ==> b[k] == v / Scale(k) % 128 + if k < |b| - 1 then 0x80 else 0)
            && v < Scale(|b|) && (|b| > 1 ==> v >= Scale(|b| - 1))
  {
    if v >= 128 {
      var rest := EncodeVarint(v / 128);
      VarintGroups(v / 128, if k > 0 then k - 1 else 0);
      if 0 < k < |rest| + 1 {
        QuotientTwice(v, 128, Scale(k - 1));
      }
      Grouped(v, Scale(|rest|));
      Grouped(v, Scale(|rest| - 1));
    } else {
      assert Scale(0) == 1;
    }
  }

  lemma Grouped(v: nat, p: nat)
    ensures v / 128 < p ==> v < 128 * p
    ensures v / 128 >= p ==> v >= 128 * p
  {
  }

  lemma QuotientTwice(v: nat, a: nat, b: nat)
    requires a > 0 && b > 0
    ensures a * b > 0 && v / a / b == v / (a * b)
  {
    var q, r := v / a, v % a;
    var q', r' := q / b, q % b;
    assert v == a * q + r;
    assert q == b * q' + r';
    Distribute(a, b, q', r');
    SmallRest(a, b, r', r);
    Quotient(v, a * b, q', a * r' + r);
  }

  lemma Distribute(a: nat, b: nat, q: nat, r: nat)
    ensures a * (b * q + r) == (a * b) * q + a * r
  {
  }

  lemma SmallRest(a: nat, b: nat, r': nat, r: nat)
    requires r' < b && r < a
    ensures 0 <= a * r' + r < a * b
  {
    assert a * r' <= a * (b - 1) == a * b - a;
  }

  /** The announced size of a varint is its encoded length. */
  lemma {:induction false} VarintSize(v: nat)
    ensures |EncodeVarint(v)| == SizeVarint(v)
  {
    if v >= 128 {
      VarintSize(v / 128);
    }
  }

  function Scale(k: nat): (p: nat)
    ensures p > 0
  {
    if k == 0 then 1 else 128 * Scale(k - 1)
  }

  /** The decoding loop after `k` bytes; `shift` is 7 * k, so the tenth byte is the last one allowed. */
  function DecodeVarint(data: Bytes, i: nat, k: nat, acc: U64): (r: Result<(U64, nat)>)
    ensures r.Ok? ==> i < r.value.1 <= |data|
    decreases |data| - i
  {
    if 7 * k >= 64 then Err(IntOverflow)
    else if i >= |data| then Err(UnexpectedEOF)
    else
      var b := data[i];
      var acc' := (acc + b % 128 * Scale(k)) % 0x1_0000_0000_0000_0000;
      if b < 128 then Ok((acc', i + 1)) else DecodeVarint(data, i + 1, k + 1, acc')
  }

  function ReadVarint(data: Bytes, i: nat): (r: Result<(U64, nat)>)
    ensures r.Ok? ==> i < r.value.1 <= |data|
  {
    DecodeVarint(data, i, 0, 0)
  }

  /** The number that groups of seven bits stand for, the lowest first. */
  function GroupsValue(s: Bytes): nat {
    if s == [] then 0 else GroupsValue(s[..|s| - 1]) + s[|s| - 1] % 128 * Scale(|s| - 1)
  }

  lemma ModSum(x: nat, y: nat)
    ensures (x % 0x1_0000_0000_0000_0000 + y) % 0x1_0000_0000_0000_0000 == (x + y) % 0x1_0000_0000_0000_0000
  {
  }

  /** A varint of up to ten bytes is read up to the first byte without its eighth bit, whatever the groups are; what does
      not fit in 64 bits is lost. */
  lemma VarintMeans(data: Bytes, i: nat, n: nat)
    requires n <= 9 && i + n < |data| && data[i + n] < 128 && forall t :: i <= t < i + n ==> data[t] >= 128
    ensures ReadVarint(data, i) == Ok((GroupsValue(data[i..i + n + 1]) % 0x1_0000_0000_0000_0000, i + n + 1))
  {
    assert data[i..i] == [];
    GroupsRead(data, i, n, 0);
  }

  lemma {:induction false} GroupsRead(data: Bytes, i: nat, n: nat, j: nat)
    requires j <= n <= 9 && i + n < |data| && data[i + n] < 128 && forall t :: i <= t < i + n ==> data[t] >= 128
    ensures DecodeVarint(data, i + j, j, GroupsValue(data[i..i + j]) % 0x1_0000_0000_0000_0000) ==
            Ok((GroupsValue(data[i..i + n + 1]) % 0x1_0000_0000_0000_0000, i + n + 1))
    decreases n - j
  {
    hide Scale, GroupsValue;
    NextGroup(data, i, j);
    if j < n {
      GroupsRead(data, i, n, j + 1);
    }
  }

  lemma NextGroup(data: Bytes, i: nat, j: nat)
    requires i + j < |data|
    ensures (GroupsValue(data[i..i + j]) % 0x1_0000_0000_0000_0000 + data[i + j] % 128 * Scale(j)) % 0x1_0000_0000_0000_0000 ==
            GroupsValue(data[i..i + j + 1]) % 0x1_0000_0000_0000_0000
  {
    hide Scale, GroupsValue;
    var b := data[i + j];
    assert data[i..i + j + 1] == data[i..i + j] + [b];
    GroupsAppend(data[i..i + j], b);
    var g, x: nat := GroupsValue(data[i..i + j]), b % 128 * Scale(j);
    ModSum(g, x);
  }

  lemma GroupsAppend(s: Bytes, b: Byte)
    ensures GroupsValue(s + [b]) == GroupsValue(s) + b % 128 * Scale(|s|)
  {
    hide Scale;
    assert (s + [b])[..|s|] == s;
  }

  /** Without such a byte among the first ten a varint is refused: it is too long, or the data ends. */
  lemma VarintRefused(data: Bytes, i: nat)
    requires forall t :: i <= t < i + 10 && t < |data| ==> data[t] >= 128
    ensures ReadVarint(data, i) == Err(if i + 10 <= |data| then IntOverflow else UnexpectedEOF)
  {
    RefusedFrom(data, i, 0, 0);
  }

  lemma {:induction false} RefusedFrom(data: Bytes, i: nat, k: nat, acc: U64)
    requires k <= 10 && forall t :: i <= t < i + (10 - k) && t < |data| ==> data[t] >= 128
    ensures DecodeVarint(data, i, k, acc) == Err(if i + (10 - k) <= |data| then IntOverflow else UnexpectedEOF)
            || (k == 10 && DecodeVarint(data, i, k, acc) == Err(IntOverflow))
    decreases 10 - k
  {
    hide Scale;
    if k < 10 && i < |data| {
      RefusedFrom(data, i + 1, k + 1, (acc + data[i] % 128 * Scale(k)) % 0x1_0000_0000_0000_0000);
    }
  }

  /** The bytes `s` stand in `data` at `i`. */
  predicate At(data: Bytes, i: nat, s: Bytes) {
    i + |s| <= |data| && data[i..i + |s|] == s
  }

  lemma AtEnd(data: Bytes, i: nat, s: Bytes)
    requires At(data, i, s)
    ensures i + |s| <= |data|
  {
  }

  lemma AtSplit(data: Bytes, i: nat, a: Bytes, b: Bytes)
    ensures At(data, i, a + b) <==> At(data, i, a) && At(data, i + |a|, b)
  {
    if At(data, i, a + b) {
      assert data[i..i + |a|] == (a + b)[..|a|];
      assert data[i + |a|..i + |a| + |b|] == (a + b)[|a|..];
    }
    if At(data, i, a) && At(data, i + |a|, b) {
      assert data[i..i + |a + b|] == data[i..i + |a|] + data[i + |a|..i + |a| + |b|];
    }
  }

  lemma AtHead(data: Bytes, i: nat, s: Bytes)
    requires s != [] && At(data, i, s)
    ensures i < |data| && data[i] == s[0] && At(data, i + 1, s[1..])
  {
    assert s == [s[0]] + s[1..];
    AtSplit(data, i, [s[0]], s[1..]);
    assert data[i..i + 1][0] == data[i];
  }

  lemma {:induction false} ScaleGrows(k: nat)
    ensures Scale(k) >= 1 && (k >= 10 ==> Scale(k) >= 0x40_0000_0000_0000_0000)
  {
    if k == 10 {
      assert Scale(10) == 128 * (128 * (128 * (128 * (128 * (128 * (128 * (128 * (128 * (128 * Scale(0))))))))));
    } else if k > 0 {
      ScaleGrows(k - 1);
    }
  }

  /** The low seven bits of `v` and the rest, in place. */
  lemma DivMod(v: nat, s: nat)
    ensures v * s == v % 128 * s + v / 128 * (128 * s)
    ensures 0 <= v % 128 * s <= v * s
  {
    var q, r := v / 128, v % 128;
    assert v * s == (r + q * 128) * s == r * s + q * 128 * s;
    assert q * 128 * s == q * (128 * s);
    assert q * (128 * s) >= 0 && r * s >= 0;
  }

  lemma ScaleBound(v: nat, k: nat, acc: nat)
    requires v >= 128 && acc + v * Scale(k) < 0x1_0000_0000_0000_0000
    ensures 7 * (k + 1) < 64
  {
    ScaleGrows(k + 1);
    assert v * Scale(k) >= 128 * Scale(k);
  }

  /** One round of the decoding loop. */
  lemma VarintStep(data: Bytes, i: nat, k: nat, acc: U64, v: nat)
    requires At(data, i, EncodeVarint(v)) && 7 * k < 64
    requires acc + v * Scale(k) < 0x1_0000_0000_0000_0000
    ensures var acc' := acc + v % 128 * Scale(k);
            && 0 <= acc' < 0x1_0000_0000_0000_0000
            && DecodeVarint(data, i, k, acc) ==
                 if v < 128 then Ok((acc', i + 1)) else DecodeVarint(data, i + 1, k + 1, acc')
  {
    AtHead(data, i, EncodeVarint(v));
    DivMod(v, Scale(k));
    hide Scale, At;
    var b := data[i];
    assert b % 128 == v % 128;
    assert b < 128 <==> v < 128;
  }

  /** Decoding an encoded number gives the number back and stops right behind it. */
  lemma {:induction false} VarintDecodes(data: Bytes, i: nat, k: nat, acc: U64, v: nat)
    requires At(data, i, EncodeVarint(v)) && 7 * k < 64
    requires acc + v * Scale(k) < 0x1_0000_0000_0000_0000
    ensures DecodeVarint(data, i, k, acc) == Ok((acc + v * Scale(k), i + |EncodeVarint(v)|))
    decreases v
  {
    VarintStep(data, i, k, acc, v);
    DivMod(v, Scale(k));
    if v >= 128 {
      AtHead(data, i, EncodeVarint(v));
      assert EncodeVarint(v)[1..] == EncodeVarint(v / 128);
      ScaleBound(v, k, acc);
      hide At, DecodeVarint;
      VarintDecodes(data, i + 1, k + 1, acc + v % 128 * Scale(k), v / 128);
    }
  }

  lemma VarintRoundTrip(data: Bytes, i: nat, v: U64)
    requires At(data, i, EncodeVarint(v))
    ensures ReadVarint(data, i) == Ok((v, i + |EncodeVarint(v)|))
  {
    VarintDecodes(data, i, 0, 0, v);
  }

  // ---------------------------------------------------------------- length-delimited and fixed fields

  /** A length prefix and that many bytes. */
  function ReadBytes(data: Bytes, i: nat): (r: Result<(Bytes, nat)>)
    ensures r.Ok? ==> i < r.value.1 <= |data| && |r.value.0| < r.value.1
  {
    var (length, i1) :- ReadVarint(data, i);
    if ToI64(length) < 0 then Err(InvalidLength)
    else if i1 + length >= 0x8000_0000_0000_0000 then Err(SliceOutOfRange)
    else if i1 + length > |data| then Err(UnexpectedEOF)
    else Ok((data[i1..i1 + length], i1 + length))
  }

  /** The length of a Go slice is an int. */
  predicate Fits(data: Bytes) {
    |data| < 0x8000_0000_0000_0000
  }

  function Prefixed(s: Bytes): Bytes {
    EncodeVarint(|s|) + s
  }

  lemma BytesRoundTrip(data: Bytes, i: nat, s: Bytes)
    requires Fits(data) && At(data, i, Prefixed(s))
    ensures ReadBytes(data, i) == Ok((s, i + |Prefixed(s)|))
  {
    AtSplit(data, i, EncodeVarint(|s|), s);
    VarintRoundTrip(data, i, |s|);
  }

  /** `n` bytes of `v`, the least significant first. */
  function LittleEndian(v: nat, n: nat): (r: Bytes)
    ensures |r| == n
  {
    if n == 0 then [] else [v % 256] + LittleEndian(v / 256, n - 1)
  }

  function FromLittleEndian(s: Bytes): nat {
    if s == [] then 0 else s[0] + 256 * FromLittleEndian(s[1..])
  }

  function Power256(n: nat): (p: nat)
    ensures p > 0
  {
    if n == 0 then 1 else 256 * Power256(n - 1)
  }

  /** The lowest byte comes first. */
  lemma {:induction false} LittleEndianByte(v: nat, n: nat, i: nat)
    requires i < n
    ensures LittleEndian(v, n)[i] == v / Power256(i) % 256
  {
    if i > 0 {
      LittleEndianByte(v / 256, n - 1, i - 1);
      QuotientTwice(v, 256, Power256(i - 1));
    }
  }

  lemma {:induction false} LittleEndianRoundTrip(v: nat, n: nat)
    requires v < Power256(n)
    ensures FromLittleEndian(LittleEndian(v, n)) == v
  {
    if n > 0 {
      LittleEndianRoundTrip(v / 256, n - 1);
      assert LittleEndian(v, n)[1..] == LittleEndian(v / 256, n - 1);
    }
  }

  lemma {:induction false} FromLittleEndianBound(s: Bytes)
    ensures FromLittleEndian(s) < Power256(|s|)
  {
    if s != [] {
      FromLittleEndianBound(s[1..]);
    }
  }

  lemma Power256Of8()
    ensures Power256(8) == 0x1_0000_0000_0000_0000
  {
  }

  function ReadFixed64(data: Bytes, i: nat): (r: Result<(U64, nat)>)
    ensures r.Ok? ==> r.value.1 == i + 8 <= |data|
  {
    if i + 8 > |data| then Err(UnexpectedEOF)
    else
      FromLittleEndianBound(data[i..i + 8]);
      Power256Of8();
      Ok((FromLittleEndian(data[i..i + 8]), i + 8))
  }

  lemma Fixed64RoundTrip(data: Bytes, i: nat, v: U64)
    requires At(data, i, LittleEndian(v, 8))
    ensures ReadFixed64(data, i) == Ok((v, i + 8))
  {
    hide LittleEndian, FromLittleEndian;
    Power256Of8();
    LittleEndianRoundTrip(v, 8);
  }

  // ---------------------------------------------------------------- tags and unknown fields

  /** A field's tag: field number, wire type, and where its value begins. */
  function ReadTag(data: Bytes, i: nat): (r: Result<(I32, nat, nat)>)
    ensures r.Ok? ==> r.value.0 >= 1 && i < r.value.2 <= |data|
  {
    var (wire, i1) :- ReadVarint(data, i);
    if wire % 8 == 4 then Err(EndGroup)
    else if ToI32(wire / 8) <= 0 then Err(IllegalTag)
    else Ok((ToI32(wire / 8), wire % 8, i1))
  }

  /** A tag is eight times the field number and the wire type; the end of a group and field numbers that are not positive
      as 32-bit integers are refused. */
  lemma TagTable(data: Bytes, i: nat, v: U64)
    requires At(data, i, EncodeVarint(v))
    ensures var low := v / 8 % 0x1_0000_0000;
            ReadTag(data, i) ==
            if v % 8 == 4 then Err(EndGroup)
            else if low == 0 || low >= 0x8000_0000 then Err(IllegalTag)
            else Ok((low, v % 8, i + |EncodeVarint(v)|))
  {
    hide EncodeVarint, ReadVarint, At, ToI32;
    VarintRoundTrip(data, i, v);
    TagNumber(v / 8);
  }

  lemma TagNumber(w: U64)
    ensures var low := w % 0x1_0000_0000;
            if low == 0 || low >= 0x8000_0000 then ToI32(w) <= 0 else ToI32(w) == low
  {
  }

  /** A length of 2^63 or more is refused, and so is one that passes the end of the data. */
  lemma BytesTable(data: Bytes, i: nat, v: U64)
    requires At(data, i, EncodeVarint(v))
    ensures var at := i + |EncodeVarint(v)|;
            && (v >= 0x8000_0000_0000_0000 ==> ReadBytes(data, i) == Err(InvalidLength))
            && (at + v < 0x8000_0000_0000_0000 && at + v > |data| ==> ReadBytes(data, i) == Err(UnexpectedEOF))
            && (at + v < 0x8000_0000_0000_0000 && at + v <= |data| ==>
                  ReadBytes(data, i) == Ok((data[at..at + v], at + v)))
  {
    hide EncodeVarint, ReadVarint, At;
    VarintRoundTrip(data, i, v);
  }

  /** A tag byte as the generated code writes it. */
  lemma TagRoundTrip(data: Bytes, i: nat, tag: Byte)
    requires 8 <= tag < 128 && tag % 8 != 4 && At(data, i, [tag])
    ensures ReadTag(data, i) == Ok((tag / 8, tag % 8, i + 1))
  {
    VarintRoundTrip(data, i, tag);
  }

  /** skipSpan: how many bytes the unknown field at the start of `d` takes. The result may lie beyond the
      end of `d`, or have wrapped around below zero; it is never zero, since `d` is shorter than 2^63. */
  function Skip(d: Bytes): (r: Result<int>)
    decreases |d|, |d| + 1
  {
    var (wire, i) :- ReadVarint(d, 0);
    match wire % 8
    case 0 =>
      var (_, j) :- ReadVarint(d, i);
      Ok(j)
    case 1 => Ok(i + 8)
    case 2 =>
      var (length, j) :- ReadVarint(d, i);
      if ToI64(length) < 0 then Err(InvalidLength)
      else Ok(if j + length >= 0x8000_0000_0000_0000 then j + length - 0x1_0000_0000_0000_0000 else j + length)
    case 3 => SkipGroup(d, i)
    case 4 => Ok(i)
    case 5 => Ok(i + 4)
    case _ => Err(IllegalWireType)
  }

  /** The fields of a group, up to its end tag. */
  function SkipGroup(d: Bytes, i: nat): (r: Result<int>)
    requires i > 0
    decreases |d|, if i <= |d| then |d| - i else 0
  {
    var (inner, j) :- ReadVarint(d, i);
    if inner % 8 == 4 then Ok(j)
    else
      var next :- Skip(d[i..]);
      if next <= 0 then Err(SliceOutOfRange)
      else if i + next > |d| then Err(UnexpectedEOF)
      else SkipGroup(d, i + next)
  }

  /** The default branch of every decoding loop. */
  function SkipField(data: Bytes, i: nat): (r: Result<nat>)
    requires i <= |data|
    ensures r.Ok? ==> i < r.value <= |data|
  {
    var n :- Skip(data[i..]);
    if n <= 0 then Err(InvalidLength)
    else if i + n > |data| then Err(UnexpectedEOF)
    else Ok(i + n)
  }

  // ---------------------------------------------------------------- lengths that wrap around

  /** The length at `i`, added to the index where it ends, is no int any more: the sum wraps around below zero. */
  predicate Overlong(data: Bytes, i: nat) {
    var v := ReadVarint(data, i);
    v.Ok? && ToI64(v.value.0) >= 0 && v.value.1 + v.value.0 >= 0x8000_0000_0000_0000
  }

  lemma {:induction false} VarintErrors(data: Bytes, i: nat, k: nat, acc: U64)
    ensures DecodeVarint(data, i, k, acc).Err? ==> DecodeVarint(data, i, k, acc).error in {IntOverflow, UnexpectedEOF}
    decreases |data| - i
  {
    if 7 * k < 64 && i < |data| && data[i] >= 128 {
      VarintErrors(data, i + 1, k + 1, (acc + data[i] % 128 * Scale(k)) % 0x1_0000_0000_0000_0000);
    }
  }

  /** Reading bytes slices out of range if and only if their length is overlong. */
  lemma BytesPanic(data: Bytes, i: nat)
    ensures ReadBytes(data, i) == Err(SliceOutOfRange) <==> Overlong(data, i)
  {
    VarintErrors(data, i, 0, 0);
    hide DecodeVarint;
  }

  /** A length-delimited field whose length is overlong. */
  predicate Wraps(d: Bytes) {
    var v := ReadVarint(d, 0);
    v.Ok? && v.value.0 % 8 == 2 && Overlong(d, v.value.1)
  }

  /** A group with such a field, at any depth, that skipping comes to. */
  predicate OverlongGroup(d: Bytes)
    decreases |d|, |d| + 1
  {
    var v := ReadVarint(d, 0);
    v.Ok? && v.value.0 % 8 == 3 && OverlongInside(d, v.value.1)
  }

  predicate OverlongInside(d: Bytes, i: nat)
    requires i > 0
    decreases |d|, if i <= |d| then |d| - i else 0
  {
    var v := ReadVarint(d, i);
    v.Ok? && v.value.0 % 8 != 4 &&
    (|| Wraps(d[i..]) || OverlongGroup(d[i..])
     || (var next := Skip(d[i..]);
         next.Ok? && 0 < next.value && i + next.value <= |d| && OverlongInside(d, i + next.value)))
  }

  /** Skipping a field slices out of range if and only if it is such a group, and its end wraps around if and only if
      its length is overlong. */
  lemma {:induction false} SkipPanics(d: Bytes)
    requires Fits(d)
    ensures Skip(d) == Err(SliceOutOfRange) <==> OverlongGroup(d)
    ensures Skip(d).Ok? ==> (Skip(d).value <= 0 <==> Wraps(d))
    ensures Wraps(d) ==> Skip(d).Ok?
    decreases |d|, |d| + 1
  {
    VarintErrors(d, 0, 0, 0);
    var v := ReadVarint(d, 0);
    if v.Ok? {
      VarintErrors(d, v.value.1, 0, 0);
      if v.value.0 % 8 == 3 {
        SkipGroupPanics(d, v.value.1);
      }
    }
    hide DecodeVarint, SkipGroup, OverlongInside;
  }

  lemma {:induction false} SkipGroupPanics(d: Bytes, i: nat)
    requires i > 0 && Fits(d)
    ensures SkipGroup(d, i) == Err(SliceOutOfRange) <==> OverlongInside(d, i)
    ensures SkipGroup(d, i).Ok? ==> SkipGroup(d, i).value > 0
    decreases |d|, if i <= |d| then |d| - i else 0
  {
    VarintErrors(d, i, 0, 0);
    hide DecodeVarint, Skip, Wraps, OverlongGroup;
    var v := ReadVarint(d, i);
    if v.Ok? && v.value.0 % 8 != 4 {
      SkipPanics(d[i..]);
      var next := Skip(d[i..]);
      if next.Ok? && 0 < next.value && i + next.value <= |d| {
        SkipGroupPanics(d, i + next.value);
      }
    }
  }

  // ---------------------------------------------------------------- skipping and reading agree

  /** Reading a varint does not look at what stands before it. */
  lemma {:induction false} VarintShift(data: Bytes, i: nat, j: nat, k: nat, acc: U64)
    requires i <= |data|
    ensures DecodeVarint(data, i + j, k, acc) ==
            match DecodeVarint(data[i..], j, k, acc)
            case Ok(p) => Ok((p.0, i + p.1))
            case Err(e) => Err(e)
    decreases |data| - i - j
  {
    if 7 * k < 64 && i + j < |data| {
      var b := data[i + j];
      assert data[i..][j] == b;
      if b >= 128 {
        VarintShift(data, i, j + 1, k + 1, (acc + b % 128 * Scale(k)) % 0x1_0000_0000_0000_0000);
      }
    }
  }

  /** The number of bytes skipped for an unknown field is what its wire type says it takes. */
  lemma SkipMeans(data: Bytes, i: nat, n: I32, wireType: nat, i1: nat)
    requires i <= |data| && Fits(data) && ReadTag(data, i) == Ok((n, wireType, i1))
    ensures wireType == 0 && ReadVarint(data, i1).Ok? ==> SkipField(data, i) == Ok(ReadVarint(data, i1).value.1)
    ensures wireType == 2 && ReadBytes(data, i1).Ok? ==> SkipField(data, i) == Ok(ReadBytes(data, i1).value.1)
    ensures wireType == 1 && i1 + 8 <= |data| ==> SkipField(data, i) == Ok(i1 + 8)
    ensures wireType == 5 && i1 + 4 <= |data| ==> SkipField(data, i) == Ok(i1 + 4)
  {
    hide ReadVarint, SkipGroup;
    ReadVarintShift(data, i, 0);
    assert i + 0 == i;
    ReadVarintShift(data, i, i1 - i);
    assert i + (i1 - i) == i1;
    var d, j := data[i..], i1 - i;
    assert ReadVarint(d, 0).Ok? && ReadVarint(d, 0).value.0 % 8 == wireType && ReadVarint(d, 0).value.1 == j;
    if wireType == 0 && ReadVarint(data, i1).Ok? {
      assert Skip(d) == Ok(ReadVarint(d, j).value.1);
    } else if wireType == 2 && ReadBytes(data, i1).Ok? {
      assert Skip(d) == Ok(ReadVarint(d, j).value.1 + ReadVarint(d, j).value.0);
    } else if wireType == 1 {
      assert Skip(d) == Ok(j + 8);
    } else if wireType == 5 {
      assert Skip(d) == Ok(j + 4);
    }
    hide Skip;
  }

  lemma ReadVarintShift(data: Bytes, i: nat, j: nat)
    requires i <= |data|
    ensures ReadVarint(data, i + j) ==
            match ReadVarint(data[i..], j)
            case Ok(p) => Ok((p.0, i + p.1))
            case Err(e) => Err(e)
  {
    VarintShift(data, i, j, 0, 0);
  }

  // ---------------------------------------------------------------- the loops of the generated code

  /** sovSpan and its copies. */
  method Sov(x: nat) returns (n: nat)
    ensures n == SizeVarint(x)
  {
    n := 1;
    var y: nat := x / 128;
    while y != 0
      invariant n + (if y == 0 then 0 else SizeVarint(y)) == SizeVarint(x)
      decreases y
    {
      n := n + 1;
      y := y / 128;
    }
  }

  /** encodeVarintSpan and its copies: everything before `offset` stays, and the varint follows it. */
  method PutVarint(data: array<Byte>, offset: nat, v: nat) returns (i: nat)
    requires offset + SizeVarint(v) <= data.Length
    modifies data
    ensures i == offset + |EncodeVarint(v)| <= data.Length
    ensures data[..i] == old(data[..offset]) + EncodeVarint(v)
  {
    ghost var goal := data[..offset] + EncodeVarint(v);
    VarintSize(v);
    i := offset;
    var w := v;
    while w >= 128
      invariant offset <= i && i + |EncodeVarint(w)| == offset + |EncodeVarint(v)| <= data.Length
      invariant data[..i] + EncodeVarint(w) == goal
    {
      ghost var done := data[..i];
      data[i] := w % 128 + 128;
      w := w / 128;
      i := i + 1;
      assert data[..i] == done + [data[i - 1]];
    }
    ghost var done := data[..i];
    data[i] := w;
    i := i + 1;
    assert data[..i] == done + [w];
  }

  method PutByte(data: array<Byte>, i0: nat, b: Byte) returns (i: nat)
    requires i0 < data.Length
    modifies data
    ensures i == i0 + 1 && data[..i] == old(data[..i0]) + [b]
  {
    data[i0] := b;
    i := i0 + 1;
  }

  /** `copy(data[i:], s)` */
  method PutCopy(data: array<Byte>, i0: nat, s: Bytes) returns (i: nat)
    requires i0 + |s| <= data.Length
    modifies data
    ensures i == i0 + |s| && data[..i] == old(data[..i0]) + s
  {
    ghost var before := data[..i0];
    i := i0;
    var j := 0;
    while j < |s|
      invariant 0 <= j <= |s| && i == i0 + j
      invariant data[..i] == before + s[..j]
    {
      data[i] := s[j];
      assert data[..i + 1] == before + s[..j] + [s[j]];
      i, j := i + 1, j + 1;
    }
    assert s[..j] == s;
  }

  /** A length prefix and the bytes it announces. */
  method PutPrefixed(data: array<Byte>, i0: nat, s: Bytes) returns (i: nat)
    requires i0 + |Prefixed(s)| <= data.Length
    modifies data
    ensures i == i0 + |Prefixed(s)| && data[..i] == old(data[..i0]) + Prefixed(s)
  {
    VarintSize(|s|);
    i := PutVarint(data, i0, |s|);
    i := PutCopy(data, i, s);
  }

  lemma LowestByte(done: Bytes, w: nat, n: nat)
    ensures n > 0 ==> done + LittleEndian(w, n) == (done + [w % 256]) + LittleEndian(w / 256, n - 1)
    ensures n == 0 ==> done + LittleEndian(w, n) == done
  {
  }

  /** encodeFixed64Span and its copies. */
  method PutFixed64(data: array<Byte>, i0: nat, v: U64) returns (i: nat)
    requires i0 + 8 <= data.Length
    modifies data
    ensures i == i0 + 8 && data[..i] == old(data[..i0]) + LittleEndian(v, 8)
  {
    hide LittleEndian;
    ghost var goal := data[..i0] + LittleEndian(v, 8);
    i := i0;
    var w: nat := v;
    while i < i0 + 8
      invariant i0 <= i <= i0 + 8
      invariant data[..i] + LittleEndian(w, i0 + 8 - i) == goal
    {
      ghost var done := data[..i];
      LowestByte(done, w, i0 + 8 - i);
      data[i] := w % 256;
      w := w / 256;
      i := i + 1;
      assert data[..i] == done + [data[i - 1]];
    }
    LowestByte(data[..i], w, 0);
  }

  /** The varint loop of every decoder. */
  method GetVarint(data: Bytes, i0: nat) returns (r: Result<(U64, nat)>)
    ensures r == ReadVarint(data, i0)
  {
    var i := i0;
    var wire: U64 := 0;
    var shift := 0;
    ghost var k := 0;
    var scale: nat := 1;
    while true
      invariant i <= i0 || i <= |data|
      invariant i >= i0 && shift == 7 * k && scale == Scale(k)
      invariant DecodeVarint(data, i, k, wire) == ReadVarint(data, i0)
      decreases |data| - i
    {
      if shift >= 64 {
        return Err(IntOverflow);
      }
      if i >= |data| {
        return Err(UnexpectedEOF);
      }
      var b: int := data[i];
      i := i + 1;
      wire := (wire + b % 128 * scale) % 0x1_0000_0000_0000_0000;
      if b < 128 {
        return Ok((wire, i));
      }
      shift, k, scale := shift + 7, k + 1, 128 * scale;
    }
  }

  /** The tag at the start of every round of a decoding loop. */
  method GetTag(data: Bytes, i: nat) returns (r: Result<(I32, nat, nat)>)
    ensures r == ReadTag(data, i)
  {
    hide ReadVarint;
    var wire := GetVarint(data, i);
    if wire.Err? {
      return Err(wire.error);
    }
    var fieldNum := ToI32(wire.value.0 / 8);
    var wireType := wire.value.0 % 8;
    if wireType == 4 {
      return Err(EndGroup);
    }
    if fieldNum <= 0 {
      return Err(IllegalTag);
    }
    return Ok((fieldNum, wireType, wire.value.1));
  }

  /** A length and that many bytes. The sum of index and length is an int: it can wrap around below zero, and
      then pass the check against the length of the data. */
  method GetBytes(data: Bytes, at: nat) returns (r: Result<(Bytes, nat)>)
    ensures r == ReadBytes(data, at)
  {
    hide ReadVarint;
    var length := GetVarint(data, at);
    if length.Err? {
      return Err(length.error);
    }
    var n, i := ToI64(length.value.0), length.value.1;
    if n < 0 {
      return Err(InvalidLength);
    }
    var postIndex := i + n;
    if postIndex >= 0x8000_0000_0000_0000 {
      return Err(SliceOutOfRange);
    }
    if postIndex > |data| {
      return Err(UnexpectedEOF);
    }
    return Ok((data[i..postIndex], postIndex));
  }

  /** Eight bytes put together. */
  method GetFixed64(data: Bytes, at: nat) returns (r: Result<(U64, nat)>)
    ensures r == ReadFixed64(data, at)
  {
    if at + 8 > |data| {
      return Err(UnexpectedEOF);
    }
    var v: nat := 0;
    var k := 8;
    while k > 0
      invariant 0 <= k <= 8 && v == FromLittleEndian(data[at + k..at + 8])
    {
      assert data[at + k - 1..at + 8][1..] == data[at + k..at + 8];
      k := k - 1;
      v := data[at + k] + 256 * v;
    }
    FromLittleEndianBound(data[at..at + 8]);
    Power256Of8();
    return Ok((v, at + 8));
  }

  /** skipSpan and its copies. */
  method SkipOne(d: Bytes) returns (r: Result<int>)
    ensures r == Skip(d)
    decreases |d|
  {
    hide ReadVarint;
    var wire := GetVarint(d, 0);
    if wire.Err? {
      return Err(wire.error);
    }
    var i := wire.value.1;
    match wire.value.0 % 8
    case 0 =>
      var v := GetVarint(d, i);
      return if v.Err? then Err(v.error) else Ok(v.value.1);
    case 1 =>
      return Ok(i + 8);
    case 2 =>
      var length := GetVarint(d, i);
      if length.Err? {
        return Err(length.error);
      }
      var end := length.value.1 + length.value.0;
      if ToI64(length.value.0) < 0 {
        return Err(InvalidLength);
      }
      return Ok(if end >= 0x8000_0000_0000_0000 then end - 0x1_0000_0000_0000_0000 else end);
    case 3 =>
      r := SkipFields(d, i);
    case 4 =>
      return Ok(i);
    case 5 =>
      return Ok(i + 4);
    case _ =>
      return Err(IllegalWireType);
  }

  /** The inner loop of a group: fields are skipped up to the end tag. */
  method SkipFields(d: Bytes, i0: nat) returns (r: Result<int>)
    requires 0 < i0 <= |d|
    ensures r == SkipGroup(d, i0)
    decreases |d|, 0
  {
    hide ReadVarint, Skip;
    var i := i0;
    while true
      invariant 0 < i <= |d| && SkipGroup(d, i) == SkipGroup(d, i0)
      decreases |d| - i
    {
      var inner := GetVarint(d, i);
      if inner.Err? {
        return Err(inner.error);
      }
      if inner.value.0 % 8 == 4 {
        return Ok(inner.value.1);
      }
      var next := SkipOne(d[i..]);
      if next.Err? {
        return Err(next.error);
      }
      if next.value <= 0 {
        return Err(SliceOutOfRange);
      }
      if i + next.value > |d| {
        return Err(UnexpectedEOF);
      }
      i := i + next.value;
    }
  }

  /** The default branch of every decoding loop. */
  method GetSkip(data: Bytes, i: nat) returns (r: Result<nat>)
    requires i <= |data|
    ensures r == SkipField(data, i)
  {
    hide Skip;
    var skippy := SkipOne(data[i..]);
    if skippy.Err? {
      return Err(skippy.error);
    }
    if skippy.value <= 0 {
      return Err(InvalidLength);
    }
    if i + skippy.value > |data| {
      return Err(UnexpectedEOF);
    }
    return Ok(i + skippy.value);
  }
}
