/** KvServer/op_coder.h: the length-prefixed binary codec for log commands. */
module OpCodec {
  import opened Bytes

  type Int32 = x: int | -0x8000_0000 <= x < 0x8000_0000

  datatype Op = Op(operation: Bytes, key: Bytes, value: Bytes, clientId: Bytes, requestId: Int32)

  const WORD := 0x1_0000_0000

  /** The decoder refuses a longer field. */
  const LIMIT := 0x4000_0000

  // ---------------------------------------------------------------- numbers

  const MINUS: byte := 45
  const PLUS: byte := 43

  predicate IsDigit(b: byte) { 48 <= b <= 57 }

  /** isspace in the C locale. */
  predicate IsSpace(b: byte) { b == 32 || 9 <= b <= 13 }

  function Digits(n: nat): (r: Bytes)
    ensures |r| > 0
  {
    if n < 10 then [(48 + n) as byte] else Digits(n / 10) + [(48 + n % 10) as byte]
  }

  /** std::to_string */
  function ToString(n: int): Bytes {
    if n < 0 then [MINUS] + Digits(-n) else Digits(n)
  }

  /** The value of a string of digits. */
  function Value(s: Bytes): int
    requires forall k :: 0 <= k < |s| ==> IsDigit(s[k])
    decreases |s|
  {
    if |s| == 0 then 0 else 10 * Value(s[..|s| - 1]) + s[|s| - 1] as int - 48
  }

  function DigitRun(s: Bytes): (k: nat)
    ensures k <= |s|
    ensures forall j :: 0 <= j < k ==> IsDigit(s[j])
    ensures k < |s| ==> !IsDigit(s[k])
  {
    if |s| == 0 || !IsDigit(s[0]) then 0 else 1 + DigitRun(s[1..])
  }

  function SkipSpace(s: Bytes): Bytes {
    if |s| > 0 && IsSpace(s[0]) then SkipSpace(s[1..]) else s
  }

  /** std::stoi, with -1 for the exceptions it throws (no digits, or out of range). What follows
      the digits is ignored. */
  function Stoi(s: Bytes): Int32 {
    var t := SkipSpace(s);
    var negative := |t| > 0 && t[0] == MINUS;
    StoiDigits(negative, if negative || (|t| > 0 && t[0] == PLUS) then t[1..] else t)
  }

  function StoiDigits(negative: bool, u: Bytes): Int32 {
    var k := DigitRun(u);
    if k == 0 then -1
    else
      var v := if negative then -Value(u[..k]) else Value(u[..k]);
      if -0x8000_0000 <= v < 0x8000_0000 then v else -1
  }

  lemma {:induction false} DigitsRoundTrip(n: nat)
    ensures forall k :: 0 <= k < |Digits(n)| ==> IsDigit(Digits(n)[k])
    ensures Value(Digits(n)) == n
  {
    if n >= 10 {
      DigitsRoundTrip(n / 10);
      var d := Digits(n);
      assert d[..|d| - 1] == Digits(n / 10);
    }
  }

  lemma {:induction false} WholeRun(s: Bytes)
    requires forall k :: 0 <= k < |s| ==> IsDigit(s[k])
    ensures DigitRun(s) == |s|
  {
    if |s| > 0 {
      WholeRun(s[1..]);
    }
  }

  lemma StoiOfToString(n: Int32)
    ensures Stoi(ToString(n)) == n
  {
    var m: nat := if n < 0 then -(n as int) else n;
    var d := Digits(m);
    DigitsRoundTrip(m);
    WholeRun(d);
    assert d[..|d|] == d;
    var s := ToString(n);
    assert SkipSpace(s) == s;
    if n < 0 {
      assert s[1..] == d;
    }
  }

  // ---------------------------------------------------------------- fields

  /** write_field: the length is cut to 32 bits, and so is what is written. */
  function Field(s: Bytes): Bytes {
    var len := |s| % WORD;
    ToLittleEndian(len, 4) + s[..len]
  }

  function Encode(op: Op): Bytes {
    Field(op.operation) + Field(op.key) + Field(op.value) + Field(op.clientId) + Field(ToString(op.requestId))
  }

  /** The result of read_field: does it succeed, what has it put into *out, what is left. */
  datatype Read = Read(ok: bool, out: Bytes, rest: Bytes)

  /** read_field into an empty string. A field cut short is filled up with zero bytes, yet the
      read fails. */
  function ReadField(data: Bytes): (r: Read)
    ensures |r.out| <= LIMIT
    ensures |r.rest| <= |data|
  {
    if |data| < 4 then Read(false, [], [])
    else
      var len := FromLittleEndian(data[..4]);
      var rest := data[4..];
      if len > LIMIT then Read(false, [], rest)
      else if len > |rest| then Read(false, rest + Zeros(len - |rest|), [])
      else Read(true, rest[..len], rest[len..])
  }

  /** decodeOp. Op has no default for RequestId: `unset` is what its memory held before. */
  function Decode(data: Bytes, unset: Int32): Op {
    var a := ReadField(data);
    if !a.ok then Op(a.out, [], [], [], unset)
    else
      var b := ReadField(a.rest);
      if !b.ok then Op(a.out, b.out, [], [], unset)
      else
        var c := ReadField(b.rest);
        if !c.ok then Op(a.out, b.out, c.out, [], unset)
        else
          var d := ReadField(c.rest);
          if !d.ok then Op(a.out, b.out, c.out, d.out, unset)
          else
            var e := ReadField(d.rest);
            Op(a.out, b.out, c.out, d.out, if e.ok then Stoi(e.out) else unset)
  }

  lemma Halves(a: Bytes, b: Bytes)
    ensures (a + b)[..|a|] == a && (a + b)[|a|..] == b
  {
  }

  lemma FieldRoundTrip(s: Bytes, rest: Bytes)
    requires |s| <= LIMIT
    ensures ReadField(Field(s) + rest) == Read(true, s, rest)
  {
    FourBytes();
    LittleEndianRoundTrip(|s|, 4);
    var len := ToLittleEndian(|s|, 4);
    assert Field(s) == len + s;
    hide ToLittleEndian, FromLittleEndian, Pow256, Field;
    assert len + s + rest == len + (s + rest);
    Halves(len, s + rest);
    Halves(s, rest);
  }

  lemma ToStringIsShort(n: Int32)
    ensures |ToString(n)| <= 11
  {
    var m: nat := if n < 0 then -(n as int) else n;
    DigitsLength(m, 10);
  }

  lemma {:induction false} DigitsLength(n: nat, k: nat)
    requires k > 0 && n < Power10(k)
    ensures |Digits(n)| <= k
  {
    if n >= 10 {
      assert k > 1;
      assert n / 10 < Power10(k - 1);
      DigitsLength(n / 10, k - 1);
    }
  }

  function Power10(k: nat): nat {
    if k == 0 then 1 else 10 * Power10(k - 1)
  }

  predicate Fits(op: Op) {
    |op.operation| <= LIMIT && |op.key| <= LIMIT && |op.value| <= LIMIT && |op.clientId| <= LIMIT
  }

  /** decodeOp inverts encodeOp exactly on the operations whose fields have at most 2^30 bytes:
      arbitrary bytes, empty fields and every 32-bit request id included. */
  lemma RoundTripExactly(op: Op, unset: Int32)
    ensures Decode(Encode(op), unset) == op <==> Fits(op)
  {
    if Fits(op) {
      RoundTrip(op, unset);
    }
  }

  lemma RoundTrip(op: Op, unset: Int32)
    requires Fits(op)
    ensures Decode(Encode(op), unset) == op
  {
    var e := Field(ToString(op.requestId));
    var d := Field(op.clientId) + e;
    var c := Field(op.value) + d;
    var b := Field(op.key) + c;
    assert Encode(op) == Field(op.operation) + b;
    FieldRoundTrip(op.operation, b);
    FieldRoundTrip(op.key, c);
    FieldRoundTrip(op.value, d);
    FieldRoundTrip(op.clientId, e);
    ToStringIsShort(op.requestId);
    FieldRoundTrip(ToString(op.requestId), []);
    assert e + [] == e;
    StoiOfToString(op.requestId);
  }

  /** What write_field keeps of a field. */
  function CutField(s: Bytes): Bytes {
    s[..|s| % WORD]
  }

  function Cut(op: Op): Op {
    Op(CutField(op.operation), CutField(op.key), CutField(op.value), CutField(op.clientId), op.requestId)
  }

  lemma Regroup(a: Bytes, b: Bytes, c: Bytes)
    ensures a + b + c == a + (b + c)
  {
  }

  /** A field starts with its length, and goes on with what is kept of it. */
  lemma FieldParts(s: Bytes, x: Bytes)
    ensures (Field(s) + x)[..4] == ToLittleEndian(|s| % WORD, 4) && (Field(s) + x)[4..] == CutField(s) + x
  {
    var len, body := ToLittleEndian(|s| % WORD, 4), CutField(s);
    assert Field(s) == len + body;
    hide ToLittleEndian, Field, CutField;
    Regroup(len, body, x);
    Halves(len, body + x);
  }

  lemma LengthsSame(m: nat, n: nat)
    requires m < WORD && n < WORD && ToLittleEndian(m, 4) == ToLittleEndian(n, 4)
    ensures m == n
  {
    FourBytes();
    LittleEndianRoundTrip(m, 4);
    LittleEndianRoundTrip(n, 4);
  }

  lemma PartsSame(a: Bytes, x: Bytes, b: Bytes, y: Bytes)
    requires |a| == |b| && a + x == b + y
    ensures a == b && x == y
  {
    Halves(a, x);
    Halves(b, y);
  }

  /** The length prefix makes fields prefix-free. */
  lemma FieldsSeparate(s: Bytes, t: Bytes, x: Bytes, y: Bytes)
    requires Field(s) + x == Field(t) + y
    ensures CutField(s) == CutField(t) && x == y
  {
    FieldParts(s, x);
    FieldParts(t, y);
    hide Field, ToLittleEndian;
    LengthsSame(|s| % WORD, |t| % WORD);
    PartsSame(CutField(s), x, CutField(t), y);
  }

  /** Two operations have the same encoding exactly if they are the same once every field is cut to
      its length modulo 2^32. */
  lemma EncodeSameExactly(a: Op, b: Op)
    ensures Encode(a) == Encode(b) <==> Cut(a) == Cut(b)
  {
    hide Field, CutField;
    if Encode(a) == Encode(b) {
      EncodedSame(a, b);
    }
    if Cut(a) == Cut(b) {
      FieldOfCut(a.operation, b.operation);
      FieldOfCut(a.key, b.key);
      FieldOfCut(a.value, b.value);
      FieldOfCut(a.clientId, b.clientId);
    }
  }

  lemma FieldOfCut(s: Bytes, t: Bytes)
    requires CutField(s) == CutField(t)
    ensures Field(s) == Field(t)
  {
    assert |s| % WORD == |CutField(s)| == |CutField(t)| == |t| % WORD;
  }

  /** The fields of an encoding after the first, the second, and so on. */
  function Tail1(op: Op): Bytes { Field(op.key) + Tail2(op) }
  function Tail2(op: Op): Bytes { Field(op.value) + Tail3(op) }
  function Tail3(op: Op): Bytes { Field(op.clientId) + Field(ToString(op.requestId)) }

  lemma FirstField(op: Op)
    ensures Encode(op) == Field(op.operation) + Tail1(op)
  {
  }

  lemma IdsSame(m: Int32, n: Int32)
    requires Field(ToString(m)) == Field(ToString(n))
    ensures m == n
  {
    var s, t := ToString(m), ToString(n);
    assert Field(s) + [] == Field(t) + [];
    FieldsSeparate(s, t, [], []);
    ToStringIsShort(m);
    ToStringIsShort(n);
    CutShort(s);
    CutShort(t);
    StoiOfToString(m);
    StoiOfToString(n);
  }

  lemma CutShort(s: Bytes)
    requires |s| < WORD
    ensures CutField(s) == s
  {
  }

  lemma EncodedSame(a: Op, b: Op)
    requires Encode(a) == Encode(b)
    ensures Cut(a) == Cut(b)
  {
    FirstField(a);
    FirstField(b);
    hide Field, CutField, Encode, ToString;
    FieldsSeparate(a.operation, b.operation, Tail1(a), Tail1(b));
    FieldsSeparate(a.key, b.key, Tail2(a), Tail2(b));
    FieldsSeparate(a.value, b.value, Tail3(a), Tail3(b));
    FieldsSeparate(a.clientId, b.clientId, Field(ToString(a.requestId)), Field(ToString(b.requestId)));
    IdsSame(a.requestId, b.requestId);
  }

  /** The fields whose length 32 bits can hold. */
  predicate Representable(op: Op) {
    |op.operation| < WORD && |op.key| < WORD && |op.value| < WORD && |op.clientId| < WORD
  }

  /** Different operations with fields below 2^32 bytes have different encodings. */
  lemma EncodeInjective(a: Op, b: Op)
    requires Representable(a) && Representable(b) && Encode(a) == Encode(b)
    ensures a == b
  {
    hide Encode, Cut;
    EncodeSameExactly(a, b);
    ShortOpUncut(a);
    ShortOpUncut(b);
  }

  lemma ShortOpUncut(op: Op)
    requires Representable(op)
    ensures Cut(op) == op
  {
    CutShort(op.operation);
    CutShort(op.key);
    CutShort(op.value);
    CutShort(op.clientId);
  }

  /** From 2^32 bytes on they need not: such a field is written as an empty one. */
  lemma LongFieldsCollide(op: Op, long: Bytes)
    requires |long| == WORD && op.value == []
    ensures Encode(op.(value := long)) == Encode(op) && op.(value := long) != op
  {
    assert CutField(long) == CutField(op.value);
    hide Encode, CutField;
    EncodeSameExactly(op.(value := long), op);
  }

  // ---------------------------------------------------------------- other input

  /** A field is read exactly if the data starts with the encoding of one of at most 2^30 bytes; then
      it is that one, and what follows is left. */
  lemma ReadsExactly(data: Bytes)
    ensures ReadField(data).ok <==> exists s, rest :: |s| <= LIMIT && data == Field(s) + rest
    ensures ReadField(data).ok ==> data == Field(ReadField(data).out) + ReadField(data).rest
  {
    var r := ReadField(data);
    if r.ok {
      FourBytes();
      LittleEndianOfBytes(data[..4]);
      assert data == data[..4] + (r.out + r.rest);
      assert Field(r.out) == data[..4] + r.out;
      assert data == Field(r.out) + r.rest;
    }
    forall s, rest | |s| <= LIMIT && data == Field(s) + rest ensures r.ok {
      FieldRoundTrip(s, rest);
    }
  }

  lemma {:induction false} LittleEndianOfBytes(b: Bytes)
    ensures ToLittleEndian(FromLittleEndian(b), |b|) == b
  {
    if |b| > 0 {
      LittleEndianOfBytes(b[1..]);
      var rest := FromLittleEndian(b[1..]);
      assert (b[0] as nat + 256 * rest) % 256 == b[0] as nat && (b[0] as nat + 256 * rest) / 256 == rest;
      assert b == [b[0]] + b[1..];
    }
  }

  /** What is left of a field of which c bytes of the encoding are there: nothing if its length is
      incomplete; otherwise the bytes there are, filled up with zeros. */
  function Shown(s: Bytes, c: int): Bytes {
    if c < 4 then [] else if c - 4 >= |s| then s else s[..c - 4] + Zeros(|s| - (c - 4))
  }

  /** The first c bytes, for any c. */
  function Take(b: Bytes, c: int): Bytes {
    if c <= 0 then [] else if c >= |b| then b else b[..c]
  }

  lemma ReadCut(s: Bytes, rest: Bytes, c: int)
    requires |s| <= LIMIT
    ensures ReadField(Take(Field(s) + rest, c)) == Read(c >= 4 + |s|, Shown(s, c), Take(rest, c - 4 - |s|))
  {
    var len := ToLittleEndian(|s|, 4);
    assert Field(s) == len + s;
    hide Field, ReadField, ToLittleEndian;
    if c >= 4 + |s| {
      assert Take(len + s + rest, c) == len + s + Take(rest, c - 4 - |s|);
      hide Take;
      FieldRoundTrip(s, Take(rest, c - 4 - |s|));
    } else {
      assert Take(rest, c - 4 - |s|) == [];
      if c >= 4 {
        assert Take(len + s + rest, c) == len + s[..c - 4];
        hide Take;
        ReadInside(s, s[..c - 4]);
      } else {
        TooShort(Take(len + s + rest, c));
      }
    }
  }

  lemma ReadInside(s: Bytes, b: Bytes)
    requires |b| < |s| <= LIMIT
    ensures ReadField(ToLittleEndian(|s|, 4) + b) == Read(false, b + Zeros(|s| - |b|), [])
  {
    FourBytes();
    LittleEndianRoundTrip(|s|, 4);
    hide ToLittleEndian, FromLittleEndian, Pow256;
    Halves(ToLittleEndian(|s|, 4), b);
  }

  lemma TooShort(data: Bytes)
    ensures |data| < 4 ==> ReadField(data) == Read(false, [], [])
  {
    hide FromLittleEndian;
  }

  /** Five reads in a row, if a read that fails leaves nothing. */
  lemma FiveReads(data: Bytes, unset: Int32)
    ensures
      var a := ReadField(data);
      var b := ReadField(a.rest);
      var c := ReadField(b.rest);
      var d := ReadField(c.rest);
      var e := ReadField(d.rest);
      (!a.ok ==> a.rest == []) && (!b.ok ==> b.rest == []) && (!c.ok ==> c.rest == []) && (!d.ok ==> d.rest == []) ==>
        Decode(data, unset) == Op(a.out, b.out, c.out, d.out, if e.ok then Stoi(e.out) else unset)
  {
    assert ReadField([]) == Read(false, [], []);
    hide ReadField;
  }

  /** decodeOp of an encoding cut off after c bytes: the fields that are complete, what there is of the
      one that is cut, filled up with zeros, nothing of the others, and no request id. */
  lemma DecodeCut(op: Op, c: nat, unset: Int32)
    requires Fits(op) && c < |Encode(op)|
    ensures
      var c1 := c - 4 - |op.operation|;
      var c2 := c1 - 4 - |op.key|;
      var c3 := c2 - 4 - |op.value|;
      Decode(Encode(op)[..c], unset)
      == Op(Shown(op.operation, c), Shown(op.key, c1), Shown(op.value, c2), Shown(op.clientId, c3), unset)
  {
    var c1 := c - 4 - |op.operation|;
    var c2 := c1 - 4 - |op.key|;
    var c3 := c2 - 4 - |op.value|;
    var c4 := c3 - 4 - |op.clientId|;
    var id := ToString(op.requestId);
    CutTails(op, c);
    hide ReadField, Encode, Shown, Field, ToString, Decode, Take, Tail1, Tail2, Tail3;
    ReadCut(op.operation, Tail1(op), c);
    ReadCut(op.key, Tail2(op), c1);
    ReadCut(op.value, Tail3(op), c2);
    ReadCut(op.clientId, Field(id) + [], c3);
    ReadCut(id, [], c4);
    TakeNothing(Tail1(op), c1);
    TakeNothing(Tail2(op), c2);
    TakeNothing(Tail3(op), c3);
    TakeNothing(Field(id) + [], c4);
    FiveReads(Encode(op)[..c], unset);
  }

  /** Where the fields of an encoding stand, and that c bytes do not reach the end. */
  lemma CutTails(op: Op, c: nat)
    requires Fits(op) && c < |Encode(op)|
    ensures Encode(op)[..c] == Take(Field(op.operation) + Tail1(op), c)
    ensures Tail1(op) == Field(op.key) + Tail2(op) && Tail2(op) == Field(op.value) + Tail3(op)
    ensures Tail3(op) == Field(op.clientId) + (Field(ToString(op.requestId)) + [])
    ensures
      var id := ToString(op.requestId);
      |id| <= LIMIT && c - 16 - |op.operation| - |op.key| - |op.value| - |op.clientId| < 4 + |id|
  {
    var e := Field(ToString(op.requestId));
    assert e + [] == e;
    FieldLengths(op);
    FirstField(op);
    hide Field, ToString;
  }

  lemma TakeNothing(b: Bytes, c: int)
    ensures c <= 0 ==> Take(b, c) == []
  {
  }

  lemma FieldLengths(op: Op)
    requires Fits(op)
    ensures |ToString(op.requestId)| <= LIMIT
    ensures |Field(op.operation)| == 4 + |op.operation| && |Field(op.key)| == 4 + |op.key|
    ensures |Field(op.value)| == 4 + |op.value| && |Field(op.clientId)| == 4 + |op.clientId|
    ensures |Field(ToString(op.requestId))| == 4 + |ToString(op.requestId)|
  {
    ToStringIsShort(op.requestId);
    hide Field, ToString;
    FieldLength(op.operation);
    FieldLength(op.key);
    FieldLength(op.value);
    FieldLength(op.clientId);
    FieldLength(ToString(op.requestId));
  }

  lemma FieldLength(s: Bytes)
    requires |s| <= LIMIT
    ensures |Field(s)| == 4 + |s|
  {
  }

  /** A field that claims more than 2^30 bytes ends the decoding. */
  lemma OverlongStops(op: Op, claimed: nat, rest: Bytes, unset: Int32)
    requires Fits(op) && LIMIT < claimed < WORD
    ensures Decode(Field(op.operation) + (ToLittleEndian(claimed, 4) + rest), unset)
            == Op(op.operation, [], [], [], unset)
  {
    var data := ToLittleEndian(claimed, 4) + rest;
    FourBytes();
    LittleEndianRoundTrip(claimed, 4);
    FieldRoundTrip(op.operation, data);
    Halves(ToLittleEndian(claimed, 4), rest);
  }

  /** stoi skips white space, takes a sign, reads the digits there are and ignores the rest. */
  lemma StoiReads(space: Bytes, sign: Bytes, digits: Bytes, rest: Bytes)
    requires forall k :: 0 <= k < |space| ==> IsSpace(space[k])
    requires sign == [] || sign == [PLUS] || sign == [MINUS]
    requires |digits| > 0 && forall k :: 0 <= k < |digits| ==> IsDigit(digits[k])
    requires |rest| > 0 ==> !IsDigit(rest[0])
    ensures
      var v := if sign == [MINUS] then -Value(digits) else Value(digits);
      Stoi(space + (sign + (digits + rest))) == if -0x8000_0000 <= v < 0x8000_0000 then v else -1
  {
    StoiSkips(space, sign + (digits + rest));
    StoiSigned(sign, digits, rest);
    hide Stoi, Value;
  }

  lemma StoiSkips(space: Bytes, rest: Bytes)
    requires forall k :: 0 <= k < |space| ==> IsSpace(space[k])
    requires |rest| > 0 ==> !IsSpace(rest[0])
    ensures Stoi(space + rest) == Stoi(rest)
  {
    SkipsSpace(space, rest);
    SkipsSpace([], rest);
    assert [] + rest == rest;
    hide SkipSpace, DigitRun, Value;
  }

  lemma StoiSigned(sign: Bytes, digits: Bytes, rest: Bytes)
    requires sign == [] || sign == [PLUS] || sign == [MINUS]
    requires |digits| > 0 && forall k :: 0 <= k < |digits| ==> IsDigit(digits[k])
    requires |rest| > 0 ==> !IsDigit(rest[0])
    ensures
      var v := if sign == [MINUS] then -Value(digits) else Value(digits);
      Stoi(sign + (digits + rest)) == if -0x8000_0000 <= v < 0x8000_0000 then v else -1
  {
    assert |digits + rest| > 0 && (digits + rest)[0] == digits[0];
    SignTaken(sign, digits + rest);
    RunEnds(digits, rest);
    assert (digits + rest)[..|digits|] == digits;
    hide Stoi, DigitRun, Value;
  }

  lemma SignTaken(sign: Bytes, u: Bytes)
    requires sign == [] || sign == [PLUS] || sign == [MINUS]
    requires |u| > 0 && sign == [] ==> !IsSpace(u[0]) && u[0] != PLUS && u[0] != MINUS
    ensures Stoi(sign + u) == StoiDigits(sign == [MINUS], u)
  {
    hide StoiDigits;
    if sign == [] {
      assert sign + u == u;
    } else {
      assert (sign + u)[1..] == u;
    }
  }

  /** And fails, so that the request id becomes -1, if there are none. */
  lemma StoiFails(space: Bytes, sign: Bytes, rest: Bytes)
    requires forall k :: 0 <= k < |space| ==> IsSpace(space[k])
    requires sign == [] || sign == [PLUS] || sign == [MINUS]
    requires |rest| > 0 ==> !IsDigit(rest[0])
    requires |rest| > 0 && sign == [] ==> !IsSpace(rest[0]) && rest[0] != PLUS && rest[0] != MINUS
    ensures Stoi(space + (sign + rest)) == -1
  {
    if |sign + rest| > 0 {
      assert !IsSpace((sign + rest)[0]);
    }
    StoiSkips(space, sign + rest);
    SignTaken(sign, rest);
    hide Stoi;
  }

  lemma {:induction false} SkipsSpace(space: Bytes, rest: Bytes)
    requires forall k :: 0 <= k < |space| ==> IsSpace(space[k])
    requires |rest| > 0 ==> !IsSpace(rest[0])
    ensures SkipSpace(space + rest) == rest
  {
    if |space| > 0 {
      assert (space + rest)[1..] == space[1..] + rest;
      SkipsSpace(space[1..], rest);
    } else {
      assert space + rest == rest;
    }
  }

  lemma {:induction false} RunEnds(digits: Bytes, rest: Bytes)
    requires forall k :: 0 <= k < |digits| ==> IsDigit(digits[k])
    requires |rest| > 0 ==> !IsDigit(rest[0])
    ensures DigitRun(digits + rest) == |digits|
  {
    if |digits| > 0 {
      assert (digits + rest)[1..] == digits[1..] + rest;
      RunEnds(digits[1..], rest);
    } else {
      assert digits + rest == rest;
    }
  }

  // ---------------------------------------------------------------- the streams

  /** std::ostringstream */
  class Writer {
    var data: Bytes

    constructor ()
      ensures data == []
    {
      data := [];
    }

    method WriteField(s: Bytes)
      modifies this
      ensures data == old(data) + Field(s)
    {
      var len := |s| % WORD;
      data := data + ToLittleEndian(len, 4);
      data := data + s[..len];
    }
  }

  method EncodeOp(op: Op) returns (data: Bytes)
    ensures data == Encode(op)
  {
    hide Field, ToString;
    var oss := new Writer();
    oss.WriteField(op.operation);
    oss.WriteField(op.key);
    oss.WriteField(op.value);
    oss.WriteField(op.clientId);
    oss.WriteField(ToString(op.requestId));
    data := oss.data;
  }

  /** std::istringstream: the data and a cursor. */
  class Reader {
    const data: Bytes
    var pos: nat

    predicate Valid()
      reads this
    {
      pos <= |data|
    }

    function Rest(): Bytes
      requires Valid()
      reads this
    {
      data[pos..]
    }

    constructor (data: Bytes)
      ensures Valid() && this.data == data && Rest() == data
    {
      this.data := data;
      pos := 0;
    }

    method ReadFieldInto() returns (ok: bool, out: Bytes)
      requires Valid()
      modifies this
      ensures Valid() && Read(ok, out, Rest()) == ReadField(old(Rest()))
    {
      ok, out := false, [];
      if |data| - pos < 4 {
        pos := |data|;
        return;
      }
      ghost var start := data[pos..];
      assert data[pos..pos + 4] == start[..4];
      var len := FromLittleEndian(data[pos..pos + 4]);
      pos := pos + 4;
      assert data[pos..] == start[4..];
      if len > LIMIT {
        return;
      }
      if len > |data| - pos {
        out := data[pos..] + Zeros(len - (|data| - pos));
        pos := |data|;
        return;
      }
      out := data[pos..pos + len];
      assert out == start[4..][..len];
      pos := pos + len;
      ok := true;
    }
  }

  method DecodeOp(data: Bytes, unset: Int32) returns (op: Op)
    ensures op == Decode(data, unset)
  {
    op := Op([], [], [], [], unset);
    var iss := new Reader(data);
    var ok, field := iss.ReadFieldInto();
    op := op.(operation := field);
    if !ok {
      return;
    }
    ok, field := iss.ReadFieldInto();
    op := op.(key := field);
    if !ok {
      return;
    }
    ok, field := iss.ReadFieldInto();
    op := op.(value := field);
    if !ok {
      return;
    }
    ok, field := iss.ReadFieldInto();
    op := op.(clientId := field);
    if !ok {
      return;
    }
    ok, field := iss.ReadFieldInto();
    if ok {
      op := op.(requestId := Stoi(field));
    }
  }
}
