/** The hand-written base64 encoder of `services/email_service.go`, against a strict decoder. */
module Base64 {
  import opened Wrappers

  const UPPER := "ABCDEFGHIJKLMNOPQRSTUVWXYZ"
  const LOWER := "abcdefghijklmnopqrstuvwxyz"
  const DIGITS := "0123456789"
  const TABLE := UPPER + LOWER + DIGITS + "+/"

  /** Sixty-four different characters, none of them the padding character. */
  predicate IsAlphabet(t: string) {
    && |t| == 64
    && (forall i, j :: 0 <= i < j < 64 ==> t[i] != t[j])
    && '=' !in t
  }

  /** The table entry for six bits. A group never exceeds 24 bits, so `bv24` stands for Go's `uint`. */
  function Char(t: string, x: bv24): char
    requires |t| == 64
  {
    t[Index(x)]
  }

  function Index(x: bv24): (i: int)
    ensures 0 <= i < 64
  {
    (x & 0x3F) as int
  }

  function Word(a: bv8, b: bv8, c: bv8): bv24 {
    ((a as bv24) << 16) | ((b as bv24) << 8) | (c as bv24)
  }

  function Group3(t: string, x: bv8, y: bv8, z: bv8): string
    requires |t| == 64
  {
    var w := Word(x, y, z);
    [Char(t, w >> 18), Char(t, w >> 12), Char(t, w >> 6), Char(t, w)]
  }

  function Group2(t: string, x: bv8, y: bv8): string
    requires |t| == 64
  {
    var w := Word(x, y, 0);
    [Char(t, w >> 18), Char(t, w >> 12), Char(t, w >> 6), '=']
  }

  function Group1(t: string, x: bv8): string
    requires |t| == 64
  {
    var w := Word(x, 0, 0);
    [Char(t, w >> 18), Char(t, w >> 12), '=', '=']
  }

  /** One group: the bytes that are missing count as zero, and their characters become padding. */
  function EncodeGroup(t: string, d: seq<bv8>): (q: string)
    requires |t| == 64 && 1 <= |d| <= 3
    ensures |q| == 4
  {
    if |d| == 1 then Group1(t, d[0])
    else if |d| == 2 then Group2(t, d[0], d[1])
    else Group3(t, d[0], d[1], d[2])
  }

  function Encode(t: string, data: seq<bv8>): string
    requires |t| == 64
  {
    if data == [] then ""
    else if |data| <= 3 then EncodeGroup(t, data)
    else EncodeGroup(t, data[..3]) + Encode(t, data[3..])
  }

  /** Four `WriteByte` calls. */
  method WriteFour(result: string, a: char, b: char, c: char, d: char) returns (r: string)
    ensures r == result + [a, b, c, d]
  {
    r := result + [a];
    r := r + [b];
    r := r + [c];
    r := r + [d];
  }

  method WriteThreeBytes(t: string, result: string, x: bv8, y: bv8, z: bv8) returns (r: string)
    requires |t| == 64
    ensures r == result + Group3(t, x, y, z)
  {
    var b := ((x as bv24) << 16) | ((y as bv24) << 8) | (z as bv24);
    r := WriteFour(result, Char(t, b >> 18), Char(t, b >> 12), Char(t, b >> 6), Char(t, b));
  }

  method WriteTwoBytes(t: string, result: string, x: bv8, y: bv8) returns (r: string)
    requires |t| == 64
    ensures r == result + Group2(t, x, y)
  {
    var b := ((x as bv24) << 16) | ((y as bv24) << 8);
    assert b == Word(x, y, 0);
    r := WriteFour(result, Char(t, b >> 18), Char(t, b >> 12), Char(t, b >> 6), '=');
  }

  method WriteOneByte(t: string, result: string, x: bv8) returns (r: string)
    requires |t| == 64
    ensures r == result + Group1(t, x)
  {
    var b := (x as bv24) << 16;
    assert b == Word(x, 0, 0);
    r := WriteFour(result, Char(t, b >> 18), Char(t, b >> 12), '=', '=');
  }

  /** What one turn of the loop appends. */
  function Turn(t: string, data: seq<bv8>, i: nat): string
    requires |t| == 64 && i < |data|
  {
    if i + 3 <= |data| then Group3(t, data[i], data[i + 1], data[i + 2])
    else if i + 2 <= |data| then Group2(t, data[i], data[i + 1])
    else Group1(t, data[i])
  }

  lemma EncodeFrom(t: string, data: seq<bv8>, i: nat)
    requires |t| == 64 && i < |data|
    ensures Encode(t, data[i..])
      == Turn(t, data, i) + if i + 3 <= |data| then Encode(t, data[i + 3..]) else ""
  {
    var rest := data[i..];
    if i + 3 < |data| {
      assert rest[3..] == data[i + 3..];
      assert rest[..3] == [data[i], data[i + 1], data[i + 2]];
    }
  }

  method WriteTurn(t: string, result: string, data: seq<bv8>, i: nat) returns (r: string)
    requires |t| == 64 && i < |data|
    ensures r == result + Turn(t, data, i)
  {
    if i + 3 <= |data| {
      r := WriteThreeBytes(t, result, data[i], data[i + 1], data[i + 2]);
    } else if i + 2 <= |data| {
      r := WriteTwoBytes(t, result, data[i], data[i + 1]);
    } else {
      r := WriteOneByte(t, result, data[i]);
    }
  }

  /** What is still to be written from position `i` on. */
  function Remaining(t: string, data: seq<bv8>, i: nat): string
    requires |t| == 64
  {
    if i <= |data| then Encode(t, data[i..]) else ""
  }

  lemma TurnThenRest(t: string, data: seq<bv8>, i: nat, result: string, r: string)
    requires |t| == 64 && i < |data| && r == result + Turn(t, data, i)
    ensures r + Remaining(t, data, i + 3) == result + Remaining(t, data, i)
  {
    EncodeFrom(t, data, i);
    Joined(result, Turn(t, data, i), Remaining(t, data, i + 3));
  }

  lemma Joined(a: string, b: string, c: string)
    ensures a + b + c == a + (b + c)
  {
  }

  /** One turn writes the next characters of what remains. */
  method NextTurn(t: string, result: string, data: seq<bv8>, i: nat) returns (r: string)
    requires |t| == 64 && i < |data|
    ensures r + Remaining(t, data, i + 3) == result + Remaining(t, data, i)
  {
    r := WriteTurn(t, result, data, i);
    TurnThenRest(t, data, i, result, r);
  }

  /** The source's loop, for any table. */
  method EncodeWith(t: string, data: seq<bv8>) returns (result: string)
    requires |t| == 64
    ensures result == Encode(t, data)
  {
    result := "";
    var i := 0;
    assert data[0..] == data;
    while i < |data|
      invariant 0 <= i
      invariant result + Remaining(t, data, i) == Encode(t, data)
    {
      result := NextTurn(t, result, data, i);
      i := i + 3;
    }
  }

  // The other direction, written from section 4 of RFC 4648 and not from the encoder.

  /** The six bits a character stands for. */
  ghost function Value(t: string, c: char): (r: Option<bv24>)
    requires |t| == 64
    ensures r.Some? ==> r.value < 64 && Char(t, r.value) == c
    ensures r.None? ==> forall x: bv24 :: x < 64 ==> Char(t, x) != c
  {
    if x: bv24 :| x < 64 && Char(t, x) == c then Some(x) else None
  }

  function Pack(a: bv24, b: bv24, c: bv24, d: bv24): bv24 {
    (a << 18) | (b << 12) | (c << 6) | d
  }

  function High(w: bv24): bv8 {
    (w >> 16) as bv8
  }

  function Middle(w: bv24): bv8 {
    ((w >> 8) & 0xFF) as bv8
  }

  function Low(w: bv24): bv8 {
    (w & 0xFF) as bv8
  }

  /** The bytes of four characters; padding only where `last`, and unused bits must be zero. */
  ghost function DecodeGroup(t: string, q: string, last: bool): Option<seq<bv8>>
    requires |t| == 64 && |q| == 4
  {
    match (Value(t, q[0]), Value(t, q[1]), Value(t, q[2]), Value(t, q[3]))
    case (Some(a), Some(b), Some(c), Some(d)) =>
      var w := Pack(a, b, c, d);
      Some([High(w), Middle(w), Low(w)])
    case (Some(a), Some(b), Some(c), None) =>
      var w := Pack(a, b, c, 0);
      if last && q[3] == '=' && c & 0x3 == 0 then Some([High(w), Middle(w)]) else None
    case (Some(a), Some(b), None, None) =>
      var w := Pack(a, b, 0, 0);
      if last && q[2] == '=' && q[3] == '=' && b & 0xF == 0 then Some([High(w)]) else None
    case _ => None
  }

  ghost function Decode(t: string, s: string): Option<seq<bv8>>
    requires |t| == 64
  {
    if s == "" then Some([])
    else if |s| < 4 then None
    else
      match (DecodeGroup(t, s[..4], |s| == 4), Decode(t, s[4..]))
      case (Some(head), Some(tail)) => Some(head + tail)
      case _ => None
  }

  lemma ThereAndBack(y: bv24)
    requires y < 64
    ensures Index(y) as bv24 == y
  {
    assert y & 0x3F == y;
    assert Index(y) == y as int;
    assert (y as int) as bv24 == y;
  }

  lemma ValueOfChar(t: string, x: bv24)
    requires IsAlphabet(t)
    ensures Value(t, Char(t, x)) == Some(x & 0x3F)
    ensures Char(t, x) != '='
  {
    var y := x & 0x3F;
    assert y & 0x3F == y && y < 64;
    assert Char(t, y) == Char(t, x);
    var z := Value(t, Char(t, x)).value;
    assert Index(z) == Index(y);
    ThereAndBack(y);
    ThereAndBack(z);
  }

  lemma WordOfBytes(w: bv24)
    ensures Word(High(w), Middle(w), Low(w)) == w
  {
  }

  lemma ZeroBytes(a: bv24, b: bv24, c: bv24)
    requires a < 64 && b < 64 && c < 64
    ensures c & 0x3 == 0 ==> Low(Pack(a, b, c, 0)) == 0
    ensures b & 0xF == 0 ==> Middle(Pack(a, b, 0, 0)) == 0 && Low(Pack(a, b, 0, 0)) == 0
  {
  }

  /** The four sextets of a word. */
  function Sextet(w: bv24, k: nat): bv24
    requires k < 4
  {
    if k == 0 then (w >> 18) & 0x3F
    else if k == 1 then (w >> 12) & 0x3F
    else if k == 2 then (w >> 6) & 0x3F
    else w & 0x3F
  }

  lemma CharValues(t: string, w: bv24)
    requires IsAlphabet(t)
    ensures Value(t, Char(t, w >> 18)) == Some(Sextet(w, 0))
    ensures Value(t, Char(t, w >> 12)) == Some(Sextet(w, 1))
    ensures Value(t, Char(t, w >> 6)) == Some(Sextet(w, 2))
    ensures Value(t, Char(t, w)) == Some(Sextet(w, 3))
  {
    ValueOfChar(t, w >> 18);
    ValueOfChar(t, w >> 12);
    ValueOfChar(t, w >> 6);
    ValueOfChar(t, w);
  }

  lemma SextetBits(x: bv8, y: bv8, z: bv8)
    ensures
      var w := Word(x, y, z);
      var p := Pack(Sextet(w, 0), Sextet(w, 1), Sextet(w, 2), Sextet(w, 3));
      && High(p) == x && Middle(p) == y && Low(p) == z
    ensures z == 0 ==>
      var w := Word(x, y, z);
      Sextet(w, 3) == 0 && Sextet(w, 2) & 0x3 == 0
    ensures y == 0 && z == 0 ==>
      var w := Word(x, y, z);
      Sextet(w, 2) == 0 && Sextet(w, 1) & 0xF == 0
  {
  }

  /** What four characters with these values decode to; zero stands for a padded place. */
  lemma ValuesDecode(t: string, q: string, last: bool, a: bv24, b: bv24, c: bv24, d: bv24)
    requires IsAlphabet(t) && |q| == 4
    requires Value(t, q[0]) == Some(a) && Value(t, q[1]) == Some(b)
    ensures
      var w := Pack(a, b, c, d);
      && (Value(t, q[2]) == Some(c) && Value(t, q[3]) == Some(d)
          ==> DecodeGroup(t, q, last) == Some([High(w), Middle(w), Low(w)]))
      && (Value(t, q[2]) == Some(c) && q[3] == '=' && d == 0 && last && c & 0x3 == 0
          ==> DecodeGroup(t, q, last) == Some([High(w), Middle(w)]))
      && (q[2..] == "==" && c == 0 && d == 0 && last && b & 0xF == 0
          ==> DecodeGroup(t, q, last) == Some([High(w)]))
  {
    assert Value(t, '=') == None;
    assert q[2..] == "==" ==> q[2] == q[2..][0] == '=' && q[3] == q[2..][1] == '=';
  }

  lemma Listed(d: seq<bv8>)
    ensures |d| == 3 ==> d == [d[0], d[1], d[2]]
    ensures |d| == 2 ==> d == [d[0], d[1]]
    ensures |d| == 1 ==> d == [d[0]]
  {
  }

  lemma FullRoundTrip(t: string, d: seq<bv8>, last: bool)
    requires IsAlphabet(t) && |d| == 3
    ensures DecodeGroup(t, EncodeGroup(t, d), last) == Some(d)
  {
    var w := Word(d[0], d[1], d[2]);
    CharValues(t, w);
    SextetBits(d[0], d[1], d[2]);
    ValuesDecode(t, EncodeGroup(t, d), last, Sextet(w, 0), Sextet(w, 1), Sextet(w, 2), Sextet(w, 3));
    Listed(d);
  }

  lemma TwoRoundTrip(t: string, d: seq<bv8>)
    requires IsAlphabet(t) && |d| == 2
    ensures DecodeGroup(t, EncodeGroup(t, d), true) == Some(d)
  {
    var q := EncodeGroup(t, d);
    assert q[3] == '=';
    var w := Word(d[0], d[1], 0);
    CharValues(t, w);
    SextetBits(d[0], d[1], 0);
    ValuesDecode(t, q, true, Sextet(w, 0), Sextet(w, 1), Sextet(w, 2), 0);
    Listed(d);
  }

  lemma OneRoundTrip(t: string, d: seq<bv8>)
    requires IsAlphabet(t) && |d| == 1
    ensures DecodeGroup(t, EncodeGroup(t, d), true) == Some(d)
  {
    var w := Word(d[0], 0, 0);
    CharValues(t, w);
    SextetBits(d[0], 0, 0);
    ValuesDecode(t, EncodeGroup(t, d), true, Sextet(w, 0), Sextet(w, 1), Sextet(w, 2), Sextet(w, 3));
    Listed(d);
  }

  lemma GroupRoundTrip(t: string, d: seq<bv8>, last: bool)
    requires IsAlphabet(t) && 1 <= |d| <= 3 && (|d| < 3 ==> last)
    ensures DecodeGroup(t, EncodeGroup(t, d), last) == Some(d)
  {
    if |d| == 3 {
      FullRoundTrip(t, d, last);
    } else if |d| == 2 {
      TwoRoundTrip(t, d);
    } else {
      OneRoundTrip(t, d);
    }
  }

  lemma PackedChar0(t: string, a: bv24, b: bv24, c: bv24, d: bv24)
    requires |t| == 64 && a < 64 && b < 64 && c < 64 && d < 64
    ensures var w := Pack(a, b, c, d); Char(t, w >> 18) == Char(t, a)
  {
    var w := Pack(a, b, c, d);
    assert (w >> 18) & 0x3F == a & 0x3F;
  }

  lemma PackedChar1(t: string, a: bv24, b: bv24, c: bv24, d: bv24)
    requires |t| == 64 && a < 64 && b < 64 && c < 64 && d < 64
    ensures var w := Pack(a, b, c, d); Char(t, w >> 12) == Char(t, b)
  {
    var w := Pack(a, b, c, d);
    assert (w >> 12) & 0x3F == b & 0x3F;
  }

  lemma PackedChar2(t: string, a: bv24, b: bv24, c: bv24, d: bv24)
    requires |t| == 64 && a < 64 && b < 64 && c < 64 && d < 64
    ensures var w := Pack(a, b, c, d); Char(t, w >> 6) == Char(t, c)
  {
    var w := Pack(a, b, c, d);
    assert (w >> 6) & 0x3F == c & 0x3F;
  }

  lemma PackedChar3(t: string, a: bv24, b: bv24, c: bv24, d: bv24)
    requires |t| == 64 && a < 64 && b < 64 && c < 64 && d < 64
    ensures var w := Pack(a, b, c, d); Char(t, w) == Char(t, d)
  {
    var w := Pack(a, b, c, d);
    assert w & 0x3F == d & 0x3F;
  }

  lemma FullIsCanonical(t: string, q: string, a: bv24, b: bv24, c: bv24, d: bv24)
    requires |t| == 64 && a < 64 && b < 64 && c < 64 && d < 64
    requires q == [Char(t, a), Char(t, b), Char(t, c), Char(t, d)]
    ensures var w := Pack(a, b, c, d); EncodeGroup(t, [High(w), Middle(w), Low(w)]) == q
  {
    var w := Pack(a, b, c, d);
    PackedChar0(t, a, b, c, d);
    PackedChar1(t, a, b, c, d);
    PackedChar2(t, a, b, c, d);
    PackedChar3(t, a, b, c, d);
    WordOfBytes(w);
  }

  lemma TwoIsCanonical(t: string, q: string, a: bv24, b: bv24, c: bv24)
    requires |t| == 64 && a < 64 && b < 64 && c < 64 && c & 0x3 == 0
    requires q == [Char(t, a), Char(t, b), Char(t, c), '=']
    ensures var w := Pack(a, b, c, 0); EncodeGroup(t, [High(w), Middle(w)]) == q
  {
    var w := Pack(a, b, c, 0);
    PackedChar0(t, a, b, c, 0);
    PackedChar1(t, a, b, c, 0);
    PackedChar2(t, a, b, c, 0);
    PackedChar3(t, a, b, c, 0);
    WordOfBytes(w);
    ZeroBytes(a, b, c);
  }

  lemma OneIsCanonical(t: string, q: string, a: bv24, b: bv24)
    requires |t| == 64 && a < 64 && b < 64 && b & 0xF == 0
    requires q == [Char(t, a), Char(t, b), '=', '=']
    ensures var w := Pack(a, b, 0, 0); EncodeGroup(t, [High(w)]) == q
  {
    var w := Pack(a, b, 0, 0);
    PackedChar0(t, a, b, 0, 0);
    PackedChar1(t, a, b, 0, 0);
    PackedChar2(t, a, b, 0, 0);
    PackedChar3(t, a, b, 0, 0);
    WordOfBytes(w);
    ZeroBytes(a, b, 0);
  }

  /** Four characters that decode are the encoding of what they decode to. */
  lemma GroupIsCanonical(t: string, q: string, last: bool)
    requires IsAlphabet(t) && |q| == 4 && DecodeGroup(t, q, last).Some?
    ensures
      var d := DecodeGroup(t, q, last).value;
      && 1 <= |d| <= 3 && (!last ==> |d| == 3)
      && EncodeGroup(t, d) == q
  {
    var a, b := Value(t, q[0]).value, Value(t, q[1]).value;
    match (Value(t, q[2]), Value(t, q[3]))
    case (Some(c), Some(d)) =>
      FullIsCanonical(t, q, a, b, c, d);
    case (Some(c), None) =>
      TwoIsCanonical(t, q, a, b, c);
    case (None, _) =>
      OneIsCanonical(t, q, a, b);
  }

  lemma DecodeFront(t: string, q: string, rest: string, head: seq<bv8>, tail: seq<bv8>)
    requires |t| == 64 && |q| == 4
    requires DecodeGroup(t, q, rest == "") == Some(head) && Decode(t, rest) == Some(tail)
    ensures Decode(t, q + rest) == Some(head + tail)
  {
    assert (q + rest)[..4] == q && (q + rest)[4..] == rest;
  }

  /** Decoding undoes encoding, for every byte string. */
  lemma {:induction false} DecodeOfEncode(t: string, data: seq<bv8>)
    requires IsAlphabet(t)
    ensures Decode(t, Encode(t, data)) == Some(data)
    decreases |data|
  {
    if data != [] {
      var head, tail := Halves(data);
      GroupRoundTrip(t, head, tail == []);
      DecodeOfEncode(t, tail);
      EncodeIsEmpty(t, tail);
      EncodeHalves(t, head, tail);
      DecodeFront(t, EncodeGroup(t, head), Encode(t, tail), head, tail);
    }
  }

  /** The first group and what follows it. */
  lemma Halves(data: seq<bv8>) returns (head: seq<bv8>, tail: seq<bv8>)
    requires data != []
    ensures data == head + tail && 1 <= |head| <= 3 && (|head| < 3 ==> tail == [])
  {
    head, tail := data[..if |data| <= 3 then |data| else 3], data[if |data| <= 3 then |data| else 3..];
  }

  lemma EncodeHalves(t: string, head: seq<bv8>, tail: seq<bv8>)
    requires |t| == 64 && 1 <= |head| <= 3 && (|head| < 3 ==> tail == [])
    ensures Encode(t, head + tail) == EncodeGroup(t, head) + Encode(t, tail)
  {
    if tail == [] {
      assert head + tail == head;
    } else {
      assert (head + tail)[..3] == head && (head + tail)[3..] == tail;
    }
  }

  lemma EncodeIsEmpty(t: string, data: seq<bv8>)
    requires |t| == 64
    ensures Encode(t, data) == "" <==> data == []
  {
  }

  /** What decodes is a first group that decodes, and a rest that does. */
  lemma DecodeParts(t: string, s: string) returns (q: string, rest: string, head: seq<bv8>, tail: seq<bv8>)
    requires |t| == 64 && s != "" && Decode(t, s).Some?
    ensures s == q + rest && |q| == 4 && |rest| < |s|
    ensures DecodeGroup(t, q, rest == "") == Some(head) && Decode(t, rest) == Some(tail)
    ensures Decode(t, s) == Some(head + tail) && (rest == "" ==> tail == [])
  {
    q, rest := s[..4], s[4..];
    head, tail := DecodeGroup(t, q, |s| == 4).value, Decode(t, rest).value;
  }

  /** Only the encoding of `data` decodes to `data`, so no two texts stand for the same bytes. */
  lemma {:induction false} EncodeOfDecode(t: string, s: string)
    requires IsAlphabet(t) && Decode(t, s).Some?
    ensures Encode(t, Decode(t, s).value) == s
    decreases |s|
  {
    if s != "" {
      var q, rest, head, tail := DecodeParts(t, s);
      GroupIsCanonical(t, q, rest == "");
      EncodeOfDecode(t, rest);
      EncodeHalves(t, head, tail);
    }
  }

  function Padding(n: nat): nat {
    (3 - n % 3) % 3
  }

  /** The shape section 4 of RFC 4648 requires of `n` bytes: length, alphabet and padding. */
  predicate HasShape(t: string, e: string, n: nat) {
    && |e| == 4 * ((n + 2) / 3)
    && Padding(n) <= |e|
    && (forall i :: 0 <= i < |e| - Padding(n) ==> e[i] in t)
    && (forall i :: |e| - Padding(n) <= i < |e| ==> e[i] == '=')
  }

  lemma {:induction false} EncodeShape(t: string, data: seq<bv8>)
    requires IsAlphabet(t)
    ensures HasShape(t, Encode(t, data), |data|)
    decreases |data|
  {
    if data != [] {
      var head, tail := Halves(data);
      EncodeShape(t, tail);
      EncodeHalves(t, head, tail);
      GroupShape(t, head);
      ShapeFront(t, EncodeGroup(t, head), |head|, Encode(t, tail), |tail|);
    }
  }

  lemma GroupShape(t: string, d: seq<bv8>)
    requires |t| == 64 && 1 <= |d| <= 3
    ensures HasShape(t, EncodeGroup(t, d), |d|)
  {
    if |d| == 1 {
      OneShape(t, d[0]);
    } else if |d| == 2 {
      TwoShape(t, d[0], d[1]);
    } else {
      ThreeShape(t, d[0], d[1], d[2]);
    }
  }

  lemma OneShape(t: string, x: bv8)
    requires |t| == 64
    ensures HasShape(t, Group1(t, x), 1)
  {
    var q := Group1(t, x);
    FourShape(t, q[0], q[1], q[2], q[3], 1);
  }

  lemma TwoShape(t: string, x: bv8, y: bv8)
    requires |t| == 64
    ensures HasShape(t, Group2(t, x, y), 2)
  {
    var q := Group2(t, x, y);
    FourShape(t, q[0], q[1], q[2], q[3], 2);
  }

  lemma ThreeShape(t: string, x: bv8, y: bv8, z: bv8)
    requires |t| == 64
    ensures HasShape(t, Group3(t, x, y, z), 3)
  {
    var q := Group3(t, x, y, z);
    FourShape(t, q[0], q[1], q[2], q[3], 3);
  }

  lemma FourShape(t: string, a: char, b: char, c: char, d: char, n: nat)
    requires |t| == 64 && 1 <= n <= 3
    requires a in t && b in t && (if n == 1 then c == '=' else c in t) && (if n < 3 then d == '=' else d in t)
    ensures HasShape(t, [a, b, c, d], n)
  {
  }

  lemma ShapeFront(t: string, q: string, k: nat, rest: string, n: nat)
    requires 1 <= k <= 3 && (k < 3 ==> n == 0) && HasShape(t, q, k) && HasShape(t, rest, n)
    ensures HasShape(t, q + rest, k + n)
  {
    assert k < 3 ==> q + rest == q;
  }

  /** Table 1 in section 4 of RFC 4648, as character codes. */
  function Code(i: int): int {
    if i < 26 then 'A' as int + i
    else if i < 52 then 'a' as int + i - 26
    else if i < 62 then '0' as int + i - 52
    else if i == 62 then '+' as int
    else '/' as int
  }

  lemma TableRow(i: int)
    requires 0 <= i < 64
    ensures TABLE[i] as int == Code(i)
  {
    if i < 26 {
      UpperRow(i);
      assert TABLE[i] == UPPER[i];
    } else if i < 52 {
      LowerRow(i - 26);
      assert TABLE[i] == LOWER[i - 26];
    } else if i < 62 {
      DigitRow(i - 52);
      assert TABLE[i] == DIGITS[i - 52];
    }
  }

  lemma UpperRow(i: int)
    requires 0 <= i < 26
    ensures UPPER[i] as int == 'A' as int + i
  {
  }

  lemma LowerRow(i: int)
    requires 0 <= i < 26
    ensures LOWER[i] as int == 'a' as int + i
  {
  }

  lemma DigitRow(i: int)
    requires 0 <= i < 10
    ensures DIGITS[i] as int == '0' as int + i
  {
  }

  lemma CodesMakeAnAlphabet(t: string)
    requires |t| == 64
    requires forall i :: 0 <= i < 64 ==> t[i] as int == Code(i)
    ensures IsAlphabet(t)
  {
    forall i, j | 0 <= i < j < 64 ensures t[i] != t[j] {
      assert Code(i) != Code(j);
    }
    assert forall i :: 0 <= i < 64 ==> Code(i) != '=' as int;
  }

  /** The source's table is the standard alphabet. */
  lemma TableIsStandard()
    ensures forall i :: 0 <= i < 64 ==> TABLE[i] as int == Code(i)
    ensures IsAlphabet(TABLE)
  {
    forall i | 0 <= i < 64 ensures TABLE[i] as int == Code(i) {
      TableRow(i);
    }
    CodesMakeAnAlphabet(TABLE);
  }

  method Base64Encode(data: seq<bv8>) returns (result: string)
    ensures Decode(TABLE, result) == Some(data)
    ensures result == Encode(TABLE, data)
  {
    TableIsStandard();
    DecodeOfEncode(TABLE, data);
    result := EncodeWith(TABLE, data);
  }
}
