/**
 base/Base64.cpp. Both directions are iterator expressions that regroup a stream of bits; decoding then
 takes the padding off again.
 */
module Base64 {
  import opened Names

  // ---------- Numbers and bits ----------

  function Pow2(n: nat): nat {
    if n == 0 then 1 else 2 * Pow2(n - 1)
  }

  /** The low bits of x, the most significant one first. */
  function Bits(width: nat, x: nat): (b: seq<bool>)
    ensures |b| == width
  {
    if width == 0 then [] else Bits(width - 1, x / 2) + [x % 2 == 1]
  }

  function Num(b: seq<bool>): nat {
    if b == [] then 0 else 2 * Num(Front(b)) + if Last(b) then 1 else 0
  }

  lemma {:induction false} NumOfBits(width: nat, x: nat)
    requires x < Pow2(width)
    ensures Num(Bits(width, x)) == x
  {
    if width > 0 {
      NumOfBits(width - 1, x / 2);
      assert Front(Bits(width, x)) == Bits(width - 1, x / 2);
    }
  }

  lemma {:induction false} BitsOfNum(b: seq<bool>)
    ensures Bits(|b|, Num(b)) == b && Num(b) < Pow2(|b|)
  {
    if b != [] {
      BitsOfNum(Front(b));
      assert b == Front(b) + [Last(b)];
    }
  }

  function Zeros(n: nat): seq<bool> {
    seq(n, _ => false)
  }

  /** The bits of all units, one after the other. */
  function Stream(width: nat, s: seq<nat>): seq<bool> {
    if s == [] then [] else Stream(width, Front(s)) + Bits(width, Last(s))
  }

  // ---------- transform_width ----------

  /** Units of the output width, and the bits at the end of the input that fill no unit. */
  datatype Regrouped = Regrouped(units: seq<nat>, left: seq<bool>)

  /** Emit a unit when enough bits are pending, else read one. */
  function Regroup(out: nat, width: nat, s: seq<nat>, pending: seq<bool>): Regrouped
    requires out > 0 && width > 0
    decreases |s|, |pending|
  {
    if |pending| >= out then
      var r := Regroup(out, width, s, pending[out..]);
      r.(units := [Num(pending[..out])] + r.units)
    else if s == [] then Regrouped([], pending)
    else Regroup(out, width, s[1..], pending + Bits(width, s[0]))
  }

  ghost predicate Fit(width: nat, s: seq<nat>) {
    forall i | 0 <= i < |s| :: s[i] < Pow2(width)
  }

  lemma {:induction false} StreamConcat(width: nat, a: seq<nat>, b: seq<nat>)
    ensures Stream(width, a + b) == Stream(width, a) + Stream(width, b)
  {
    if b == [] {
      assert a + b == a;
    } else {
      assert Front(a + b) == a + Front(b);
      StreamConcat(width, a, Front(b));
      Assoc(Stream(width, a), Stream(width, Front(b)), Bits(width, Last(b)));
    }
  }

  lemma StreamCons(width: nat, x: nat, s: seq<nat>)
    ensures Stream(width, [x] + s) == Bits(width, x) + Stream(width, s)
  {
    assert Front([x]) == [];
    StreamConcat(width, [x], s);
  }

  lemma Prepend(head: seq<bool>, tail: seq<bool>, out: seq<bool>, left: seq<bool>, input: seq<bool>)
    requires out + left == tail + input
    ensures (head + out) + left == (head + tail) + input
  {
    Assoc(head, out, left);
    Assoc(head, tail, input);
  }

  /** Regrouping neither loses nor changes a bit of the stream. */
  lemma {:induction false} RegroupKeepsStream(out: nat, width: nat, s: seq<nat>, pending: seq<bool>)
    requires out > 0 && width > 0
    ensures var r := Regroup(out, width, s, pending);
            Stream(out, r.units) + r.left == pending + Stream(width, s) && |r.left| < out && Fit(out, r.units)
    decreases |s|, |pending|
  {
    if |pending| >= out {
      var head, tail := pending[..out], pending[out..];
      var r := Regroup(out, width, s, tail);
      RegroupKeepsStream(out, width, s, tail);
      BitsOfNum(head);
      StreamCons(out, Num(head), r.units);
      Prepend(head, tail, Stream(out, r.units), r.left, Stream(width, s));
      assert pending == head + tail;
    } else if s != [] {
      RegroupKeepsStream(out, width, s[1..], pending + Bits(width, s[0]));
      StreamCons(width, s[0], s[1..]);
      assert s == [s[0]] + s[1..];
      Assoc(pending, Bits(width, s[0]), Stream(width, s[1..]));
    } else {
      assert pending + [] == [] + pending;
    }
  }

  lemma SameLastUnit(width: nat, a: seq<nat>, x: nat, b: seq<nat>, y: nat)
    requires |a| == |b| && x < Pow2(width) && y < Pow2(width) && Stream(width, a + [x]) == Stream(width, b + [y])
    ensures Stream(width, a) == Stream(width, b) && x == y
  {
    StreamSnoc(width, a, x);
    StreamSnoc(width, b, y);
    StreamLength(width, a, b);
    SplitEnd(Stream(width, a), Bits(width, x), Stream(width, b), Bits(width, y));
    NumOfBits(width, x);
    NumOfBits(width, y);
  }

  /** Equal streams of equally many units come from equal units. */
  lemma {:induction false} SameStreamSameUnits(width: nat, a: seq<nat>, b: seq<nat>)
    requires |a| == |b| && Fit(width, a) && Fit(width, b) && Stream(width, a) == Stream(width, b)
    ensures a == b
  {
    if a != [] {
      assert a == Front(a) + [Last(a)] && b == Front(b) + [Last(b)];
      SameLastUnit(width, Front(a), Last(a), Front(b), Last(b));
      FitFront(width, a);
      FitFront(width, b);
      SameStreamSameUnits(width, Front(a), Front(b));
    }
  }

  lemma FitFront(width: nat, a: seq<nat>)
    requires a != [] && Fit(width, a)
    ensures Fit(width, Front(a)) && Last(a) < Pow2(width)
  {
  }

  lemma SplitEnd(p: seq<bool>, x: seq<bool>, q: seq<bool>, y: seq<bool>)
    requires |p| == |q| && p + x == q + y
    ensures p == q && x == y
  {
    assert p == (p + x)[..|p|] && q == (q + y)[..|q|];
    assert x == (p + x)[|p|..] && y == (q + y)[|q|..];
  }

  lemma {:induction false} StreamLength(width: nat, a: seq<nat>, b: seq<nat>)
    requires |a| == |b|
    ensures |Stream(width, a)| == |Stream(width, b)|
  {
    if a != [] {
      StreamLength(width, Front(a), Front(b));
    }
  }

  lemma {:induction false} LengthOfBytes(s: seq<nat>)
    ensures |Stream(8, s)| == 8 * |s|
  {
    if s != [] {
      LengthOfBytes(Front(s));
    }
  }

  lemma {:induction false} LengthOfSextets(s: seq<nat>)
    ensures |Stream(6, s)| == 6 * |s|
  {
    if s != [] {
      LengthOfSextets(Front(s));
    }
  }

  // ---------- Bytes to sextets and back ----------

  /** Where units get narrower, zero bits fill up the last one. */
  function Filled(r: Regrouped): seq<nat>
    requires |r.left| < 6
  {
    if r.left == [] then r.units else r.units + [Num(r.left + Zeros(6 - |r.left|))]
  }

  lemma FilledStream(r: Regrouped)
    requires |r.left| < 6 && Fit(6, r.units)
    ensures Fit(6, Filled(r))
    ensures Stream(6, Filled(r)) == (Stream(6, r.units) + r.left) + Zeros(if r.left == [] then 0 else 6 - |r.left|)
  {
    if r.left == [] {
      assert Stream(6, r.units) == (Stream(6, r.units) + []) + Zeros(0);
    } else {
      FilledUnit(r.units, r.left, 6 - |r.left|);
    }
  }

  lemma FilledUnit(units: seq<nat>, left: seq<bool>, k: nat)
    requires Fit(6, units) && |left| + k == 6
    ensures var t := units + [Num(left + Zeros(k))];
            Fit(6, t) && Stream(6, t) == (Stream(6, units) + left) + Zeros(k)
  {
    var last := left + Zeros(k);
    assert |last| == 6;
    BitsOfNum(last);
    StreamSnoc(6, units, Num(last));
    Assoc(Stream(6, units), left, Zeros(k));
    FitSnoc(6, units, Num(last));
  }

  lemma StreamSnoc(width: nat, s: seq<nat>, x: nat)
    ensures Stream(width, s + [x]) == Stream(width, s) + Bits(width, x)
  {
    assert Front(s + [x]) == s;
  }

  lemma FitSnoc(width: nat, s: seq<nat>, x: nat)
    requires Fit(width, s) && x < Pow2(width)
    ensures Fit(width, s + [x])
  {
  }

  function Sextets(s: seq<Byte>): seq<nat> {
    RegroupKeepsStream(6, 8, s, []);
    Filled(Regroup(6, 8, s, []))
  }

  /** How many bits are filled up. */
  function Fill(n: nat): nat {
    if n % 3 == 0 then 0 else if n % 3 == 1 then 4 else 2
  }

  lemma SextetsKeepStream(s: seq<Byte>)
    ensures Stream(6, Sextets(s)) == Stream(8, s) + Zeros(Fill(|s|)) && Fit(6, Sextets(s))
    ensures 6 * |Sextets(s)| == 8 * |s| + Fill(|s|)
  {
    var r := Regroup(6, 8, s, []);
    RegroupKeepsStream(6, 8, s, []);
    FilledStream(r);
    LengthOfBytes(s);
    LengthOfSextets(r.units);
    LengthOfSextets(Filled(r));
    assert [] + Stream(8, s) == Stream(8, s);
    SixthsAndEighths(|s|, |r.units|, |r.left|);
  }

  lemma SixthsAndEighths(n: nat, m: nat, left: nat)
    requires 6 * m + left == 8 * n && left < 6
    ensures Fill(n) == if left == 0 then 0 else 6 - left
  {
    var q, j := n / 3, n % 3;
    assert n == 3 * q + j;
    assert 6 * (m - 4 * q) + left == 8 * j;
  }

  // ---------- The alphabet ----------

  function CharOf(x: nat): char
    requires x < 64
  {
    if x < 26 then 'A' + x as char
    else if x < 52 then 'a' + (x - 26) as char
    else if x < 62 then '0' + (x - 52) as char
    else if x == 62 then '+' else '/'
  }

  /** The padding character counts as a zero. */
  function ValueOf(c: char): Option<nat> {
    if 'A' <= c <= 'Z' then Some((c - 'A') as nat)
    else if 'a' <= c <= 'z' then Some((c - 'a') as nat + 26)
    else if '0' <= c <= '9' then Some((c - '0') as nat + 52)
    else if c == '+' then Some(62) else if c == '/' then Some(63)
    else if c == '=' then Some(0) else None
  }

  lemma ValueOfChar(x: nat)
    requires x < 64
    ensures CharOf(x) != '=' && ValueOf(CharOf(x)) == Some(x)
  {
  }

  lemma CharOfValue(c: char)
    requires ValueOf(c).Some? && c != '='
    ensures ValueOf(c).value < 64 && CharOf(ValueOf(c).value) == c
  {
  }

  function Chars(t: seq<nat>): (text: string)
    requires forall i | 0 <= i < |t| :: t[i] < 64
    ensures |text| == |t|
  {
    seq(|t|, i requires 0 <= i < |t| => CharOf(t[i]))
  }

  predicate Readable(text: string) {
    forall i | 0 <= i < |text| :: ValueOf(text[i]).Some?
  }

  function Values(text: string): (t: seq<nat>)
    requires Readable(text)
    ensures |t| == |text|
  {
    seq(|text|, i requires 0 <= i < |text| => ValueOf(text[i]).value)
  }

  // ---------- base64_encode and base64_decode ----------

  function Equals(n: nat): (text: string)
    ensures |text| == n
  {
    seq(n, _ => '=')
  }

  function Padding(n: nat): (p: nat)
    ensures p == if n % 3 == 0 then 0 else if n % 3 == 1 then 2 else 1
  {
    (3 - n % 3) % 3
  }

  function Encode(s: seq<Byte>): string {
    SextetsKeepStream(s);
    Chars(Sextets(s)) + Equals(Padding(|s|))
  }

  /** An exception for a foreign character; the other two leave the text or the buffer, which C++ leaves undefined. */
  datatype Error = InvalidCharacter | ReadPastTheEnd | PopOfEmpty

  /**
   The buffer the decoder builds. Where units get wider, left-over bits are dropped; but a unit that has been
   begun must be completed, so a whole sextet left over means that one more was read.
   */
  function Buffer(text: string): (r: Result<seq<Byte>, Error>) {
    if !Readable(text) then Failure(InvalidCharacter)
    else
      RegroupKeepsStream(8, 6, Values(text), []);
      var r := Regroup(8, 6, Values(text), []);
      if |r.left| >= 6 then Failure(ReadPastTheEnd)
      else
        var bytes: seq<Byte> := r.units;
        Success(bytes)
  }

  /** How many padding characters end the text. */
  function Pads(text: string): (n: nat)
    ensures n <= |text|
  {
    if text == "" || Last(text) != '=' then 0 else 1 + Pads(Front(text))
  }

  function Decoded(text: string): Result<seq<Byte>, Error> {
    var r := Buffer(text);
    if r.Failure? then r
    else if Pads(text) > |r.value| then Failure(PopOfEmpty)
    else Success(r.value[..|r.value| - Pads(text)])
  }

  method Decode(text: string) returns (r: Result<seq<Byte>, Error>)
    ensures r == Decoded(text)
  {
    r := Buffer(text);
    if r.Failure? {
      return;
    }
    ghost var all := r.value;
    assert text[..|text|] == text;
    var bytes, i := r.value, |text| - 1;
    while i >= 0 && text[i] == '='
      invariant -1 <= i < |text| && |all| - |bytes| == |text| - 1 - i
      invariant bytes == all[..|bytes|] && Pads(text) == Pads(text[..i + 1]) + (|text| - 1 - i)
    {
      if bytes == [] {
        return Failure(PopOfEmpty);
      }
      assert Front(text[..i + 1]) == text[..i];
      bytes, i := bytes[..|bytes| - 1], i - 1;
    }
    r := Success(bytes);
  }

  // ---------- Round trips ----------

  function ZeroUnits(n: nat): seq<Byte> {
    seq(n, _ => 0)
  }

  lemma OneMoreZero(width: nat, n: nat, bits: nat)
    requires Stream(width, ZeroUnits(n)) == Zeros(bits)
    ensures Stream(width, ZeroUnits(n + 1)) == Zeros(bits + width)
  {
    BitsOfZero(width);
    StreamSnoc(width, ZeroUnits(n), 0);
    assert ZeroUnits(n + 1) == ZeroUnits(n) + [0];
    MoreZeros(bits, width);
  }

  lemma {:induction false} StreamOfZeroSextets(n: nat)
    ensures Stream(6, ZeroUnits(n)) == Zeros(6 * n)
  {
    if n > 0 {
      StreamOfZeroSextets(n - 1);
      OneMoreZero(6, n - 1, 6 * (n - 1));
    }
  }

  lemma {:induction false} StreamOfZeroBytes(n: nat)
    ensures Stream(8, ZeroUnits(n)) == Zeros(8 * n)
  {
    if n > 0 {
      StreamOfZeroBytes(n - 1);
      OneMoreZero(8, n - 1, 8 * (n - 1));
    }
  }

  lemma MoreZeros(a: nat, b: nat)
    ensures Zeros(a) + Zeros(b) == Zeros(a + b)
  {
  }

  lemma {:induction false} BitsOfZero(width: nat)
    ensures Bits(width, 0) == Zeros(width)
  {
    if width > 0 {
      BitsOfZero(width - 1);
    }
  }

  /** Equal streams up to fewer bits than a unit: the longer one's units are the shorter one's. */
  lemma SameBytes(r: Regrouped, s: seq<nat>, rest: seq<bool>)
    requires Stream(8, r.units) + r.left == Stream(8, s) + rest && |r.left| < 8 && |rest| < 8
    requires Fit(8, r.units) && Fit(8, s)
    ensures r.units == s && r.left == rest
  {
    LengthOfBytes(r.units);
    LengthOfBytes(s);
    SplitEnd(Stream(8, r.units), r.left, Stream(8, s), rest);
    SameStreamSameUnits(8, r.units, s);
  }

  lemma ValuesOfChars(t: seq<nat>, n: nat)
    requires forall i | 0 <= i < |t| :: t[i] < 64
    ensures Readable(Chars(t) + Equals(n))
    ensures Values(Chars(t) + Equals(n)) == t + ZeroUnits(n)
    ensures Pads(Chars(t) + Equals(n)) == n
  {
    forall i | 0 <= i < |t|
      ensures ValueOf(CharOf(t[i])) == Some(t[i])
    {
      ValueOfChar(t[i]);
    }
    PadsOfChars(t, n);
  }

  lemma {:induction false} PadsOfChars(t: seq<nat>, n: nat)
    requires forall i | 0 <= i < |t| :: t[i] < 64
    ensures Pads(Chars(t) + Equals(n)) == n
  {
    var text := Chars(t) + Equals(n);
    if n > 0 {
      assert Front(text) == Chars(t) + Equals(n - 1);
      PadsOfChars(t, n - 1);
    } else if t != [] {
      ValueOfChar(Last(t));
      assert Last(text) == CharOf(Last(t));
    }
  }

  /** A stream followed by zero bits that make whole zero bytes. */
  lemma StreamWithZeros(s: seq<Byte>, t: seq<nat>, fill: nat, pads: nat)
    requires Stream(6, t) == Stream(8, s) + Zeros(fill) && fill + 6 * pads == 8 * pads
    ensures Stream(6, t + ZeroUnits(pads)) == Stream(8, s + ZeroUnits(pads))
  {
    StreamConcat(6, t, ZeroUnits(pads));
    StreamConcat(8, s, ZeroUnits(pads));
    StreamOfZeroSextets(pads);
    StreamOfZeroBytes(pads);
    Assoc(Stream(8, s), Zeros(fill), Zeros(6 * pads));
    MoreZeros(fill, 6 * pads);
  }

  /** What the decoder's buffer holds when the text's sextets carry the bits of some bytes. */
  lemma BufferHolds(text: string, s: seq<Byte>, rest: seq<bool>)
    requires Readable(text) && Stream(6, Values(text)) == Stream(8, s) + rest && |rest| < 6
    ensures Buffer(text) == Success(s)
  {
    var r := Regroup(8, 6, Values(text), []);
    RegroupKeepsStream(8, 6, Values(text), []);
    assert [] + Stream(6, Values(text)) == Stream(6, Values(text));
    SameBytes(r, s, rest);
  }

  lemma PaddedBuffer(s: seq<Byte>)
    ensures Buffer(Encode(s)) == Success(s + ZeroUnits(Padding(|s|))) && Pads(Encode(s)) == Padding(|s|)
  {
    var pads := Padding(|s|);
    SextetsKeepStream(s);
    ValuesOfChars(Sextets(s), pads);
    StreamWithZeros(s, Sextets(s), Fill(|s|), pads);
    assert Stream(8, s + ZeroUnits(pads)) == Stream(8, s + ZeroUnits(pads)) + [];
    BufferHolds(Encode(s), s + ZeroUnits(pads), []);
  }

  /** Decoding what was encoded gives the bytes back, for every byte string. */
  lemma DecodeEncode(s: seq<Byte>)
    ensures Decoded(Encode(s)) == Success(s)
  {
    PaddedBuffer(s);
    assert (s + ZeroUnits(Padding(|s|)))[..|s|] == s;
  }

  /** The padding is not needed for that. */
  lemma DecodeWithoutPadding(s: seq<Byte>)
    ensures Decoded(Encode(s)[..|Sextets(s)|]) == Success(s)
  {
    var t := Sextets(s);
    SextetsKeepStream(s);
    ValuesOfChars(t, 0);
    assert Chars(t) + Equals(0) == Chars(t) == Encode(s)[..|t|];
    assert t + ZeroUnits(0) == t;
    BufferHolds(Chars(t), s, Zeros(Fill(|s|)));
    assert s[..|s|] == s;
  }

  // ---------- Which texts are encodings ----------

  /** The bits of the last sextet that so much padding cuts off are zero. */
  predicate CutsZeros(x: nat, pads: nat) {
    (pads == 1 ==> x % 4 == 0) && (pads == 2 ==> x % 16 == 0)
  }

  /** Section 3.5 of RFC 4648: whole groups, padding at the end only, and no bit set that the padding cuts off. */
  predicate Canonical(text: string) {
    var pads := Pads(text);
    var n := |text| - pads;
    && |text| % 4 == 0 && pads <= 2
    && (forall i | 0 <= i < n :: text[i] != '=' && ValueOf(text[i]).Some?)
    && (n > 0 ==> CutsZeros(ValueOf(text[n - 1]).value, pads))
  }

  /** The low bits of a sextet are zero when it is a multiple. */
  lemma LowBits(x: nat)
    ensures Bits(6, x)[4..] == Zeros(2) <==> x % 4 == 0
    ensures Bits(6, x)[2..] == Zeros(4) <==> x % 16 == 0
  {
    var b := Bits(6, x);
    LastTwo(4, x);
    LastTwo(2, x / 4);
    FourZeros(b[..4][2..], b[4..]);
    assert b[2..] == b[..4][2..] + b[4..];
    Quarters(x);
  }

  lemma Quarters(x: nat)
    ensures x % 16 == 0 <==> x % 4 == 0 && x / 4 % 4 == 0
  {
  }

  lemma FourZeros(a: seq<bool>, b: seq<bool>)
    requires |a| == |b| == 2
    ensures a + b == Zeros(4) <==> a == Zeros(2) && b == Zeros(2)
  {
    assert Zeros(4) == Zeros(2) + Zeros(2);
    if a + b == Zeros(2) + Zeros(2) {
      SplitEnd(a, b, Zeros(2), Zeros(2));
    }
  }

  lemma LastTwo(k: nat, x: nat)
    ensures Bits(k + 2, x)[..k] == Bits(k, x / 4)
    ensures Bits(k + 2, x)[k..] == Zeros(2) <==> x % 4 == 0
  {
    assert x / 2 / 2 == x / 4;
    assert Bits(k + 1, x / 2) == Bits(k, x / 4) + [x / 2 % 2 == 1];
    assert Bits(k + 2, x) == Bits(k, x / 4) + [x / 2 % 2 == 1] + [x % 2 == 1];
    assert Bits(k + 2, x)[k..] == [x / 2 % 2 == 1, x % 2 == 1];
    assert Zeros(2) == [false, false];
  }

  /** The last bits of a stream of sextets are those of its last sextet. */
  lemma LastBits(t: seq<nat>, k: nat)
    requires t != [] && k <= 6
    ensures |Stream(6, t)| >= 6 && Stream(6, t)[|Stream(6, t)| - k..] == Bits(6, Last(t))[6 - k..]
  {
  }

  /** The text begins with the characters of these sextets. */
  ghost predicate Spells(text: string, t: seq<nat>) {
    |t| <= |text| && forall i | 0 <= i < |t| :: text[i] != '=' && ValueOf(text[i]) == Some(t[i])
  }

  lemma CharsSpell(t: seq<nat>, n: nat)
    requires forall i | 0 <= i < |t| :: t[i] < 64
    ensures Spells(Chars(t) + Equals(n), t)
  {
    forall i | 0 <= i < |t|
      ensures CharOf(t[i]) != '=' && ValueOf(CharOf(t[i])) == Some(t[i])
    {
      ValueOfChar(t[i]);
    }
  }

  lemma CanonicalFrom(text: string, t: seq<nat>)
    requires t != [] ==> CutsZeros(Last(t), Pads(text))
    requires Spells(text, t) && |text| == |t| + Pads(text) && Pads(text) <= 2 && |text| % 4 == 0
    ensures Canonical(text)
  {
    assert |text| % 4 == 0;
    forall i | 0 <= i < |t|
      ensures text[i] != '=' && ValueOf(text[i]).Some?
    {
      assert ValueOf(text[i]) == Some(t[i]);
    }
    if t != [] {
      assert ValueOf(text[|t| - 1]) == Some(Last(t));
    }
  }

  lemma EncodedIsCanonical(s: seq<Byte>)
    ensures Canonical(Encode(s))
  {
    SextetsKeepStream(s);
    EncodedSize(|s|, |Sextets(s)|);
    if |s| % 3 != 0 {
      LastSextet(s);
    }
    WholeGroups((|s| + 2) / 3);
    PaddedIsCanonical(Sextets(s), Padding(|s|));
  }

  lemma WholeGroups(groups: nat)
    ensures 4 * groups % 4 == 0
  {
  }

  lemma PaddedIsCanonical(t: seq<nat>, pads: nat)
    requires (forall i | 0 <= i < |t| :: t[i] < 64) && (|t| + pads) % 4 == 0 && pads <= 2
    requires t != [] ==> CutsZeros(Last(t), pads)
    ensures Canonical(Chars(t) + Equals(pads))
  {
    PadsOfChars(t, pads);
    CharsSpell(t, pads);
    CanonicalFrom(Chars(t) + Equals(pads), t);
  }

  lemma LastSextet(s: seq<Byte>)
    requires |s| % 3 != 0
    ensures Sextets(s) != [] && CutsZeros(Last(Sextets(s)), Padding(|s|))
  {
    var t, k := Sextets(s), Fill(|s|);
    SextetsKeepStream(s);
    LastBits(t, k);
    assert (Stream(8, s) + Zeros(k))[|Stream(8, s)|..] == Zeros(k);
    LowBits(Last(t));
  }

  lemma EncodedSize(n: nat, m: nat)
    requires 6 * m == 8 * n + Fill(n)
    ensures m + Padding(n) == 4 * ((n + 2) / 3)
  {
    var q := n / 3;
    if n % 3 == 0 {
      assert n == 3 * q && (n + 2) / 3 == q;
    } else {
      assert n == 3 * q + n % 3 && (n + 2) / 3 == q + 1;
    }
  }

  /** A text is its body, as sextets, and its padding. */
  lemma BodyAndPads(text: string, n: nat)
    requires n == |text| - Pads(text) && forall i | 0 <= i < n :: text[i] != '=' && ValueOf(text[i]).Some?
    ensures var t := Values(text[..n]);
            Fit(6, t) && (forall i | 0 <= i < n :: t[i] < 64) && text == Chars(t) + Equals(Pads(text))
  {
    var body, pads := text[..n], text[n..];
    PadsAreEquals(text);
    assert text == body + pads;
    ValuesSpelled(body);
  }

  lemma ValuesSpelled(body: string)
    requires forall i | 0 <= i < |body| :: body[i] != '=' && ValueOf(body[i]).Some?
    ensures Fit(6, Values(body)) && (forall i | 0 <= i < |body| :: Values(body)[i] < 64) && Chars(Values(body)) == body
  {
    forall i | 0 <= i < |body|
      ensures Values(body)[i] < 64 && CharOf(Values(body)[i]) == body[i]
    {
      CharOfValue(body[i]);
    }
  }

  lemma {:induction false} PadsAreEquals(text: string)
    ensures text[|text| - Pads(text)..] == Equals(Pads(text))
  {
    if Pads(text) > 0 {
      PadsAreEquals(Front(text));
      var n := |text| - Pads(text);
      assert text[n..] == Front(text)[n..] + [Last(text)];
    }
  }

  lemma CanonicalIsEncoded(text: string) returns (s: seq<Byte>)
    requires Canonical(text)
    ensures Encode(s) == text
  {
    var pads := Pads(text);
    var n := |text| - pads;
    BodyAndPads(text, n);
    s := EncodedAs(Values(text[..n]), pads, |text| / 4);
  }

  /** The bytes whose sextets are given: all their bits but the last ones, which are zero. */
  lemma EncodedAs(t: seq<nat>, pads: nat, groups: nat) returns (s: seq<Byte>)
    requires Fit(6, t) && (forall i | 0 <= i < |t| :: t[i] < 64) && |t| + pads == 4 * groups && pads <= 2
    requires t != [] ==> CutsZeros(Last(t), pads)
    ensures Encode(s) == Chars(t) + Equals(pads)
  {
    var r := Regroup(8, 6, t, []);
    RegroupKeepsStream(8, 6, t, []);
    assert [] + Stream(6, t) == Stream(6, t);
    LengthOfBytes(r.units);
    LengthOfSextets(t);
    s := r.units;
    GroupCount(groups, pads, |s|, |r.left|);
    LeftIsZero(t, r.left, pads);
    assert Stream(6, t) == Stream(8, s) + r.left;
    SextetsKeepStream(s);
    LengthOfSextets(Sextets(s));
    SameStreamSameUnits(6, Sextets(s), t);
  }

  lemma LeftIsZero(t: seq<nat>, left: seq<bool>, pads: nat)
    requires |left| == 2 * pads <= 4 && |left| <= |Stream(6, t)| && left == Stream(6, t)[|Stream(6, t)| - |left|..]
    requires pads > 0 ==> t != [] && CutsZeros(Last(t), pads)
    ensures left == Zeros(2 * pads)
  {
    if pads > 0 {
      LastBits(t, 2 * pads);
      LowBits(Last(t));
    }
  }

  lemma GroupCount(groups: nat, pads: nat, bytes: nat, left: nat)
    requires pads <= 2 && 8 * bytes + left == 6 * (4 * groups - pads) && left < 8
    ensures left == 2 * pads && Fill(bytes) == left && Padding(bytes) == pads
  {
    assert bytes == 3 * groups - pads;
    if pads == 1 {
      assert bytes == 3 * (groups - 1) + 2;
    } else if pads == 2 {
      assert bytes == 3 * (groups - 1) + 1;
    }
  }

  /** Encoding what was decoded gives the text back exactly when the text is canonical. */
  lemma EncodeDecodeIff(text: string)
    ensures Decoded(text).Success? && Encode(Decoded(text).value) == text <==> Canonical(text)
  {
    if Canonical(text) {
      var s := CanonicalIsEncoded(text);
      DecodeEncode(s);
    } else if Decoded(text).Success? {
      EncodedIsCanonical(Decoded(text).value);
    }
  }

  lemma EncodedLength(s: seq<Byte>)
    ensures |Encode(s)| == 4 * ((|s| + 2) / 3)
  {
    SextetsKeepStream(s);
    EncodedSize(|s|, |Sextets(s)|);
  }

  lemma DecodedSize(n: nat, bytes: nat, left: nat)
    requires 8 * bytes + left == 6 * n && left < 8
    ensures (left >= 6 <==> n % 4 == 1) && bytes == 3 * n / 4
  {
    var q := n / 4;
    assert n == 4 * q + n % 4;
    assert 8 * (bytes - 3 * q) + left == 6 * (n % 4);
  }

  /** When decoding throws, when it is undefined, and how much it gives otherwise. */
  lemma DecodeOutcome(text: string)
    ensures Decoded(text) == Failure(InvalidCharacter) <==> !Readable(text)
    ensures Decoded(text) == Failure(ReadPastTheEnd) <==> Readable(text) && |text| % 4 == 1
    ensures Decoded(text) == Failure(PopOfEmpty) <==> Readable(text) && |text| % 4 != 1 && Pads(text) > 3 * |text| / 4
    ensures Decoded(text).Success? ==> |Decoded(text).value| == 3 * |text| / 4 - Pads(text)
  {
    if Readable(text) {
      var r := Regroup(8, 6, Values(text), []);
      RegroupKeepsStream(8, 6, Values(text), []);
      LengthOfBytes(r.units);
      LengthOfSextets(Values(text));
      DecodedSize(|text|, |r.units|, |r.left|);
    }
  }

  // ---------- Three bytes, four characters ----------

  /** The four sextets of a group, each from the bytes that share its bits. */
  function First(a: Byte): nat { a / 4 }
  function Second(a: Byte, b: Byte): nat { a % 4 * 16 + b / 16 }
  function Third(b: Byte, c: Byte): nat { b % 16 * 4 + c / 64 }
  function Fourth(c: Byte): nat { c % 64 }

  /** Section 4 of RFC 4648: 24-bit groups of three bytes, written as four sextets; zeros complete the last one. */
  function Groups(s: seq<Byte>): seq<nat> {
    if s == [] then []
    else if |s| == 1 then [First(s[0]), Second(s[0], 0)]
    else if |s| == 2 then [First(s[0]), Second(s[0], s[1]), Third(s[1], 0)]
    else [First(s[0]), Second(s[0], s[1]), Third(s[1], s[2]), Fourth(s[2])] + Groups(s[3..])
  }

  /** The bits of a number are those of its high part and those of its low part. */
  lemma {:induction false} Join(j: nat, k: nat, high: nat, low: nat)
    requires low < Pow2(k)
    ensures Bits(j + k, high * Pow2(k) + low) == Bits(j, high) + Bits(k, low)
  {
    if k == 0 {
      assert Bits(j, high) + [] == Bits(j, high);
    } else {
      var half := high * Pow2(k - 1);
      assert high * Pow2(k) == 2 * half;
      assert (2 * half + low) / 2 == half + low / 2 && (2 * half + low) % 2 == low % 2;
      Join(j, k - 1, high, low / 2);
      Assoc(Bits(j, high), Bits(k - 1, low / 2), [low % 2 == 1]);
    }
  }

  lemma Powers()
    ensures Pow2(2) == 4 && Pow2(4) == 16 && Pow2(6) == 64
  {
  }

  lemma FirstParts(a: Byte)
    ensures Bits(8, a) == Bits(6, First(a)) + Bits(2, a % 4)
  {
    Powers();
    Join(6, 2, a / 4, a % 4);
  }

  lemma MiddleParts(b: Byte)
    ensures Bits(8, b) == Bits(4, b / 16) + Bits(4, b % 16)
  {
    Powers();
    Join(4, 4, b / 16, b % 16);
  }

  lemma FourthParts(c: Byte)
    ensures Bits(8, c) == Bits(2, c / 64) + Bits(6, Fourth(c))
  {
    Powers();
    Join(2, 6, c / 64, c % 64);
  }

  lemma SecondParts(a: Byte, b: Byte)
    ensures Bits(6, Second(a, b)) == Bits(2, a % 4) + Bits(4, b / 16)
  {
    Powers();
    assert Second(a, b) == a % 4 * Pow2(4) + b / 16;
    Join(2, 4, a % 4, b / 16);
  }

  lemma ThirdParts(a: Byte, b: Byte)
    ensures Bits(6, Third(a, b)) == Bits(4, a % 16) + Bits(2, b / 64)
  {
    Powers();
    Join(4, 2, a % 16, b / 64);
  }

  lemma Interleave(a: seq<bool>, b: seq<bool>, c: seq<bool>, d: seq<bool>, e: seq<bool>, f: seq<bool>, rest: seq<bool>)
    ensures a + ((b + c) + ((d + e) + (f + rest))) == (a + b) + ((c + d) + ((e + f) + rest))
  {
  }

  /** Four sextets that share the bits of three bytes. */
  lemma SameGroup(w: nat, x: nat, y: nat, z: nat, a: nat, b: nat, c: nat, p: seq<bool>, q: seq<bool>, r: seq<bool>, u: seq<bool>,
    t: seq<nat>, s: seq<nat>, rest: seq<bool>)
    requires Bits(8, a) == Bits(6, w) + p && Bits(8, b) == q + r && Bits(8, c) == u + Bits(6, z)
    requires Bits(6, x) == p + q && Bits(6, y) == r + u && Stream(6, t) == Stream(8, s) + rest
    ensures Stream(6, [w, x, y, z] + t) == Stream(8, [a, b, c] + s) + rest
  {
    FourCons(w, x, y, z, t);
    ThreeCons(a, b, c, s);
    Interleave(Bits(6, w), p, q, r, u, Bits(6, z), Stream(6, t));
    Assoc(Bits(8, c), Stream(8, s), rest);
    Assoc(Bits(8, b), Bits(8, c) + Stream(8, s), rest);
    Assoc(Bits(8, a), Bits(8, b) + (Bits(8, c) + Stream(8, s)), rest);
  }

  lemma GroupStream(a: Byte, b: Byte, c: Byte, s: seq<Byte>, t: seq<nat>, rest: seq<bool>)
    requires Stream(6, t) == Stream(8, s) + rest
    ensures Stream(6, [First(a), Second(a, b), Third(b, c), Fourth(c)] + t) == Stream(8, [a, b, c] + s) + rest
  {
    FirstParts(a);
    MiddleParts(b);
    FourthParts(c);
    SecondParts(a, b);
    ThirdParts(b, c);
    SameGroup(First(a), Second(a, b), Third(b, c), Fourth(c), a, b, c,
              Bits(2, a % 4), Bits(4, b / 16), Bits(4, b % 16), Bits(2, c / 64), t, s, rest);
  }

  lemma TwoCons(width: nat, x: nat, y: nat, t: seq<nat>)
    ensures Stream(width, [x, y] + t) == Bits(width, x) + (Bits(width, y) + Stream(width, t))
  {
    StreamCons(width, y, t);
    StreamCons(width, x, [y] + t);
    assert [x, y] + t == [x] + ([y] + t);
  }

  lemma FourCons(w: nat, x: nat, y: nat, z: nat, t: seq<nat>)
    ensures Stream(6, [w, x, y, z] + t) == Bits(6, w) + (Bits(6, x) + (Bits(6, y) + (Bits(6, z) + Stream(6, t))))
  {
    TwoCons(6, y, z, t);
    TwoCons(6, w, x, [y, z] + t);
    assert [w, x, y, z] + t == [w, x] + ([y, z] + t);
  }

  lemma ThreeCons(a: nat, b: nat, c: nat, s: seq<nat>)
    ensures Stream(8, [a, b, c] + s) == Bits(8, a) + (Bits(8, b) + (Bits(8, c) + Stream(8, s)))
  {
    TwoCons(8, b, c, s);
    StreamCons(8, a, [b, c] + s);
    assert [a, b, c] + s == [a] + ([b, c] + s);
  }

  lemma OneByte(a: Byte)
    ensures Stream(6, [First(a), Second(a, 0)]) == Stream(8, [a]) + Zeros(4)
  {
    FirstParts(a);
    SecondParts(a, 0);
    BitsOfZero(4);
    SameLastByte(First(a), Second(a, 0), a, Bits(2, a % 4));
  }

  lemma SameLastByte(w: nat, x: nat, a: nat, p: seq<bool>)
    requires Bits(8, a) == Bits(6, w) + p && Bits(6, x) == p + Zeros(4)
    ensures Stream(6, [w, x]) == Stream(8, [a]) + Zeros(4)
  {
    TwoBits(6, w, x);
    OneBits(8, a);
    Assoc(Bits(6, w), p, Zeros(4));
  }

  lemma TwoBytes(a: Byte, b: Byte)
    ensures Stream(6, [First(a), Second(a, b), Third(b, 0)]) == Stream(8, [a, b]) + Zeros(2)
  {
    FirstParts(a);
    MiddleParts(b);
    SecondParts(a, b);
    ThirdParts(b, 0);
    BitsOfZero(2);
    SameShortGroup(First(a), Second(a, b), Third(b, 0), a, b, Bits(2, a % 4), Bits(4, b / 16), Bits(4, b % 16));
  }

  lemma SameShortGroup(w: nat, x: nat, y: nat, a: nat, b: nat, p: seq<bool>, q: seq<bool>, r: seq<bool>)
    requires Bits(8, a) == Bits(6, w) + p && Bits(8, b) == q + r
    requires Bits(6, x) == p + q && Bits(6, y) == r + Zeros(2)
    ensures Stream(6, [w, x, y]) == Stream(8, [a, b]) + Zeros(2)
  {
    ThreeBits(6, w, x, y);
    TwoBits(8, a, b);
    Shuffle(Bits(6, w), p, q, r, Zeros(2));
  }

  lemma Shuffle(a: seq<bool>, b: seq<bool>, c: seq<bool>, d: seq<bool>, e: seq<bool>)
    ensures a + ((b + c) + (d + e)) == ((a + b) + (c + d)) + e
  {
  }

  lemma OneBits(width: nat, x: nat)
    ensures Stream(width, [x]) == Bits(width, x)
  {
    StreamCons(width, x, []);
    assert [x] + [] == [x];
  }

  lemma TwoBits(width: nat, x: nat, y: nat)
    ensures Stream(width, [x, y]) == Bits(width, x) + Bits(width, y)
  {
    StreamCons(width, x, [y]);
    OneBits(width, y);
    assert [x] + [y] == [x, y];
  }

  lemma ThreeBits(width: nat, x: nat, y: nat, z: nat)
    ensures Stream(width, [x, y, z]) == Bits(width, x) + (Bits(width, y) + Bits(width, z))
  {
    StreamCons(width, x, [y, z]);
    TwoBits(width, y, z);
    assert [x] + [y, z] == [x, y, z];
  }

  lemma {:induction false} GroupsKeepStream(s: seq<Byte>)
    ensures Stream(6, Groups(s)) == Stream(8, s) + Zeros(Fill(|s|))
  {
    if |s| < 3 {
      LastGroup(s);
    } else {
      var rest := s[3..];
      GroupsKeepStream(rest);
      WholeGroupFill(|rest|);
      GroupStream(s[0], s[1], s[2], rest, Groups(rest), Zeros(Fill(|rest|)));
      assert s == [s[0], s[1], s[2]] + rest;
    }
  }

  lemma WholeGroupFill(n: nat)
    ensures Fill(n + 3) == Fill(n)
  {
  }

  lemma LastGroup(s: seq<Byte>)
    requires |s| < 3
    ensures Stream(6, Groups(s)) == Stream(8, s) + Zeros(Fill(|s|))
  {
    if |s| == 2 {
      TwoByteGroup(s);
    } else if |s| == 1 {
      OneByteGroup(s);
    } else {
      NoGroup(s);
    }
  }

  lemma NoGroup(s: seq<Byte>)
    requires |s| == 0
    ensures Stream(6, Groups(s)) == Stream(8, s) + Zeros(Fill(|s|))
  {
    assert Stream(8, s) == [] && Stream(6, Groups(s)) == [] && Zeros(0) == [];
  }

  lemma OneByteGroup(s: seq<Byte>)
    requires |s| == 1
    ensures Stream(6, Groups(s)) == Stream(8, s) + Zeros(Fill(|s|))
  {
    assert s == [s[0]];
    OneByte(s[0]);
  }

  lemma GroupsOfTwo(s: seq<Byte>, a: Byte, b: Byte)
    requires |s| == 2 && s[0] == a && s[1] == b
    ensures s == [a, b] && Groups(s) == [First(a), Second(a, b), Third(b, 0)] && Fill(|s|) == 2
  {
  }

  lemma TwoByteGroup(s: seq<Byte>)
    requires |s| == 2
    ensures Stream(6, Groups(s)) == Stream(8, s) + Zeros(Fill(|s|))
  {
    var a, b := s[0], s[1];
    GroupsOfTwo(s, a, b);
    TwoBytes(a, b);
  }

  lemma {:induction false} GroupsFit(s: seq<Byte>)
    ensures Fit(6, Groups(s))
  {
    Powers();
    if |s| >= 3 {
      GroupsFit(s[3..]);
    }
  }

  /** The regrouped bit stream is, sextet by sextet, what the standard prescribes for each group of three bytes. */
  lemma SextetsAreGroups(s: seq<Byte>)
    ensures Sextets(s) == Groups(s)
  {
    SextetsKeepStream(s);
    GroupsKeepStream(s);
    GroupsFit(s);
    LengthOfSextets(Sextets(s));
    LengthOfSextets(Groups(s));
    SameStreamSameUnits(6, Sextets(s), Groups(s));
  }

  // ---------- The characters ----------

  /** Table 1 of RFC 4648: four ranges of consecutive characters, and two more. */
  lemma AlphabetIsTable1(x: nat)
    requires x < 64
    ensures x <= 25 ==> CharOf(x) as int == 'A' as int + x && 'A' <= CharOf(x) <= 'Z'
    ensures 26 <= x <= 51 ==> CharOf(x) as int == 'a' as int + (x - 26) && 'a' <= CharOf(x) <= 'z'
    ensures 52 <= x <= 61 ==> CharOf(x) as int == '0' as int + (x - 52) && '0' <= CharOf(x) <= '9'
    ensures CharOf(62) == '+' && CharOf(63) == '/'
  {
  }

  lemma EncodedByGroups(s: seq<Byte>, t: seq<nat>, text: string, padding: string)
    requires Groups(s) == t && |text| == |t| && forall i | 0 <= i < |t| :: t[i] < 64 && CharOf(t[i]) == text[i]
    requires padding == Equals(Padding(|s|))
    ensures Encode(s) == text + padding
  {
    SextetsAreGroups(s);
    SextetsKeepStream(s);
    assert Chars(Sextets(s)) == text;
  }

  /** The vectors of section 10 of RFC 4648 up to one group, and one with the last two characters. */
  lemma TestVectors()
    ensures Encode([]) == "" && Encode([0x66]) == "Zg==" && Encode([0x66, 0x6f]) == "Zm8="
    ensures Encode([0x66, 0x6f, 0x6f]) == "Zm9v" && Encode([0xfb, 0xff]) == "+/8="
  {
    EncodedByGroups([], [], "", "");
    VectorOfOne();
    VectorOfTwo();
    VectorOfThree();
    VectorOfLast();
  }

  lemma VectorOfOne()
    ensures Encode([0x66]) == "Zg=="
  {
    EncodedByGroups([0x66], [25, 32], "Zg", "==");
  }

  lemma VectorOfTwo()
    ensures Encode([0x66, 0x6f]) == "Zm8="
  {
    EncodedByGroups([0x66, 0x6f], [25, 38, 60], "Zm8", "=");
  }

  lemma VectorOfThree()
    ensures Encode([0x66, 0x6f, 0x6f]) == "Zm9v"
  {
    LastGroupOnly(0x66, 0x6f, 0x6f);
    EncodedByGroups([0x66, 0x6f, 0x6f], [25, 38, 61, 47], "Zm9v", "");
  }

  lemma VectorOfLast()
    ensures Encode([0xfb, 0xff]) == "+/8="
  {
    EncodedByGroups([0xfb, 0xff], [62, 63, 60], "+/8", "=");
  }

  lemma LastGroupOnly(a: Byte, b: Byte, c: Byte)
    ensures Groups([a, b, c]) == [First(a), Second(a, b), Third(b, c), Fourth(c)]
  {
    assert [a, b, c][3..] == [];
  }
}
