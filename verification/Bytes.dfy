/** Byte strings, little-endian integers and NUL-delimited fields, as used by every frame format. */
module Bytes {

  newtype byte = x: int | 0 <= x < 0x100

  /** Names, topics and masks: Rust strings, seen as their UTF-8 bytes. */
  type Text = seq<byte>

  const TWO8: nat := 0x100
  const TWO16: nat := 0x1_0000
  const TWO32: nat := 0x1_0000_0000
  const NUL: byte := 0

  /** `(n as u16).to_le_bytes()`. */
  function Le16(n: nat): (b: seq<byte>)
    ensures |b| == 2
  {
    [(n % TWO8) as byte, (n / TWO8 % TWO8) as byte]
  }

  function FromLe16(b: seq<byte>): (n: nat)
    requires |b| == 2
    ensures n < TWO16
  {
    b[0] as nat + TWO8 * b[1] as nat
  }

  /** `(n as u32).to_le_bytes()`: the cast keeps the low 32 bits. */
  function Le32(n: nat): (b: seq<byte>)
    ensures |b| == 4
  {
    Le16(n % TWO16) + Le16(n / TWO16 % TWO16)
  }

  function FromLe32(b: seq<byte>): (n: nat)
    requires |b| == 4
    ensures n < TWO32
  {
    FromLe16(b[..2]) + TWO16 * FromLe16(b[2..])
  }

  /** Four bytes hold a number, the lowest first. */
  predicate LowestFirst(b: seq<byte>, n: nat) {
    && |b| == 4 && b[0] as nat == n % 256 && b[1] as nat == n / 256 % 256
    && b[2] as nat == n / 65536 % 256 && b[3] as nat == n / 16777216 % 256
  }

  lemma Le32Bytes(n: nat)
    ensures Le16(n)[0] as nat == n % 256 && Le16(n)[1] as nat == n / 256 % 256
    ensures LowestFirst(Le32(n), n)
  {
    var low, high := n % TWO16, n / TWO16 % TWO16;
    assert low % 256 == n % 256 && low / 256 % 256 == n / 256 % 256 by { LowHalf(n); }
    assert n / 65536 == n / TWO16;
    LowHalf(n / TWO16);
    assert n / 65536 / 256 == n / 16777216;
  }

  lemma LowHalf(n: nat)
    ensures n % TWO16 % 256 == n % 256 && n % TWO16 / 256 % 256 == n / 256 % 256
  {
    var q, r := n / TWO16, n % TWO16;
    assert n == 256 * (256 * q) + r && n / 256 == 256 * q + r / 256;
  }

  lemma Le16RoundTrip(n: nat)
    ensures FromLe16(Le16(n)) == n % TWO16
  {
  }

  lemma Le32RoundTrip(n: nat)
    ensures FromLe32(Le32(n)) == n % TWO32
  {
    var low, high := n % TWO16, n / TWO16 % TWO16;
    Le16RoundTrip(low);
    Le16RoundTrip(high);
    var b := Le32(n);
    assert b[..2] == Le16(low) && b[2..] == Le16(high);
    hide Le16, FromLe16, Le32;
    HalvesOfWord(n);
  }

  lemma HalvesOfWord(n: nat)
    ensures n % TWO16 + TWO16 * (n / TWO16 % TWO16) == n % TWO32
  {
    var q, r := n / TWO16, n % TWO16;
    var k, h := q / TWO16, q % TWO16;
    assert n == k * TWO32 + (TWO16 * h + r);
  }

  /** Position of the first NUL, or the length if there is none: where `splitn(2, |c| *c == 0)` cuts. */
  function Cut(s: seq<byte>): (k: nat)
    ensures k <= |s|
    ensures forall i :: 0 <= i < k ==> s[i] != NUL
    ensures k < |s| ==> s[k] == NUL
  {
    if s == [] || s[0] == NUL then 0 else 1 + Cut(s[1..])
  }

  predicate NulFree(s: seq<byte>) {
    NUL !in s
  }

  /** The field written before a NUL is read back whole exactly when it holds no NUL itself. */
  lemma CutField(t: seq<byte>, rest: seq<byte>)
    ensures Cut(t + ([NUL] + rest)) <= |t|
    ensures Cut(t + ([NUL] + rest)) == |t| <==> NulFree(t)
  {
    var s := t + ([NUL] + rest);
    var k := Cut(s);
    assert s[|t|] == NUL;
    assert forall i :: 0 <= i < |t| ==> s[i] == t[i];
    if !NulFree(t) {
      var i :| 0 <= i < |t| && t[i] == NUL;
      assert s[i] == NUL;
    }
  }

  /** Well-formed UTF-8 (RFC 3629, section 4), what `std::str::from_utf8` accepts. */
  predicate Utf8(s: seq<byte>)
    decreases |s|
  {
    if s == [] then true
    else if s[0] < 0x80 then Utf8(s[1..])
    else if 0xC2 <= s[0] <= 0xDF then
      |s| >= 2 && Tail(s[1]) && Utf8(s[2..])
    else if 0xE0 <= s[0] <= 0xEF then
      && |s| >= 3 && Tail(s[1]) && Tail(s[2])
      && (s[0] == 0xE0 ==> 0xA0 <= s[1]) && (s[0] == 0xED ==> s[1] <= 0x9F)
      && Utf8(s[3..])
    else if 0xF0 <= s[0] <= 0xF4 then
      && |s| >= 4 && Tail(s[1]) && Tail(s[2]) && Tail(s[3])
      && (s[0] == 0xF0 ==> 0x90 <= s[1]) && (s[0] == 0xF4 ==> s[1] <= 0x8F)
      && Utf8(s[4..])
    else false
  }

  predicate Tail(b: byte) {
    0x80 <= b <= 0xBF
  }

  /** Unicode scalar values: no surrogates. */
  type Scalar = x: nat | x < 0xD800 || 0xE000 <= x < 0x11_0000 witness 0

  /** One scalar value in UTF-8 (RFC 3629, section 3). */
  function Utf8Of(x: Scalar): (b: seq<byte>)
    ensures 1 <= |b| <= 4
  {
    if x < 0x80 then [x as byte]
    else if x < 0x800 then [(0xC0 + x / 0x40) as byte, (0x80 + x % 0x40) as byte]
    else if x < 0x1_0000 then
      [(0xE0 + x / 0x1000) as byte, (0x80 + x / 0x40 % 0x40) as byte, (0x80 + x % 0x40) as byte]
    else
      [(0xF0 + x / 0x4_0000) as byte, (0x80 + x / 0x1000 % 0x40) as byte, (0x80 + x / 0x40 % 0x40) as byte,
       (0x80 + x % 0x40) as byte]
  }

  function Utf8OfAll(xs: seq<Scalar>): seq<byte> {
    if xs == [] then [] else Utf8Of(xs[0]) + Utf8OfAll(xs[1..])
  }

  /** Every text is accepted. */
  lemma {:induction false} TextsAreUtf8(xs: seq<Scalar>)
    ensures Utf8(Utf8OfAll(xs))
  {
    if xs != [] {
      TextsAreUtf8(xs[1..]);
      OneMoreCharacter(xs[0], Utf8OfAll(xs[1..]));
    }
  }

  lemma OneMoreCharacter(x: Scalar, rest: seq<byte>)
    ensures Utf8(Utf8Of(x) + rest) <==> Utf8(rest)
  {
    var b := Utf8Of(x);
    CharacterShape(x);
    hide Utf8Of;
    var s := b + rest;
    assert s[|b|..] == rest && s[0] == b[0];
    assert |b| > 1 ==> s[1] == b[1];
    assert |b| > 2 ==> s[2] == b[2];
    assert |b| > 3 ==> s[3] == b[3];
  }

  lemma CharacterShape(x: Scalar)
    ensures var b := Utf8Of(x);
      && (|b| == 1 ==> b[0] < 0x80)
      && (|b| == 2 ==> 0xC2 <= b[0] <= 0xDF && Tail(b[1]))
      && (|b| == 3 ==> 0xE0 <= b[0] <= 0xEF && Tail(b[1]) && Tail(b[2])
                       && (b[0] == 0xE0 ==> 0xA0 <= b[1]) && (b[0] == 0xED ==> b[1] <= 0x9F))
      && (|b| == 4 ==> 0xF0 <= b[0] <= 0xF4 && Tail(b[1]) && Tail(b[2]) && Tail(b[3])
                       && (b[0] == 0xF0 ==> 0x90 <= b[1]) && (b[0] == 0xF4 ==> b[1] <= 0x8F))
  {
  }

  /** And nothing else is. */
  lemma {:induction false} Utf8IsText(s: seq<byte>) returns (xs: seq<Scalar>)
    requires Utf8(s)
    ensures s == Utf8OfAll(xs)
    decreases |s|
  {
    if s == [] {
      xs := [];
    } else {
      var x, n := FirstCharacter(s);
      var more := Utf8IsText(s[n..]);
      xs := [x] + more;
      assert xs[1..] == more && s == s[..n] + s[n..];
    }
  }

  lemma FirstCharacter(s: seq<byte>) returns (x: Scalar, n: nat)
    requires s != [] && Utf8(s)
    ensures 0 < n <= |s| && Utf8Of(x) == s[..n] && Utf8(s[n..])
  {
    if s[0] < 0x80 {
      x, n := s[0] as nat, 1;
    } else if s[0] <= 0xDF {
      n := 2;
      assert Utf8(s[2..]);
      hide Utf8;
      x := CharacterOfTwo(s[0], s[1]);
    } else if s[0] <= 0xEF {
      n := 3;
      assert Utf8(s[3..]);
      hide Utf8;
      x := CharacterOfThree(s[0], s[1], s[2]);
    } else {
      n := 4;
      assert Utf8(s[4..]);
      hide Utf8;
      x := CharacterOfFour(s[0], s[1], s[2], s[3]);
    }
  }

  lemma Sextet(p: nat, q: nat)
    requires q < 0x40
    ensures (p * 0x40 + q) / 0x40 == p && (p * 0x40 + q) % 0x40 == q
  {
  }

  lemma CharacterOfTwo(a: byte, b: byte) returns (x: Scalar)
    requires 0xC2 <= a <= 0xDF && Tail(b)
    ensures Utf8Of(x) == [a, b]
  {
    var p, q := a as nat - 0xC0, b as nat - 0x80;
    Sextet(p, q);
    x := p * 0x40 + q;
  }

  lemma CharacterOfThree(a: byte, b: byte, c: byte) returns (x: Scalar)
    requires 0xE0 <= a <= 0xEF && Tail(b) && Tail(c)
    requires (a == 0xE0 ==> 0xA0 <= b) && (a == 0xED ==> b <= 0x9F)
    ensures Utf8Of(x) == [a, b, c]
  {
    var p, q, r := a as nat - 0xE0, b as nat - 0x80, c as nat - 0x80;
    Sextet(p, q);
    Sextet(p * 0x40 + q, r);
    x := (p * 0x40 + q) * 0x40 + r;
    assert x / 0x1000 == p;
  }

  lemma CharacterOfFour(a: byte, b: byte, c: byte, d: byte) returns (x: Scalar)
    requires 0xF0 <= a <= 0xF4 && Tail(b) && Tail(c) && Tail(d)
    requires (a == 0xF0 ==> 0x90 <= b) && (a == 0xF4 ==> b <= 0x8F)
    ensures Utf8Of(x) == [a, b, c, d]
  {
    var p, q, r, t := a as nat - 0xF0, b as nat - 0x80, c as nat - 0x80, d as nat - 0x80;
    Sextet(p, q);
    Sextet(p * 0x40 + q, r);
    Sextet((p * 0x40 + q) * 0x40 + r, t);
    x := ((p * 0x40 + q) * 0x40 + r) * 0x40 + t;
    assert x / 0x1000 == p * 0x40 + q && x / 0x4_0000 == p;
  }
}
