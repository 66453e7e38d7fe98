/**
 UTF-8 as the daemon meets it: `str::as_bytes` on the way out and
 `String::from_utf8` on the way in. The decoder accepts exactly the octet
 sequences of the grammar in section 4 of RFC 3629. Dafny's `char` is a Unicode
 scalar value, so `string` is Rust's `String`.
 */
module Utf8 {
  import opened Common

  function EncodeChar(c: char): (r: seq<byte>)
    ensures 1 <= |r| <= 4
  {
    var v := c as int;
    if v < 0x80 then [v]
    else if v < 0x800 then [0xC0 + v / 64, 0x80 + v % 64]
    else if v < 0x1_0000 then [0xE0 + v / 4096, 0x80 + v / 64 % 64, 0x80 + v % 64]
    else [0xF0 + v / 262144, 0x80 + v / 4096 % 64, 0x80 + v / 64 % 64, 0x80 + v % 64]
  }

  function Encode(s: string): seq<byte> {
    if s == [] then [] else EncodeChar(s[0]) + Encode(s[1..])
  }

  predicate IsTail(b: byte) {
    0x80 <= b <= 0xBF
  }

  /** Octets in the UTF8-char at the front of `b`; 0 when none of the productions matches. */
  function Width(b: seq<byte>): (n: nat)
    ensures n <= |b| && n <= 4
  {
    if |b| == 0 then 0
    else if b[0] <= 0x7F then 1
    else if 0xC2 <= b[0] <= 0xDF && |b| >= 2 && IsTail(b[1]) then 2
    else if 0xE0 <= b[0] <= 0xEF && |b| >= 3 && IsTail(b[1]) && IsTail(b[2])
            && (b[0] == 0xE0 ==> b[1] >= 0xA0) && (b[0] == 0xED ==> b[1] <= 0x9F) then 3
    else if 0xF0 <= b[0] <= 0xF4 && |b| >= 4 && IsTail(b[1]) && IsTail(b[2]) && IsTail(b[3])
            && (b[0] == 0xF0 ==> b[1] >= 0x90) && (b[0] == 0xF4 ==> b[1] <= 0x8F) then 4
    else 0
  }

  /** Appends the six payload bits of a UTF8-tail octet to the bits read so far. */
  function Join(high: int, tail: byte): int {
    high * 64 + (tail - 0x80)
  }

  /** The scalar value of the UTF8-char at the front of `b`. */
  function Scalar(b: seq<byte>): char
    requires Width(b) > 0
  {
    var n := Width(b);
    var lead: int := b[0];
    var v :=
      if n == 1 then lead
      else if n == 2 then Join(lead - 0xC0, b[1])
      else if n == 3 then Join(Join(lead - 0xE0, b[1]), b[2])
      else Join(Join(Join(lead - 0xF0, b[1]), b[2]), b[3]);
    v as char
  }

  function Decode(b: seq<byte>): Option<string> {
    if b == [] then Some("")
    else
      var n := Width(b);
      if n == 0 then None
      else
        match Decode(b[n..])
        case None => None
        case Some(t) => Some([Scalar(b)] + t)
  }

  /** `str::is_char_boundary`: the cut at `n` does not fall inside a character. */
  predicate IsBoundary(b: seq<byte>, n: nat) {
    n == |b| || (n < |b| && !IsTail(b[n]))
  }

  lemma SplitJoins(v: nat)
    ensures v == Join(v / 64, 0x80 + v % 64)
    ensures v / 64 / 64 == v / 4096 && v / 64 / 64 / 64 == v / 262144
  {
  }

  lemma EncodeCharWidth(c: char, rest: seq<byte>)
    ensures Width(EncodeChar(c) + rest) == |EncodeChar(c)|
  {
    var e := EncodeChar(c);
    var b := e + rest;
    assert b[0] == e[0];
    assert |e| > 1 ==> b[1] == e[1] && IsTail(e[1]);
    assert |e| > 2 ==> b[2] == e[2] && IsTail(e[2]);
    assert |e| > 3 ==> b[3] == e[3] && IsTail(e[3]);
  }

  lemma EncodeCharFront(c: char, rest: seq<byte>)
    ensures Width(EncodeChar(c) + rest) == |EncodeChar(c)|
    ensures Scalar(EncodeChar(c) + rest) == c
  {
    EncodeCharWidth(c, rest);
    var v := c as int;
    var b := EncodeChar(c) + rest;
    assert forall i :: 0 <= i < |EncodeChar(c)| ==> b[i] == EncodeChar(c)[i];
    SplitJoins(v);
    SplitJoins(v / 64);
    SplitJoins(v / 4096);
  }

  lemma JoinSplits(high: int, tail: byte)
    requires IsTail(tail)
    ensures Join(high, tail) / 64 == high && Join(high, tail) % 64 == tail - 0x80
  {
  }

  lemma ScalarInverts(b: seq<byte>)
    requires Width(b) > 0
    ensures EncodeChar(Scalar(b)) == b[..Width(b)]
  {
    var n := Width(b);
    var v := Scalar(b) as int;
    if n == 2 {
      JoinSplits(b[0] - 0xC0, b[1]);
    } else if n == 3 {
      var h := Join(b[0] - 0xE0, b[1]);
      JoinSplits(b[0] - 0xE0, b[1]);
      JoinSplits(h, b[2]);
      assert v == Join(h, b[2]) && v / 4096 == h / 64;
    } else if n == 4 {
      var h1 := Join(b[0] - 0xF0, b[1]);
      var h2 := Join(h1, b[2]);
      JoinSplits(b[0] - 0xF0, b[1]);
      JoinSplits(h1, b[2]);
      JoinSplits(h2, b[3]);
      assert v == Join(h2, b[3]) && v / 4096 == h2 / 64 && v / 262144 == h1 / 64;
    }
  }

  /** The table in section 3 of RFC 3629: how many octets a scalar value takes, and where its bits are. */
  lemma EncodeCharTable(c: char)
    ensures var v, r := c as int, EncodeChar(c);
            && |r| == (if v <= 0x7F then 1 else if v <= 0x7FF then 2 else if v <= 0xFFFF then 3 else 4)
            && (forall i :: 1 <= i < |r| ==> 0x80 <= r[i] <= 0xBF)
            && (|r| == 1 ==> v == r[0])
            && (|r| == 2 ==> 0xC0 <= r[0] <= 0xDF && v == 0x40 * (r[0] as int - 0xC0) + (r[1] as int - 0x80))
            && (|r| == 3 ==> 0xE0 <= r[0] <= 0xEF && v == 0x1000 * (r[0] as int - 0xE0) + 0x40 * (r[1] as int - 0x80) + (r[2] as int - 0x80))
            && (|r| == 4 ==>
                  && 0xF0 <= r[0] <= 0xF7
                  && v == 0x4_0000 * (r[0] as int - 0xF0) + 0x1000 * (r[1] as int - 0x80) + 0x40 * (r[2] as int - 0x80) + (r[3] as int - 0x80))
  {
    SplitJoins(c as int);
    SplitJoins(c as int / 64);
    SplitJoins(c as int / 4096);
  }

  lemma {:induction false} RoundTrip(s: string)
    ensures Decode(Encode(s)) == Some(s)
  {
    if s != [] {
      var e, rest := EncodeChar(s[0]), Encode(s[1..]);
      EncodeCharFront(s[0], rest);
      assert (e + rest)[|e|..] == rest;
      RoundTrip(s[1..]);
      assert [s[0]] + s[1..] == s;
    }
  }

  lemma {:induction false} DecodeSound(b: seq<byte>)
    requires Decode(b).Some?
    ensures Encode(Decode(b).value) == b
  {
    if b != [] {
      var n := Width(b);
      ScalarInverts(b);
      DecodeSound(b[n..]);
      var s := Decode(b).value;
      assert s[1..] == Decode(b[n..]).value;
      assert b[..n] + b[n..] == b;
    }
  }

  /** A string has one encoding and an octet sequence one reading. */
  lemma DecodeIffEncoded(b: seq<byte>, s: string)
    ensures Decode(b) == Some(s) <==> b == Encode(s)
  {
    RoundTrip(s);
    if Decode(b) == Some(s) {
      DecodeSound(b);
    }
  }

  lemma CharPrefixUndecodable(c: char, n: nat)
    requires 0 < n < |EncodeChar(c)|
    ensures Width(EncodeChar(c)[..n]) == 0
    ensures IsTail(EncodeChar(c)[n])
  {
  }

  /** Where a cut encoding still decodes, and to what. */
  lemma {:induction false} PrefixDecodes(s: string, n: nat)
    requires n <= |Encode(s)|
    ensures Decode(Encode(s)[..n]).Some? <==> IsBoundary(Encode(s), n)
    ensures Decode(Encode(s)[..n]).Some? ==> Decode(Encode(s)[..n]).value <= s
  {
    var b := Encode(s);
    if s == [] || n == 0 {
      assert b[..n] == [];
      if s != [] {
        EncodeCharFront(s[0], Encode(s[1..]));
      }
    } else {
      var e, rest := EncodeChar(s[0]), Encode(s[1..]);
      if n < |e| {
        assert b[..n] == e[..n];
        CharPrefixUndecodable(s[0], n);
      } else {
        assert b[..n] == e + rest[..n - |e|];
        EncodeCharFront(s[0], rest[..n - |e|]);
        assert b[..n][|e|..] == rest[..n - |e|];
        PrefixDecodes(s[1..], n - |e|);
        assert n < |b| ==> b[n] == rest[n - |e|];
      }
    }
  }
}
