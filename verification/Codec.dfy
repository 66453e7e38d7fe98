/**
 The persisted-state codec (`daemon/persistence/mod.rs`).

 The `Encode*`, `Parse*` and `Decode*` functions describe the value layout; the
 methods are the buffer-appending encoder and the cursor-advancing decoder,
 proved equal to them.
 */
module Codec {
  import opened Common
  import Utf8

  datatype PersistedState = PersistedState(armed: bool, nextFire: Option<i64>, sound: Option<string>)

  const DEFAULT_STATE := PersistedState(false, None, None)

  /** The reasons behind `PersistenceError::Corrupted`. */
  datatype Corruption =
    | UnsupportedVersion(version: byte)
    | MissingNextFire
    | UnknownNextFireTag(tag: byte)
    | MissingSoundLength
    | MissingSoundBody
    | UnknownSoundTag(tag: byte)
    | SoundNotUtf8

  type Decoded = Result<PersistedState, Corruption>

  const MAGIC: seq<byte> := [0x41, 0x44]
  const VERSION: byte := 1
  const PREFIX: seq<byte> := MAGIC + [VERSION]
  const U16_MAX := 0xFFFF
  const TWO_64 := 0x1_0000_0000_0000_0000

  // Little-endian integers

  function Pow256(n: nat): nat {
    if n == 0 then 1 else 256 * Pow256(n - 1)
  }

  function ToLe(u: nat, n: nat): (b: seq<byte>)
    ensures |b| == n
  {
    if n == 0 then [] else [u % 256] + ToLe(u / 256, n - 1)
  }

  function FromLe(b: seq<byte>): nat {
    if b == [] then 0 else b[0] + 256 * FromLe(b[1..])
  }

  lemma {:induction false} LeRoundTrip(u: nat, n: nat)
    requires u < Pow256(n)
    ensures FromLe(ToLe(u, n)) == u
  {
    if n > 0 {
      LeRoundTrip(u / 256, n - 1);
      assert ToLe(u, n)[1..] == ToLe(u / 256, n - 1);
    }
  }

  lemma {:induction false} FromLeBound(b: seq<byte>)
    ensures FromLe(b) < Pow256(|b|)
  {
    if b != [] {
      FromLeBound(b[1..]);
    }
  }

  lemma Pow256Eight()
    ensures Pow256(8) == TWO_64 && Pow256(2) == U16_MAX + 1
  {
  }

  /** `i64::to_le_bytes`. */
  function I64ToLe(v: i64): (b: seq<byte>)
    ensures |b| == 8
  {
    ToLe(if v < 0 then v + TWO_64 else v, 8)
  }

  /** `i64::from_le_bytes`. */
  function I64FromLe(b: seq<byte>): i64
    requires |b| == 8
  {
    FromLeBound(b);
    Pow256Eight();
    var u := FromLe(b);
    if u > I64_MAX then u - TWO_64 else u
  }

  lemma I64RoundTrip(v: i64)
    ensures I64FromLe(I64ToLe(v)) == v
  {
    Pow256Eight();
    LeRoundTrip(if v < 0 then v + TWO_64 else v, 8);
  }

  /** Eight octets as an unsigned number, least significant first. */
  function Octets8(b: seq<byte>): nat
    requires |b| == 8
  {
    b[0] as int + 0x100 * b[1] as int + 0x1_0000 * b[2] as int + 0x100_0000 * b[3] as int
    + 0x1_0000_0000 * b[4] as int + 0x100_0000_0000 * b[5] as int
    + 0x1_0000_0000_0000 * b[6] as int + 0x100_0000_0000_0000 * b[7] as int
  }

  function Octets2(lo: byte, hi: byte): nat {
    lo as int + 0x100 * hi as int
  }

  lemma FromLeTwo(b: seq<byte>)
    requires |b| == 2
    ensures FromLe(b) == Octets2(b[0], b[1])
  {
    assert FromLe(b[1..]) == b[1] as int + 256 * FromLe(b[1..][1..]);
  }

  lemma FromLeEight(b: seq<byte>)
    requires |b| == 8
    ensures FromLe(b) == Octets8(b)
  {
    FromLeTwo(b[6..]);
    assert FromLe(b[5..]) == b[5] + 256 * FromLe(b[6..]);
    assert FromLe(b[4..]) == b[4] + 256 * FromLe(b[5..]);
    assert FromLe(b[3..]) == b[3] + 256 * FromLe(b[4..]);
    assert FromLe(b[2..]) == b[2] + 256 * FromLe(b[3..]);
    assert FromLe(b[1..]) == b[1] + 256 * FromLe(b[2..]);
  }

  lemma LowDigit(low: byte, high: nat)
    ensures (low as int + 256 * high) % 256 == low as int && (low as int + 256 * high) / 256 == high
  {
  }

  lemma {:induction false} LeUnique(b: seq<byte>)
    ensures ToLe(FromLe(b), |b|) == b
  {
    if b != [] {
      LeUnique(b[1..]);
      LowDigit(b[0], FromLe(b[1..]));
      assert b == [b[0]] + b[1..];
    }
  }

  /** Two's complement, least significant octet first; and every eight octets are such a number. */
  lemma I64Octets(v: i64, b: seq<byte>)
    ensures Octets8(I64ToLe(v)) == if v < 0 then v + 0x1_0000_0000_0000_0000 else v
    ensures |b| == 8 ==> I64ToLe(I64FromLe(b)) == b
  {
    Pow256Eight();
    LeRoundTrip(if v < 0 then v + TWO_64 else v, 8);
    FromLeEight(I64ToLe(v));
    if |b| == 8 {
      LeUnique(b);
      FromLeBound(b);
    }
  }

  // Layout

  /** The sound bytes that reach the store: at most a `u16` length of them. */
  function Capped(s: string): (b: seq<byte>)
    ensures |b| <= U16_MAX
  {
    Utf8.Encode(s)[..Min(|Utf8.Encode(s)|, U16_MAX)]
  }

  function EncodeNextFire(o: Option<i64>): seq<byte> {
    match o
    case None => [0]
    case Some(v) => [1] + I64ToLe(v)
  }

  function EncodeSound(o: Option<string>): seq<byte> {
    match o
    case None => [0]
    case Some(s) => [1] + ToLe(|Capped(s)|, 2) + Capped(s)
  }

  function EncodeBody(s: PersistedState): seq<byte> {
    [if s.armed then 1 else 0] + (EncodeNextFire(s.nextFire) + EncodeSound(s.sound))
  }

  function Encode(s: PersistedState): seq<byte> {
    PREFIX + EncodeBody(s)
  }

  /** The next-fire field at the front of `b`, and what follows it. */
  function ParseNextFire(b: seq<byte>): Result<(Option<i64>, seq<byte>), Corruption>
    requires b != []
  {
    if b[0] == 0 then Ok((None, b[1..]))
    else if b[0] == 1 then
      if |b| < 9 then Err(MissingNextFire) else Ok((Some(I64FromLe(b[1..9])), b[9..]))
    else Err(UnknownNextFireTag(b[0]))
  }

  function ParseSound(b: seq<byte>): Result<Option<string>, Corruption> {
    if b == [] || b[0] == 0 then Ok(None)
    else if b[0] == 1 then
      if |b| < 3 then Err(MissingSoundLength)
      else
        var len := FromLe(b[1..3]);
        if |b| < 3 + len then Err(MissingSoundBody)
        else
          match Utf8.Decode(b[3..3 + len])
          case None => Err(SoundNotUtf8)
          case Some(t) => Ok(Some(t))
    else Err(UnknownSoundTag(b[0]))
  }

  function DecodeBody(b: seq<byte>): Decoded {
    if b == [] then Ok(DEFAULT_STATE)
    else
      var armed := b[0] != 0;
      if |b| == 1 then Ok(PersistedState(armed, None, None))
      else
        match ParseNextFire(b[1..])
        case Err(e) => Err(e)
        case Ok((nextFire, rest)) =>
          match ParseSound(rest)
          case Err(e) => Err(e)
          case Ok(sound) => Ok(PersistedState(armed, nextFire, sound))
  }

  predicate HasMagic(b: seq<byte>) {
    |b| >= 3 && b[..2] == MAGIC
  }

  function Decode(b: seq<byte>): Decoded {
    if HasMagic(b) then
      if b[2] == VERSION then DecodeBody(b[3..]) else Err(UnsupportedVersion(b[2]))
    else DecodeBody(b)
  }

  // The imperative encoder and decoder

  method WriteBody(state: PersistedState, buffer: seq<byte>) returns (out: seq<byte>)
    ensures out == buffer + EncodeBody(state)
  {
    out := buffer;
    ghost var flag: seq<byte> := [if state.armed then 1 else 0];
    out := out + [if state.armed then 1 else 0];
    out := WriteNextFire(state.nextFire, out);
    out := WriteSound(state.sound, out);
    Reassociate(buffer + flag, EncodeNextFire(state.nextFire), EncodeSound(state.sound));
    Reassociate(buffer, flag, EncodeNextFire(state.nextFire) + EncodeSound(state.sound));
  }

  method WriteNextFire(nextFire: Option<i64>, buffer: seq<byte>) returns (out: seq<byte>)
    ensures out == buffer + EncodeNextFire(nextFire)
  {
    out := buffer;
    match nextFire {
      case Some(v) =>
        out := out + [1];
        out := out + I64ToLe(v);
      case None =>
        out := out + [0];
    }
  }

  method WriteSound(sound: Option<string>, buffer: seq<byte>) returns (out: seq<byte>)
    ensures out == buffer + EncodeSound(sound)
  {
    out := buffer;
    match sound {
      case Some(s) =>
        var bytes := Utf8.Encode(s);
        var len := if |bytes| <= U16_MAX then |bytes| else U16_MAX;
        out := out + [1];
        out := out + ToLe(len, 2);
        out := out + bytes[..len];
      case None =>
        out := out + [0];
    }
  }

  method WriteState(state: PersistedState) returns (out: seq<byte>)
    ensures out == Encode(state)
  {
    out := MAGIC;
    out := out + [VERSION];
    out := WriteBody(state, out);
  }

  lemma SliceOfRest(b: seq<byte>, at: nat, lo: nat, hi: nat)
    requires lo <= hi && at + hi <= |b|
    ensures b[at..][lo..hi] == b[at + lo..at + hi]
  {
  }

  method ReadBody(bytes: seq<byte>) returns (r: Decoded)
    ensures r == DecodeBody(bytes)
  {
    if |bytes| == 0 {
      return Ok(DEFAULT_STATE);
    }
    var armed := bytes[0] != 0;
    var cursor := 1;
    if cursor == |bytes| {
      return Ok(PersistedState(armed, None, None));
    }
    ghost var fields := bytes[1..];
    var nextFire: Option<i64> := None;
    if bytes[cursor] == 0 {
      cursor := cursor + 1;
    } else if bytes[cursor] == 1 {
      cursor := cursor + 1;
      if |bytes| < cursor + 8 {
        return Err(MissingNextFire);
      }
      SliceOfRest(bytes, 1, 1, 9);
      nextFire := Some(I64FromLe(bytes[cursor..cursor + 8]));
      cursor := cursor + 8;
    } else {
      return Err(UnknownNextFireTag(bytes[cursor]));
    }
    assert ParseNextFire(fields) == Ok((nextFire, bytes[cursor..]));
    ghost var rest := bytes[cursor..];
    if cursor == |bytes| || bytes[cursor] == 0 {
      return Ok(PersistedState(armed, nextFire, None));
    }
    if bytes[cursor] != 1 {
      return Err(UnknownSoundTag(bytes[cursor]));
    }
    cursor := cursor + 1;
    if |bytes| < cursor + 2 {
      return Err(MissingSoundLength);
    }
    SliceOfRest(bytes, cursor - 1, 1, 3);
    var len := FromLe(bytes[cursor..cursor + 2]);
    cursor := cursor + 2;
    if |bytes| < cursor + len {
      return Err(MissingSoundBody);
    }
    SliceOfRest(bytes, cursor - 3, 3, 3 + len);
    match Utf8.Decode(bytes[cursor..cursor + len]) {
      case None => return Err(SoundNotUtf8);
      case Some(t) => return Ok(PersistedState(armed, nextFire, Some(t)));
    }
  }

  method ReadState(bytes: seq<byte>) returns (r: Decoded)
    ensures r == Decode(bytes)
  {
    if |bytes| >= 3 && bytes[0..2] == MAGIC {
      if bytes[2] != VERSION {
        return Err(UnsupportedVersion(bytes[2]));
      }
      r := ReadBody(bytes[3..]);
    } else {
      r := ReadBody(bytes);
    }
  }

  // The layout in numerals

  /** Every octet of every saved value. */
  lemma LayoutExact(s: PersistedState)
    ensures var b := Encode(s);
            var at := if s.nextFire.None? then 5 else 13;
            && |b| > at
            && b[..4] == [0x41, 0x44, 1, if s.armed then 1 else 0]
            && (s.nextFire.None? ==> b[4] == 0)
            && (s.nextFire.Some? ==>
                  var v := s.nextFire.value;
                  b[4] == 1 && Octets8(b[5..13]) == if v < 0 then v + 0x1_0000_0000_0000_0000 else v)
            && (s.sound.None? ==> b[at..] == [0])
            && (s.sound.Some? ==>
                  var utf8 := Utf8.Encode(s.sound.value);
                  var len := Min(|utf8|, 65535);
                  |b| == at + 3 + len && b[at] == 1 && Octets2(b[at + 1], b[at + 2]) == len && b[at + 3..] == utf8[..len])
  {
    var b := Encode(s);
    var flag: seq<byte> := [if s.armed then 1 else 0];
    var fire, sound := EncodeNextFire(s.nextFire), EncodeSound(s.sound);
    assert b == PREFIX + flag + fire + sound;
    var at := if s.nextFire.None? then 5 else 13;
    assert b[4..at] == fire && b[at..] == sound;
    FireLayout(s.nextFire);
    assert s.nextFire.Some? ==> b[5..13] == fire[1..];
    SoundLayout(s.sound);
    assert s.sound.Some? ==> b[at] == sound[0] && b[at + 1] == sound[1] && b[at + 2] == sound[2] && b[at + 3..] == sound[3..];
  }

  lemma FireLayout(o: Option<i64>)
    ensures var b := EncodeNextFire(o);
            && |b| == (if o.None? then 1 else 9)
            && b[0] == (if o.None? then 0 else 1)
            && (o.Some? ==> Octets8(b[1..]) == if o.value < 0 then o.value + 0x1_0000_0000_0000_0000 else o.value)
  {
    if o.Some? {
      I64Octets(o.value, []);
      assert EncodeNextFire(o)[1..] == I64ToLe(o.value);
    }
  }

  lemma SoundLayout(o: Option<string>)
    ensures var b := EncodeSound(o);
            && (o.None? ==> b == [0])
            && (o.Some? ==>
                  var utf8 := Utf8.Encode(o.value);
                  var len := Min(|utf8|, 65535);
                  |b| == 3 + len && b[0] == 1 && Octets2(b[1], b[2]) == len && b[3..] == utf8[..len])
  {
    if o.Some? {
      var b, body := EncodeSound(o), Capped(o.value);
      Pow256Eight();
      LeRoundTrip(|body|, 2);
      FromLeTwo(ToLe(|body|, 2));
      assert b[1..3] == ToLe(|body|, 2);
      assert b[1] == b[1..3][0] && b[2] == b[1..3][1];
      assert b[3..] == body;
    }
  }

  /** `b` is a body that stands for `s`: its fields one after the other and then anything, or the same cut before an optional field. */
  ghost predicate Denotes(b: seq<byte>, s: PersistedState) {
    if b == [] then s == PersistedState(false, None, None)
    else
      && s.armed == (b[0] != 0)
      && Fits(s.sound)
      && if |b| == 1 then s.nextFire.None? && s.sound.None?
         else if b[1..] == EncodeNextFire(s.nextFire) then s.sound.None?
         else EncodeNextFire(s.nextFire) + EncodeSound(s.sound) <= b[1..]
  }

  lemma DenotesDecodes(b: seq<byte>, s: PersistedState)
    requires Denotes(b, s)
    ensures DecodeBody(b) == Ok(s)
  {
    if |b| > 1 {
      var fire, sound := EncodeNextFire(s.nextFire), EncodeSound(s.sound);
      if b[1..] == fire {
        ParseNextFireOf(s.nextFire, []);
        assert fire + [] == fire;
      } else {
        var junk := b[1..][|fire + sound|..];
        assert b[1..] == fire + (sound + junk);
        ParseNextFireOf(s.nextFire, sound + junk);
        ParseSoundOf(s.sound, junk);
        StoredSound(s.sound);
      }
    }
  }

  lemma StoredSound(o: Option<string>)
    requires Fits(o)
    ensures SoundOutcome(o) == Ok(o)
  {
    if o.Some? {
      assert Capped(o.value) == Utf8.Encode(o.value);
      Utf8.RoundTrip(o.value);
    }
  }

  lemma NextFireUnparsed(b: seq<byte>)
    requires b != [] && ParseNextFire(b).Ok?
    ensures var (o, rest) := ParseNextFire(b).value; b == EncodeNextFire(o) + rest
  {
    if b[0] == 1 {
      I64Octets(0, b[1..9]);
    }
  }

  lemma SoundUnparsed(b: seq<byte>)
    requires ParseSound(b).Ok?
    ensures Fits(ParseSound(b).value)
    ensures (b == [] && ParseSound(b).value.None?) || EncodeSound(ParseSound(b).value) <= b
  {
    ParsedSoundFits(b);
    if b != [] && b[0] == 1 {
      var len := FromLe(b[1..3]);
      Utf8.DecodeSound(b[3..3 + len]);
      LeUnique(b[1..3]);
      assert Capped(ParseSound(b).value.value) == b[3..3 + len];
      assert b[..3 + len] == [1] + b[1..3] + b[3..3 + len];
    }
  }

  lemma DecodesDenoted(b: seq<byte>)
    requires DecodeBody(b).Ok?
    ensures Denotes(b, DecodeBody(b).value)
  {
    if |b| > 1 {
      NextFireUnparsed(b[1..]);
      var (o, rest) := ParseNextFire(b[1..]).value;
      SoundUnparsed(rest);
      if rest == [] {
        assert b[1..] == EncodeNextFire(o);
      } else {
        assert EncodeNextFire(o) + EncodeSound(ParseSound(rest).value) <= b[1..];
      }
    }
  }

  /** Which byte strings load, and as what: exactly those whose body, after the magic and version 1 or with neither, stands for a state. */
  lemma DecodesExactly(b: seq<byte>, s: PersistedState)
    ensures var magic := |b| >= 3 && b[0] == 0x41 && b[1] == 0x44;
            Decode(b) == Ok(s) <==> if magic then b[2] == 1 && Denotes(b[3..], s) else Denotes(b, s)
  {
    assert |b| >= 2 ==> b[..2] == [b[0], b[1]];
    var body := if HasMagic(b) then b[3..] else b;
    if Denotes(body, s) {
      DenotesDecodes(body, s);
    }
    if DecodeBody(body) == Ok(s) {
      DecodesDenoted(body);
    }
  }

  /** Which byte strings are refused, and why. */
  lemma RefusesExactly(b: seq<byte>)
    ensures var magic := |b| >= 3 && b[0] == 0x41 && b[1] == 0x44;
            var body := if magic then b[3..] else b;
            if magic && b[2] != 1 then Decode(b) == Err(UnsupportedVersion(b[2]))
            else if |body| < 2 then Decode(b).Ok?
            else if body[1] > 1 then Decode(b) == Err(UnknownNextFireTag(body[1]))
            else if body[1] == 1 && |body| < 10 then Decode(b) == Err(MissingNextFire)
            else
              var field := body[if body[1] == 0 then 2 else 10..];
              if |field| == 0 || field[0] == 0 then Decode(b).Ok?
              else if field[0] > 1 then Decode(b) == Err(UnknownSoundTag(field[0]))
              else if |field| < 3 then Decode(b) == Err(MissingSoundLength)
              else
                var len := Octets2(field[1], field[2]);
                if |field| < 3 + len then Decode(b) == Err(MissingSoundBody)
                else if IsUtf8(field[3..3 + len]) then Decode(b).Ok?
                else Decode(b) == Err(SoundNotUtf8)
  {
    assert |b| >= 2 ==> b[..2] == [b[0], b[1]];
    var body := if HasMagic(b) then b[3..] else b;
    if |body| >= 2 && body[1] <= 1 && (body[1] == 1 ==> |body| >= 10) {
      var field := body[if body[1] == 0 then 2 else 10..];
      assert ParseNextFire(body[1..]).Ok? && ParseNextFire(body[1..]).value.1 == field;
      SoundRefuses(field);
    }
  }

  lemma SoundRefuses(field: seq<byte>)
    ensures if |field| == 0 || field[0] == 0 then ParseSound(field).Ok?
            else if field[0] > 1 then ParseSound(field) == Err(UnknownSoundTag(field[0]))
            else if |field| < 3 then ParseSound(field) == Err(MissingSoundLength)
            else
              var len := Octets2(field[1], field[2]);
              if |field| < 3 + len then ParseSound(field) == Err(MissingSoundBody)
              else if IsUtf8(field[3..3 + len]) then ParseSound(field).Ok?
              else ParseSound(field) == Err(SoundNotUtf8)
  {
    if |field| >= 3 {
      FromLeTwo(field[1..3]);
      var len := Octets2(field[1], field[2]);
      if |field| >= 3 + len {
        Utf8Decodable(field[3..3 + len]);
      }
    }
  }

  /** Some string is written so. */
  ghost predicate IsUtf8(b: seq<byte>) {
    exists t: string :: Utf8.Encode(t) == b
  }

  lemma Utf8Decodable(b: seq<byte>)
    ensures Utf8.Decode(b).Some? <==> IsUtf8(b)
  {
    if Utf8.Decode(b).Some? {
      Utf8.DecodeSound(b);
    }
    if t: string :| Utf8.Encode(t) == b {
      Utf8.RoundTrip(t);
    }
  }

  // Round trips

  /** The sound id fits the `u16` length field. */
  predicate Fits(sound: Option<string>) {
    sound.Some? ==> |Utf8.Encode(sound.value)| <= U16_MAX
  }

  /** What a stored sound id reads back as. */
  function SoundOutcome(o: Option<string>): Result<Option<string>, Corruption> {
    match o
    case None => Ok(None)
    case Some(s) =>
      match Utf8.Decode(Capped(s))
      case None => Err(SoundNotUtf8)
      case Some(t) => Ok(Some(t))
  }

  lemma ParseNextFireOf(o: Option<i64>, rest: seq<byte>)
    ensures ParseNextFire(EncodeNextFire(o) + rest) == Ok((o, rest))
  {
    var b := EncodeNextFire(o) + rest;
    if o.Some? {
      I64RoundTrip(o.value);
      assert b[1..9] == I64ToLe(o.value);
      assert b[9..] == rest;
    } else {
      assert b[1..] == rest;
    }
  }

  lemma ParseSoundOf(o: Option<string>, rest: seq<byte>)
    ensures ParseSound(EncodeSound(o) + rest) == SoundOutcome(o)
  {
    var b := EncodeSound(o) + rest;
    if o.Some? {
      var body := Capped(o.value);
      Pow256Eight();
      LeRoundTrip(|body|, 2);
      assert b[1..3] == ToLe(|body|, 2);
      assert b[3..3 + |body|] == body;
    }
  }

  lemma DecodeBodyOf(s: PersistedState, rest: seq<byte>)
    ensures DecodeBody(EncodeBody(s) + rest) ==
            match SoundOutcome(s.sound)
            case Err(e) => Err(e)
            case Ok(t) => Ok(s.(sound := t))
  {
    var flag: seq<byte> := [if s.armed then 1 else 0];
    var fire, sound := EncodeNextFire(s.nextFire), EncodeSound(s.sound);
    Reassociate(flag, fire + sound, rest);
    Reassociate(fire, sound, rest);
    assert (flag + (fire + (sound + rest)))[1..] == fire + (sound + rest);
    ParseNextFireOf(s.nextFire, sound + rest);
    ParseSoundOf(s.sound, rest);
  }

  lemma Reassociate(a: seq<byte>, b: seq<byte>, c: seq<byte>)
    ensures (a + b) + c == a + (b + c)
  {
  }

  lemma VersionedDispatch(body: seq<byte>)
    ensures Decode(PREFIX + body) == DecodeBody(body)
  {
  }

  /** Octets after a complete encoding are never looked at. */
  lemma TrailingBytesIgnored(s: PersistedState, junk: seq<byte>)
    ensures Decode(Encode(s) + junk) == Decode(Encode(s))
    ensures DecodeBody(EncodeBody(s) + junk) == DecodeBody(EncodeBody(s))
  {
    assert Encode(s) + junk == PREFIX + (EncodeBody(s) + junk);
    VersionedDispatch(EncodeBody(s) + junk);
    VersionedDispatch(EncodeBody(s));
    DecodeBodyOf(s, junk);
    DecodeBodyOf(s, []);
    assert EncodeBody(s) + [] == EncodeBody(s);
  }

  /** The exact outcome of saving and loading any state. */
  lemma RoundTripExact(s: PersistedState)
    ensures Decode(Encode(s)) == Ok(s) <==> Fits(s.sound)
    ensures !Fits(s.sound) ==>
              var utf8 := Utf8.Encode(s.sound.value);
              if Utf8.IsBoundary(utf8, U16_MAX) then
                exists t: string ::
                  t <= s.sound.value && Utf8.Encode(t) == utf8[..U16_MAX] && Decode(Encode(s)) == Ok(s.(sound := Some(t)))
              else
                Decode(Encode(s)) == Err(SoundNotUtf8)
  {
    VersionedDispatch(EncodeBody(s));
    DecodeBodyOf(s, []);
    assert EncodeBody(s) + [] == EncodeBody(s);
    if s.sound.Some? {
      var id := s.sound.value;
      var utf8 := Utf8.Encode(id);
      if Fits(s.sound) {
        assert Capped(id) == utf8;
        Utf8.RoundTrip(id);
      } else {
        Utf8.PrefixDecodes(id, U16_MAX);
        if Utf8.Decode(Capped(id)).Some? {
          Utf8.DecodeSound(Capped(id));
        }
      }
    }
  }

  /** An unprefixed v0 body reads like its versioned form, whatever follows it. */
  lemma LegacyBodySame(s: PersistedState, junk: seq<byte>)
    ensures Decode(EncodeBody(s) + junk) == Decode(Encode(s))
  {
    var b := EncodeBody(s) + junk;
    assert b[0] != MAGIC[0];
    assert |b| >= 2 ==> b[..2][0] == b[0];
    TrailingBytesIgnored(s, junk);
    VersionedDispatch(EncodeBody(s));
  }

  /** The magic test never takes a value away from the v0 reader: no v0 body starts with the magic. */
  lemma MagicShadowsNothing(b: seq<byte>)
    requires HasMagic(b)
    ensures DecodeBody(b) == Err(UnknownNextFireTag(0x44))
  {
  }

  lemma ParsedSoundFits(b: seq<byte>)
    ensures ParseSound(b).Ok? ==> Fits(ParseSound(b).value)
  {
    if ParseSound(b).Ok? && ParseSound(b).value.Some? {
      var len := FromLe(b[1..3]);
      FromLeBound(b[1..3]);
      Pow256Eight();
      Utf8.DecodeSound(b[3..3 + len]);
    }
  }

  /** Whatever loads can be saved again and loads unchanged. */
  lemma ReencodeStable(b: seq<byte>)
    requires Decode(b).Ok?
    ensures Fits(Decode(b).value.sound)
    ensures Decode(Encode(Decode(b).value)) == Decode(b)
  {
    var body := if HasMagic(b) then b[3..] else b;
    if |body| >= 2 {
      var rest := ParseNextFire(body[1..]).value.1;
      ParsedSoundFits(rest);
    }
    RoundTripExact(Decode(b).value);
  }

  /** A cut next-fire field followed by nothing. */
  lemma ParseNextFirePrefix(o: Option<i64>, n: nat)
    requires 0 < n < |EncodeNextFire(o)|
    ensures ParseNextFire(EncodeNextFire(o)[..n]) == Err(MissingNextFire)
  {
  }

  lemma ParseSoundPrefix(o: Option<string>, n: nat)
    requires 0 < n < |EncodeSound(o)|
    ensures ParseSound(EncodeSound(o)[..n]) == Err(if n < 3 then MissingSoundLength else MissingSoundBody)
  {
    var b := EncodeSound(o)[..n];
    assert o.Some?;
    if n >= 3 {
      var body := Capped(o.value);
      var len := ToLe(|body|, 2);
      Pow256Eight();
      LeRoundTrip(|body|, 2);
      assert EncodeSound(o) == [1] + len + body;
      assert b[1] == len[0] && b[2] == len[1];
      assert b[1..3] == len;
    }
  }

  /**
   What every truncated value of at least four octets loads as: the original with
   its trailing optional fields erased when the cut is between fields, and a
   `Corrupted` error when it is inside one.
   */
  lemma TruncationExact(s: PersistedState, n: nat)
    requires 4 <= n < |Encode(s)|
    ensures var soundAt := 4 + |EncodeNextFire(s.nextFire)|;
            Decode(Encode(s)[..n]) ==
            if n == 4 then Ok(PersistedState(s.armed, None, None))
            else if n < soundAt then Err(MissingNextFire)
            else if n == soundAt then Ok(PersistedState(s.armed, s.nextFire, None))
            else if n < soundAt + 3 then Err(MissingSoundLength)
            else Err(MissingSoundBody)
  {
    assert Encode(s)[..n] == PREFIX + EncodeBody(s)[..n - 3];
    VersionedDispatch(EncodeBody(s)[..n - 3]);
    var fire, sound := EncodeNextFire(s.nextFire), EncodeSound(s.sound);
    assert EncodeBody(s)[..n - 3][1..] == (fire + sound)[..n - 4];
    if n > 4 {
      if n < 4 + |fire| {
        assert (fire + sound)[..n - 4] == fire[..n - 4];
        ParseNextFirePrefix(s.nextFire, n - 4);
      } else {
        var m := n - 4 - |fire|;
        assert (fire + sound)[..n - 4] == fire + sound[..m];
        ParseNextFireOf(s.nextFire, sound[..m]);
        if m > 0 {
          ParseSoundPrefix(s.sound, m);
        }
      }
    }
  }

  /** Shorter cuts lose the armed flag: three octets load as disarmed, one as armed whatever was saved. */
  lemma ShortTruncations(s: PersistedState)
    ensures Decode(Encode(s)[..0]) == Ok(PersistedState(false, None, None))
    ensures Decode(Encode(s)[..1]) == Ok(PersistedState(true, None, None))
    ensures Decode(Encode(s)[..2]) == Err(UnknownNextFireTag(0x44))
    ensures Decode(Encode(s)[..3]) == Ok(PersistedState(false, None, None))
  {
  }
}
