/** The agent's own base64 (agent/src/platform/windows.rs), and a decoder for section 4 of RFC 4648. */
module Base64 {
  import opened Basics

  type Byte = x: int | 0 <= x < 256

  type Sextet = x: int | 0 <= x < 64

  /** Three bytes side by side; the shifted fields do not overlap, so `|` is addition. */
  function Block(a: Byte, b: Byte, c: Byte): (block: nat)
    ensures block < 0x100_0000
  {
    a * 0x1_0000 + b * 0x100 + c
  }

  /** The alphabet: `A` to `Z`, `a` to `z`, `0` to `9`, `+`, `/`. */
  function Digit(v: Sextet): char {
    if v < 26 then 'A' + v as char
    else if v < 52 then 'a' + (v - 26) as char
    else if v < 62 then '0' + (v - 52) as char
    else if v == 62 then '+'
    else '/'
  }

  const UPPER := "ABCDEFGHIJKLMNOPQRSTUVWXYZ"
  const LOWER := "abcdefghijklmnopqrstuvwxyz"
  const DIGITS := "0123456789"

  lemma Letters(i: nat)
    requires i < 26
    ensures |UPPER| == |LOWER| == 26 && UPPER[i] == 'A' + i as char && LOWER[i] == 'a' + i as char
  {
  }

  lemma Numerals(i: nat)
    requires i < 10
    ensures |DIGITS| == 10 && DIGITS[i] == '0' + i as char
  {
  }

  /** The ranges are the source's table of 64 characters. */
  lemma DigitIsInTable(v: Sextet)
    ensures var alphabet := UPPER + LOWER + DIGITS + "+/"; |alphabet| == 64 && Digit(v) == alphabet[v]
  {
    Letters(if v < 26 then v else if v < 52 then v - 26 else 0);
    Numerals(if 52 <= v < 62 then v - 52 else 0);
  }

  /** The four characters of a chunk of one to three bytes. */
  function EncodeChunk(chunk: seq<Byte>): (text: string)
    requires 1 <= |chunk| <= 3
    ensures |text| == 4
  {
    var block := Block(chunk[0], if |chunk| > 1 then chunk[1] else 0, if |chunk| > 2 then chunk[2] else 0);
    [Digit(block / 0x4_0000 % 64),
     Digit(block / 0x1000 % 64),
     if |chunk| > 1 then Digit(block / 0x40 % 64) else '=',
     if |chunk| > 2 then Digit(block % 64) else '=']
  }

  function Encode(bytes: seq<Byte>): string {
    if bytes == [] then ""
    else if |bytes| <= 3 then EncodeChunk(bytes)
    else EncodeChunk(bytes[..3]) + Encode(bytes[3..])
  }

  method Base64(bytes: seq<Byte>) returns (encoded: string)
    ensures encoded == Encode(bytes)
  {
    encoded := "";
    var i := 0;
    while i < |bytes|
      invariant 0 <= i <= |bytes|
      invariant encoded + Encode(bytes[i..]) == Encode(bytes)
    {
      var chunk := bytes[i..if i + 3 <= |bytes| then i + 3 else |bytes|];
      var group := Group(chunk);
      EncodeStep(bytes, i, chunk);
      Associative(encoded, group, Encode(bytes[i + |chunk|..]));
      encoded := encoded + group;
      i := i + |chunk|;
    }
    assert bytes[i..] == [];
    assert encoded + "" == encoded;
  }

  /** The body of the loop: four characters pushed for one chunk. */
  method Group(chunk: seq<Byte>) returns (group: string)
    requires 1 <= |chunk| <= 3
    ensures group == EncodeChunk(chunk)
  {
    var block := Block(chunk[0], if |chunk| > 1 then chunk[1] else 0, if |chunk| > 2 then chunk[2] else 0);
    group := [Digit(block / 0x4_0000 % 64)];
    group := group + [Digit(block / 0x1000 % 64)];
    group := group + [if |chunk| > 1 then Digit(block / 0x40 % 64) else '='];
    group := group + [if |chunk| > 2 then Digit(block % 64) else '='];
  }

  lemma Associative(a: string, b: string, c: string)
    ensures (a + b) + c == a + (b + c)
  {
  }

  lemma EncodeStep(bytes: seq<Byte>, i: nat, chunk: seq<Byte>)
    requires i < |bytes| && chunk == bytes[i..if i + 3 <= |bytes| then i + 3 else |bytes|]
    ensures Encode(bytes[i..]) == EncodeChunk(chunk) + Encode(bytes[i + |chunk|..])
  {
    var rest := bytes[i..];
    assert chunk == rest[..|chunk|] && rest[|chunk|..] == bytes[i + |chunk|..];
    if |rest| <= 3 {
      assert chunk == rest;
      assert EncodeChunk(chunk) + "" == EncodeChunk(chunk);
    }
  }

  // The decoder.

  function Value(c: char): Option<Sextet> {
    if 'A' <= c <= 'Z' then Some((c - 'A') as int)
    else if 'a' <= c <= 'z' then Some((c - 'a') as int + 26)
    else if '0' <= c <= '9' then Some((c - '0') as int + 52)
    else if c == '+' then Some(62)
    else if c == '/' then Some(63)
    else None
  }

  function Values(digits: string): (sextets: Option<seq<Sextet>>)
    ensures sextets.Some? ==> |sextets.value| == |digits|
  {
    if digits == "" then Some([])
    else
      var first, rest := Value(digits[0]), Values(digits[1..]);
      if first.None? || rest.None? then None else Some([first.value] + rest.value)
  }

  /** How many digits a group has; padding is read only in the last group. */
  function DigitCount(group: string, last: bool): (n: nat)
    requires |group| == 4
    ensures 2 <= n <= 4 && (n == 4 || last)
  {
    if !last || group[3] != '=' then 4 else if group[2] != '=' then 3 else 2
  }

  /** Two to four sextets as bytes; the unused bits must be zero (section 3.5). */
  function BytesOf(s: seq<Sextet>): (chunk: Option<seq<Byte>>)
    requires 2 <= |s| <= 4
    ensures chunk.Some? ==> |chunk.value| == |s| - 1
  {
    var s0: int, s1: int := s[0], s[1];
    var a: Byte := s0 * 4 + s1 / 16;
    if |s| == 2 then
      if s1 % 16 == 0 then Some([a]) else None
    else
      var s2: int := s[2];
      var b: Byte := s1 % 16 * 16 + s2 / 4;
      if |s| == 3 then
        if s2 % 4 == 0 then Some([a, b]) else None
      else
        var c: Byte := s2 % 4 * 64 + s[3];
        Some([a, b, c])
  }

  function DecodeGroup(group: string, last: bool): (chunk: Option<seq<Byte>>)
    requires |group| == 4
    ensures chunk.Some? ==> 1 <= |chunk.value| <= 3 && (last || |chunk.value| == 3)
  {
    var sextets := Values(group[..DigitCount(group, last)]);
    if sextets.None? then None else BytesOf(sextets.value)
  }

  function Decode(text: string): Option<seq<Byte>> {
    if text == "" then Some([])
    else if |text| < 4 then None
    else if |text| == 4 then DecodeGroup(text, true)
    else
      match DecodeGroup(text[..4], false)
      case None => None
      case Some(chunk) =>
        match Decode(text[4..])
        case None => None
        case Some(rest) => Some(chunk + rest)
  }

  // Characters and sextets.

  lemma DigitHasValue(v: Sextet)
    ensures Value(Digit(v)) == Some(v) && Digit(v) != '='
  {
  }

  lemma ValueHasDigit(c: char)
    requires Value(c).Some?
    ensures Digit(Value(c).value) == c
  {
  }

  function Digits(sextets: seq<Sextet>): (digits: string)
    ensures |digits| == |sextets|
  {
    if sextets == [] then "" else [Digit(sextets[0])] + Digits(sextets[1..])
  }

  lemma {:induction false} DigitsHaveValues(sextets: seq<Sextet>)
    ensures Values(Digits(sextets)) == Some(sextets)
    ensures forall k :: 0 <= k < |sextets| ==> Digits(sextets)[k] != '='
  {
    if sextets != [] {
      DigitHasValue(sextets[0]);
      DigitsHaveValues(sextets[1..]);
      assert [sextets[0]] + sextets[1..] == sextets;
    }
  }

  lemma {:induction false} ValuesHaveDigits(digits: string)
    requires Values(digits).Some?
    ensures Digits(Values(digits).value) == digits
  {
    if digits != "" {
      ValueHasDigit(digits[0]);
      ValuesHaveDigits(digits[1..]);
      assert [digits[0]] + digits[1..] == digits;
    }
  }

  /** A group: its digits, filled up with padding. */
  function Padded(digits: string): (group: string)
    requires 2 <= |digits| <= 4
    ensures |group| == 4
  {
    digits + (if |digits| == 4 then "" else if |digits| == 3 then "=" else "==")
  }

  lemma PaddedCount(digits: string, last: bool)
    requires 2 <= |digits| <= 4 && (last || |digits| == 4)
    requires forall k :: 0 <= k < |digits| ==> digits[k] != '='
    ensures Padded(digits)[..DigitCount(Padded(digits), last)] == digits
  {
  }

  lemma CountPadded(group: string, last: bool)
    requires |group| == 4
    ensures Padded(group[..DigitCount(group, last)]) == group
  {
  }

  // Sextets and bytes.

  /** Each sextet of a chunk, from the bits of the one or two bytes it is made of. */
  function SextetsOf(chunk: seq<Byte>): (sextets: seq<Sextet>)
    requires 1 <= |chunk| <= 3
    ensures |sextets| == |chunk| + 1
  {
    if |chunk| == 1 then [chunk[0] / 4, chunk[0] % 4 * 16]
    else if |chunk| == 2 then [chunk[0] / 4, chunk[0] % 4 * 16 + chunk[1] / 16, chunk[1] % 16 * 4]
    else [chunk[0] / 4, chunk[0] % 4 * 16 + chunk[1] / 16, chunk[1] % 16 * 4 + chunk[2] / 64, chunk[2] % 64]
  }

  lemma Quotient(whole: nat, unit: nat, quotient: nat, rest: nat)
    requires rest < unit && whole == unit * quotient + rest
    ensures whole / unit == quotient && whole % unit == rest
  {
    var q := whole / unit;
    assert whole == unit * q + whole % unit;
    if q < quotient {
      Spread(unit, q, quotient);
    } else if quotient < q {
      Spread(unit, quotient, q);
    }
  }

  lemma {:induction false} Spread(unit: nat, a: nat, b: nat)
    requires a < b
    ensures unit * a + unit <= unit * b
  {
    if a + 1 < b {
      Spread(unit, a, b - 1);
      assert unit * (b - 1) + unit == unit * b;
    } else {
      assert unit * a + unit == unit * (a + 1);
    }
  }

  lemma FirstSextet(a: Byte, b: Byte, c: Byte)
    ensures Block(a, b, c) / 0x4_0000 % 64 == a / 4
  {
    Quotient(Block(a, b, c), 0x4_0000, a / 4, a % 4 * 0x1_0000 + b * 0x100 + c);
  }

  lemma SecondSextet(a: Byte, b: Byte, c: Byte)
    ensures Block(a, b, c) / 0x1000 % 64 == a % 4 * 16 + b / 16
  {
    Quotient(Block(a, b, c), 0x1000, a * 16 + b / 16, b % 16 * 0x100 + c);
    Quotient(a * 16 + b / 16, 64, a / 4, a % 4 * 16 + b / 16);
  }

  lemma ThirdSextet(a: Byte, b: Byte, c: Byte)
    ensures Block(a, b, c) / 0x40 % 64 == b % 16 * 4 + c / 64
  {
    Quotient(Block(a, b, c), 0x40, a * 0x400 + b * 4 + c / 64, c % 64);
    Quotient(a * 0x400 + b * 4 + c / 64, 64, a * 16 + b / 16, b % 16 * 4 + c / 64);
  }

  lemma LastSextet(a: Byte, b: Byte, c: Byte)
    ensures Block(a, b, c) % 64 == c % 64
  {
    Quotient(Block(a, b, c), 0x40, a * 0x400 + b * 4 + c / 64, c % 64);
  }

  /** The block's shifted fields are the chunk's sextets. */
  lemma ChunkIsSextets(chunk: seq<Byte>)
    requires 1 <= |chunk| <= 3
    ensures EncodeChunk(chunk) == Padded(Digits(SextetsOf(chunk)))
  {
    var a, b, c := chunk[0], if |chunk| > 1 then chunk[1] else 0, if |chunk| > 2 then chunk[2] else 0;
    FirstSextet(a, b, c);
    SecondSextet(a, b, c);
    ThirdSextet(a, b, c);
    LastSextet(a, b, c);
    var s := SextetsOf(chunk);
    DigitsByIndex(s);
  }

  lemma {:induction false} DigitsByIndex(s: seq<Sextet>)
    ensures forall k :: 0 <= k < |s| ==> Digits(s)[k] == Digit(s[k])
  {
    if s != [] {
      DigitsByIndex(s[1..]);
    }
  }

  /** Bytes put together again from the sextets they were cut into. */
  lemma BytesFromSextets(a: Byte, b: Byte, c: Byte)
    ensures a / 4 * 4 + (a % 4 * 16 + b / 16) / 16 == a
    ensures (a % 4 * 16 + b / 16) % 16 == b / 16
    ensures b / 16 * 16 + (b % 16 * 4 + c / 64) / 4 == b
    ensures (b % 16 * 4 + c / 64) % 4 == c / 64
  {
  }

  lemma BytesInvertSextets(chunk: seq<Byte>)
    requires 1 <= |chunk| <= 3
    ensures BytesOf(SextetsOf(chunk)) == Some(chunk)
  {
    BytesFromSextets(chunk[0], if |chunk| > 1 then chunk[1] else 0, if |chunk| > 2 then chunk[2] else 0);
    assert BytesOf(SextetsOf(chunk)).value == chunk;
  }

  /** Sextets cut again from the bytes they were put together into. */
  lemma SextetsFromBytes(s0: Sextet, s1: Sextet, s2: Sextet, s3: Sextet)
    ensures (s0 * 4 + s1 / 16) / 4 == s0 && (s0 * 4 + s1 / 16) % 4 == s1 / 16
    ensures (s1 % 16 * 16 + s2 / 4) / 16 == s1 % 16 && (s1 % 16 * 16 + s2 / 4) % 16 == s2 / 4
    ensures (s2 % 4 * 64 + s3) / 64 == s2 % 4 && (s2 % 4 * 64 + s3) % 64 == s3
  {
  }

  lemma SextetsInvertBytes(s: seq<Sextet>)
    requires 2 <= |s| <= 4 && BytesOf(s).Some?
    ensures SextetsOf(BytesOf(s).value) == s
  {
    SextetsFromBytes(s[0], s[1], if |s| > 2 then s[2] else 0, if |s| > 3 then s[3] else 0);
  }

  // Both ways.

  lemma GroupDecodes(chunk: seq<Byte>, last: bool)
    requires 1 <= |chunk| <= 3 && (last || |chunk| == 3)
    ensures DecodeGroup(EncodeChunk(chunk), last) == Some(chunk)
  {
    ChunkIsSextets(chunk);
    var sextets := SextetsOf(chunk);
    DigitsHaveValues(sextets);
    PaddedCount(Digits(sextets), last);
    BytesInvertSextets(chunk);
  }

  /** Base64 round trip: decoding inverts encoding on every byte string. */
  lemma {:induction false} DecodeInvertsEncode(bytes: seq<Byte>)
    ensures Decode(Encode(bytes)) == Some(bytes)
  {
    if bytes != [] {
      if |bytes| <= 3 {
        GroupDecodes(bytes, true);
      } else {
        GroupDecodes(bytes[..3], false);
        DecodeInvertsEncode(bytes[3..]);
        EncodedLength(bytes[3..]);
        var text := Encode(bytes);
        assert text[..4] == EncodeChunk(bytes[..3]) && text[4..] == Encode(bytes[3..]);
        assert bytes[..3] + bytes[3..] == bytes;
      }
    }
  }

  lemma {:induction false} EncodeFirst(bytes: seq<Byte>)
    requires |bytes| > 3
    ensures Encode(bytes)[..4] == EncodeChunk(bytes[..3]) && Encode(bytes)[4..] == Encode(bytes[3..])
    ensures |Encode(bytes)| == 4 + |Encode(bytes[3..])|
  {
  }

  function Groups(n: nat): nat {
    if n == 0 then 0 else if n <= 3 then 1 else 1 + Groups(n - 3)
  }

  lemma {:induction false} EncodedGroups(bytes: seq<Byte>)
    ensures |Encode(bytes)| == 4 * Groups(|bytes|)
  {
    if |bytes| > 3 {
      EncodeFirst(bytes);
      EncodedGroups(bytes[3..]);
    }
  }

  lemma {:induction false} GroupsAreThirds(n: nat)
    ensures Groups(n) == (n + 2) / 3
  {
    if n > 3 {
      GroupsAreThirds(n - 3);
    }
  }

  /** Four characters for every three bytes, the last group filled up. */
  lemma {:induction false} EncodedLength(bytes: seq<Byte>)
    ensures |Encode(bytes)| == 4 * ((|bytes| + 2) / 3)
  {
    EncodedGroups(bytes);
    GroupsAreThirds(|bytes|);
  }

  lemma PaddingInChunk(chunk: seq<Byte>, k: nat)
    requires 1 <= |chunk| <= 3 && k < 4
    ensures EncodeChunk(chunk)[k] == '=' <==> k > |chunk|
  {
    ChunkIsSextets(chunk);
    DigitsHaveValues(SextetsOf(chunk));
  }

  /** How many bytes the last group lacks. */
  function Missing(n: nat): nat {
    if n % 3 == 0 then 0 else 3 - n % 3
  }

  lemma MissingAfterGroup(n: nat)
    requires n > 3
    ensures Missing(n) == Missing(n - 3) <= 2
  {
    assert n % 3 == (n - 3) % 3;
  }

  lemma MissingShort(n: nat)
    requires 1 <= n <= 3
    ensures Missing(n) == 3 - n
  {
  }

  lemma PaddingOfOne(bytes: seq<Byte>, k: nat)
    requires 1 <= |bytes| <= 3 && k < 4
    ensures EncodeChunk(bytes)[k] == '=' <==> k >= 4 - Missing(|bytes|)
  {
    PaddingInChunk(bytes, k);
    MissingShort(|bytes|);
  }

  /** Padding appears only at the end: as many `=` as the last group lacks bytes, and nowhere else. */
  lemma {:induction false} PaddingIsLast(bytes: seq<Byte>, k: nat)
    requires k < |Encode(bytes)|
    ensures Encode(bytes)[k] == '=' <==> k >= |Encode(bytes)| - Missing(|bytes|)
  {
    if |bytes| <= 3 {
      PaddingOfOne(bytes, k);
    } else {
      var text, rest := Encode(bytes), Encode(bytes[3..]);
      EncodeFirst(bytes);
      EncodedGroups(bytes[3..]);
      MissingAfterGroup(|bytes|);
      if k < 4 {
        PaddingInChunk(bytes[..3], k);
        assert text[k] == text[..4][k];
      } else {
        PaddingIsLast(bytes[3..], k - 4);
        assert text[k] == text[4..][k - 4];
      }
    }
  }

  // The encoding is the only text that decodes to its bytes.

  lemma GroupEncodes(group: string, last: bool)
    requires |group| == 4 && DecodeGroup(group, last).Some?
    ensures EncodeChunk(DecodeGroup(group, last).value) == group
  {
    var digits := group[..DigitCount(group, last)];
    ValuesHaveDigits(digits);
    SextetsInvertBytes(Values(digits).value);
    CountPadded(group, last);
    ChunkIsSextets(DecodeGroup(group, last).value);
  }

  lemma {:induction false} DecodedNotEmpty(text: string)
    requires text != "" && Decode(text).Some?
    ensures Decode(text).value != []
  {
  }

  lemma {:induction false} EncodeInvertsDecode(text: string)
    requires Decode(text).Some?
    ensures Encode(Decode(text).value) == text
  {
    if text != "" {
      if |text| == 4 {
        GroupEncodes(text, true);
      } else {
        GroupEncodes(text[..4], false);
        EncodeInvertsDecode(text[4..]);
        var chunk, rest := DecodeGroup(text[..4], false).value, Decode(text[4..]).value;
        assert (chunk + rest)[..3] == chunk && (chunk + rest)[3..] == rest;
        assert text[..4] + text[4..] == text;
        DecodedNotEmpty(text[4..]);
      }
    }
  }

  /**
    Every text decodes to at most one byte string, and the only text that decodes to `bytes` is
    its encoding: decoder and encoder are inverse in both directions.
   */
  lemma {:induction false} DecodesIffEncoded(text: string, bytes: seq<Byte>)
    ensures Decode(text) == Some(bytes) <==> text == Encode(bytes)
  {
    DecodeInvertsEncode(bytes);
    if Decode(text) == Some(bytes) {
      EncodeInvertsDecode(text);
    }
  }
}
