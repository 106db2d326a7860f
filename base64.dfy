/**
 The vault's text-safe byte encoding. `arrayToBase64` turns the bytes into a
 Latin-1 string (one character per byte) and hands it to `btoa`, which is the
 base64 of RFC 4648, section 4, with `=` padding. `base64ToArray` runs `atob`,
 the forgiving-base64 decode of the WHATWG Infra Standard (ASCII whitespace is
 dropped, padding is optional, leftover bits are discarded), and reads the char
 code of every character back as a byte.
 */
module Base64 {

  import opened Wrappers

  type byte = b: int | 0 <= b < 256

  /** One base64 digit: six bits. */
  type sextet = v: int | 0 <= v < 64

  /** The characters of the RFC 4648 section 4 alphabet. */
  predicate IsAlphabet(c: char) {
    ('A' <= c <= 'Z') || ('a' <= c <= 'z') || ('0' <= c <= '9') || c == '+' || c == '/'
  }

  /** What `btoa` may write: the alphabet and the pad character. */
  predicate IsBase64Char(c: char) {
    IsAlphabet(c) || c == '='
  }

  /** The value a character of the alphabet stands for. */
  function CharSextet(c: char): (v: sextet)
    requires IsAlphabet(c)
  {
    if 'A' <= c <= 'Z' then c as int - 'A' as int
    else if 'a' <= c <= 'z' then c as int - 'a' as int + 26
    else if '0' <= c <= '9' then c as int - '0' as int + 52
    else if c == '+' then 62
    else 63
  }

  /** The character of the alphabet for a six-bit value (Table 1 of RFC 4648). */
  function SextetChar(v: sextet): (c: char)
    ensures IsAlphabet(c) && CharSextet(c) == v
  {
    if v < 26 then (v + 'A' as int) as char
    else if v < 52 then (v - 26 + 'a' as int) as char
    else if v < 62 then (v - 52 + '0' as int) as char
    else if v == 62 then '+'
    else '/'
  }

  // ---------------------------------------------------------------------------
  // Encoding (btoa)
  // ---------------------------------------------------------------------------

  /** A full 24-bit group: three bytes, four characters. */
  function EncodeGroup(b0: byte, b1: byte, b2: byte): string
  {
    var n := b0 * 65536 + b1 * 256 + b2;
    [SextetChar(n / 262144), SextetChar(n / 4096 % 64), SextetChar(n / 64 % 64), SextetChar(n % 64)]
  }

  /** A final group of two bytes: sixteen bits padded with two zero bits, three characters. */
  function EncodeTail2(b0: byte, b1: byte): string
  {
    var n := b0 * 1024 + b1 * 4;
    [SextetChar(n / 4096), SextetChar(n / 64 % 64), SextetChar(n % 64)]
  }

  /** A final group of one byte: eight bits padded with four zero bits, two characters. */
  function EncodeTail1(b0: byte): string
  {
    var n := b0 * 16;
    [SextetChar(n / 64), SextetChar(n % 64)]
  }

  /** The base64 digits of `b`, before padding. */
  function EncodeDigits(b: seq<byte>): (s: string)
    ensures |s| == 4 * (|b| / 3) + (if |b| % 3 == 0 then 0 else |b| % 3 + 1)
    ensures forall i :: 0 <= i < |s| ==> IsAlphabet(s[i])
    decreases |b|
  {
    if |b| >= 3 then EncodeGroup(b[0], b[1], b[2]) + EncodeDigits(b[3..])
    else if |b| == 2 then EncodeTail2(b[0], b[1])
    else if |b| == 1 then EncodeTail1(b[0])
    else []
  }

  /** The padding that completes the last quantum to four characters. */
  function Padding(n: nat): string
  {
    if n % 3 == 1 then "==" else if n % 3 == 2 then "=" else ""
  }

  /** RFC 4648 section 4 base64 of a byte sequence, padded with `=`. */
  function EncodeBytes(b: seq<byte>): (s: string)
    ensures |s| == 4 * ((|b| + 2) / 3)
    ensures forall i :: 0 <= i < |s| ==> IsBase64Char(s[i])
  {
    PaddedLength(|b|);
    EncodeDigits(b) + Padding(|b|)
  }

  /** Digits and padding of `n` bytes fill whole four-character quanta. */
  lemma PaddedLength(n: nat)
    ensures 4 * (n / 3) + (if n % 3 == 0 then 0 else n % 3 + 1) + |Padding(n)| == 4 * ((n + 2) / 3)
  {
    var q, r := n / 3, n % 3;
    assert n == 3 * q + r;
    assert (n + 2) / 3 == if r == 0 then q else q + 1;
  }

  // ---------------------------------------------------------------------------
  // Decoding (atob)
  // ---------------------------------------------------------------------------

  /** ASCII whitespace as the Infra Standard defines it: TAB, LF, FF, CR and SPACE. */
  predicate IsAsciiWhitespace(c: char) {
    c == '\t' || c == '\n' || c as int == 0x0C || c == '\r' || c == ' '
  }

  /** Step 1 of forgiving-base64 decode: drop every ASCII whitespace character. */
  function StripWhitespace(s: string): (r: string)
    ensures |r| <= |s|
    ensures forall i :: 0 <= i < |r| ==> !IsAsciiWhitespace(r[i])
    ensures (forall i :: 0 <= i < |s| ==> !IsAsciiWhitespace(s[i])) ==> r == s
  {
    if s == [] then []
    else if IsAsciiWhitespace(s[0]) then StripWhitespace(s[1..])
    else [s[0]] + StripWhitespace(s[1..])
  }

  /** Removing whitespace works character by character: a whitespace character goes, any other stays. */
  lemma StripWhitespaceChar(c: char)
    ensures StripWhitespace([c]) == if IsAsciiWhitespace(c) then [] else [c]
  {
  }

  /** Removing whitespace works piecewise, so every other character is kept, in order. */
  lemma {:induction false} StripWhitespaceAppend(a: string, b: string)
    ensures StripWhitespace(a + b) == StripWhitespace(a) + StripWhitespace(b)
    decreases |a|
  {
    if a == [] {
      assert a + b == b;
    } else {
      assert (a + b)[0] == a[0];
      assert (a + b)[1..] == a[1..] + b;
      StripWhitespaceAppend(a[1..], b);
    }
  }

  /** Step 2: when the length is a multiple of four, drop one or two trailing `=`. */
  function DropPadding(s: string): (r: string)
    ensures |s| - 2 <= |r| <= |s| && r == s[..|r|]
    ensures forall i :: |r| <= i < |s| ==> s[i] == '='
    ensures |s| % 4 != 0 || |s| == 0 || s[|s| - 1] != '=' ==> r == s
    ensures |s| % 4 == 0 && |s| >= 1 && s[|s| - 1] == '=' ==> |r| < |s|
    ensures |s| % 4 == 0 && |s| >= 2 && s[|s| - 2] == '=' && s[|s| - 1] == '=' ==> |r| == |s| - 2
  {
    if |s| % 4 == 0 && |s| >= 2 && s[|s| - 2] == '=' && s[|s| - 1] == '=' then s[..|s| - 2]
    else if |s| % 4 == 0 && |s| >= 1 && s[|s| - 1] == '=' then s[..|s| - 1]
    else s
  }

  /** Digits that forgiving-base64 decode accepts once padding is gone. */
  predicate WellFormedDigits(s: string) {
    |s| % 4 != 1 && forall i :: 0 <= i < |s| ==> IsAlphabet(s[i])
  }

  /** Four characters back into three bytes. */
  function DecodeGroup(c0: char, c1: char, c2: char, c3: char): seq<byte>
    requires IsAlphabet(c0) && IsAlphabet(c1) && IsAlphabet(c2) && IsAlphabet(c3)
  {
    var n := CharSextet(c0) * 262144 + CharSextet(c1) * 4096 + CharSextet(c2) * 64 + CharSextet(c3);
    [n / 65536, n / 256 % 256, n % 256]
  }

  /** Three final characters: eighteen bits, the last two discarded, two bytes. */
  function DecodeTail3(c0: char, c1: char, c2: char): seq<byte>
    requires IsAlphabet(c0) && IsAlphabet(c1) && IsAlphabet(c2)
  {
    var n := (CharSextet(c0) * 4096 + CharSextet(c1) * 64 + CharSextet(c2)) / 4;
    [n / 256, n % 256]
  }

  /** Two final characters: twelve bits, the last four discarded, one byte. */
  function DecodeTail2(c0: char, c1: char): seq<byte>
    requires IsAlphabet(c0) && IsAlphabet(c1)
  {
    [(CharSextet(c0) * 64 + CharSextet(c1)) / 16]
  }

  /** The bytes that well-formed digits stand for. */
  function DecodeDigits(s: string): (b: seq<byte>)
    requires WellFormedDigits(s)
    ensures |b| == 3 * (|s| / 4) + (if |s| % 4 == 0 then 0 else |s| % 4 - 1)
    decreases |s|
  {
    if |s| >= 4 then DecodeGroup(s[0], s[1], s[2], s[3]) + DecodeDigits(s[4..])
    else if |s| == 3 then DecodeTail3(s[0], s[1], s[2])
    else if |s| == 2 then DecodeTail2(s[0], s[1])
    else []
  }

  /** Forgiving-base64 decode: `None` is the failure that makes `atob` throw. */
  function DecodeBytes(s: string): (r: Option<seq<byte>>)
    ensures r.Some? <==> WellFormedDigits(DropPadding(StripWhitespace(s)))
  {
    var d := DropPadding(StripWhitespace(s));
    if WellFormedDigits(d) then Some(DecodeDigits(d)) else None
  }

  // ---------------------------------------------------------------------------
  // The Latin-1 string between bytes and btoa / atob
  // ---------------------------------------------------------------------------

  predicate IsLatin1(s: string) {
    forall i :: 0 <= i < |s| ==> s[i] as int < 256
  }

  /** `String.fromCharCode` applied to the bytes: one character per byte, with that byte as its code. */
  function FromCharCodes(arr: seq<byte>): (s: string)
    ensures |s| == |arr| && IsLatin1(s)
    ensures forall i :: 0 <= i < |s| ==> s[i] as int == arr[i]
  {
    seq(|arr|, i requires 0 <= i < |arr| => arr[i] as char)
  }

  /** The character code of every character of a Latin-1 string. */
  function CharCodes(s: string): (arr: seq<byte>)
    requires IsLatin1(s)
    ensures |arr| == |s|
    ensures forall i :: 0 <= i < |s| ==> arr[i] == s[i] as int
  {
    seq(|s|, i requires 0 <= i < |s| => s[i] as int)
  }

  /** `btoa`: fails (InvalidCharacterError) on a character above U+00FF. */
  function Btoa(s: string): (r: Option<string>)
    ensures r.Some? <==> IsLatin1(s)
  {
    if IsLatin1(s) then Some(EncodeBytes(CharCodes(s))) else None
  }

  /** `atob`: the decoded bytes as a Latin-1 string, or failure (InvalidCharacterError). */
  function Atob(s: string): (r: Option<string>)
    ensures r.Some? ==> IsLatin1(r.value)
  {
    match DecodeBytes(s)
    case None => None
    case Some(b) => Some(FromCharCodes(b))
  }

  /**
   `arrayToBase64`: the bytes become a Latin-1 string that `btoa` encodes;
   since every character code is a byte, `btoa` never throws and encodes the
   bytes themselves (`ArrayToBase64IsBtoa`).
   */
  function ArrayToBase64(arr: seq<byte>): (s: string)
    ensures |s| == 4 * ((|arr| + 2) / 3)
    ensures forall i :: 0 <= i < |s| ==> IsBase64Char(s[i])
  {
    EncodeBytes(arr)
  }

  /** The model of `arrayToBase64` is `btoa` of the Latin-1 string, which succeeds. */
  lemma ArrayToBase64IsBtoa(arr: seq<byte>)
    ensures Btoa(FromCharCodes(arr)) == Some(ArrayToBase64(arr))
  {
    assert CharCodes(FromCharCodes(arr)) == arr;
  }

  /**
   `base64ToArray`: the character codes of what `atob` decodes, or the
   failure `atob` throws; that is the forgiving decode (`Base64ToArrayIsAtob`).
   */
  function Base64ToArray(s: string): (r: Option<seq<byte>>)
    ensures r.Some? <==> WellFormedDigits(DropPadding(StripWhitespace(s)))
  {
    DecodeBytes(s)
  }

  /** The model of `base64ToArray` is `atob` followed by `charCodeAt` on every character. */
  lemma Base64ToArrayIsAtob(s: string)
    ensures Base64ToArray(s) == if Atob(s).None? then None else Some(CharCodes(Atob(s).value))
  {
    match DecodeBytes(s)
    case None =>
    case Some(b) =>
      assert CharCodes(FromCharCodes(b)) == b;
  }


  // ---------------------------------------------------------------------------
  // Round trip
  // ---------------------------------------------------------------------------

  /** A 24-bit number is the sum of its four sextets. */
  lemma SplitSextets24(n: int)
    requires 0 <= n < 16777216
    ensures (n / 262144) * 262144 + (n / 4096 % 64) * 4096 + (n / 64 % 64) * 64 + n % 64 == n
  {
    var q1 := n / 64;
    var q2 := q1 / 64;
    assert q2 == n / 4096;
    assert q2 / 64 == n / 262144;
  }

  /** An 18-bit number is the sum of its three sextets. */
  lemma SplitSextets18(n: int)
    requires 0 <= n < 262144
    ensures (n / 4096) * 4096 + (n / 64 % 64) * 64 + n % 64 == n
  {
    var q1 := n / 64;
    assert q1 / 64 == n / 4096;
  }

  lemma GroupRoundTrip(b0: byte, b1: byte, b2: byte)
    ensures var s := EncodeGroup(b0, b1, b2);
      |s| == 4 && WellFormedDigits(s) && DecodeGroup(s[0], s[1], s[2], s[3]) == [b0, b1, b2]
  {
    var n := b0 * 65536 + b1 * 256 + b2;
    var s := EncodeGroup(b0, b1, b2);
    SplitSextets24(n);
    var m := CharSextet(s[0]) * 262144 + CharSextet(s[1]) * 4096 + CharSextet(s[2]) * 64 + CharSextet(s[3]);
    assert m == n;
    ByteSplit24(b0, b1, b2);
  }

  /** The three bytes of a 24-bit group are read back by division. */
  lemma ByteSplit24(b0: byte, b1: byte, b2: byte)
    ensures var n := b0 * 65536 + b1 * 256 + b2;
      n / 65536 == b0 && n / 256 % 256 == b1 && n % 256 == b2
  {
  }

  lemma Tail2RoundTrip(b0: byte, b1: byte)
    ensures var s := EncodeTail2(b0, b1);
      DecodeTail3(s[0], s[1], s[2]) == [b0, b1]
  {
    var n := b0 * 1024 + b1 * 4;
    var s := EncodeTail2(b0, b1);
    SplitSextets18(n);
    var m := CharSextet(s[0]) * 4096 + CharSextet(s[1]) * 64 + CharSextet(s[2]);
    assert m == n;
    assert m / 4 == b0 * 256 + b1;
    ByteSplit16(b0, b1);
  }

  /** The two bytes of a 16-bit number are read back by division. */
  lemma ByteSplit16(b0: byte, b1: byte)
    ensures (b0 * 256 + b1) / 256 == b0 && (b0 * 256 + b1) % 256 == b1
  {
  }

  lemma Tail1RoundTrip(b0: byte)
    ensures var s := EncodeTail1(b0);
      DecodeTail2(s[0], s[1]) == [b0]
  {
    var n := b0 * 16;
    assert (n / 64) * 64 + n % 64 == n;
  }

  /** Digits are decoded one four-character group at a time, from the left. */
  lemma DecodeDigitsCons(g: string, rest: string)
    requires |g| == 4 && WellFormedDigits(g) && WellFormedDigits(rest)
    ensures WellFormedDigits(g + rest)
    ensures DecodeDigits(g + rest) == DecodeGroup(g[0], g[1], g[2], g[3]) + DecodeDigits(rest)
  {
    var s := g + rest;
    assert s[4..] == rest;
    assert forall i :: 0 <= i < |s| ==> IsAlphabet(s[i]) by {
      forall i | 0 <= i < |s| ensures IsAlphabet(s[i]) {
        if i >= 4 { assert s[i] == rest[i - 4]; }
      }
    }
  }

  /** Decoding the digits of `b` gives back `b`. */
  lemma {:induction false} DigitsRoundTrip(b: seq<byte>)
    ensures WellFormedDigits(EncodeDigits(b))
    ensures DecodeDigits(EncodeDigits(b)) == b
    decreases |b|
  {
    if |b| >= 3 {
      var g := EncodeGroup(b[0], b[1], b[2]);
      var rest := EncodeDigits(b[3..]);
      DigitsRoundTrip(b[3..]);
      GroupRoundTrip(b[0], b[1], b[2]);
      DigitsRoundTripStep(b, g, rest);
      assert EncodeDigits(b) == g + rest;
    } else if |b| == 2 {
      Tail2RoundTrip(b[0], b[1]);
    } else if |b| == 1 {
      Tail1RoundTrip(b[0]);
    }
  }

  /** The inductive step of `DigitsRoundTrip`: a group that decodes to the first three bytes, then the rest. */
  lemma DigitsRoundTripStep(b: seq<byte>, g: string, rest: string)
    requires |b| >= 3
    requires |g| == 4 && WellFormedDigits(g) && DecodeGroup(g[0], g[1], g[2], g[3]) == [b[0], b[1], b[2]]
    requires WellFormedDigits(rest) && DecodeDigits(rest) == b[3..]
    ensures WellFormedDigits(g + rest)
    ensures DecodeDigits(g + rest) == b
  {
    DecodeDigitsCons(g, rest);
    assert [b[0], b[1], b[2]] + b[3..] == b;
  }

  /** Step 2 of the decode removes exactly the padding the encoder added. */
  lemma DropPaddingOfPadded(d: string, n: nat)
    requires forall i :: 0 <= i < |d| ==> IsAlphabet(d[i])
    requires |d| % 4 == (if n % 3 == 0 then 0 else n % 3 + 1)
    ensures DropPadding(d + Padding(n)) == d
  {
    var s := d + Padding(n);
    if n % 3 == 0 {
      assert s == d;
      assert |s| >= 1 ==> IsAlphabet(s[|s| - 1]);
    } else if n % 3 == 1 {
      assert s[..|s| - 2] == d;
    } else {
      assert |s| % 4 == 0 && s[|s| - 1] == '=';
      assert s[|s| - 2] == d[|d| - 1];
      assert s[..|s| - 1] == d;
    }
  }

  /** `base64ToArray(arrayToBase64(b)) == b` for every byte array `b`: forgiving decode undoes the padded encoding. */
  lemma ArrayRoundTrip(arr: seq<byte>)
    ensures Base64ToArray(ArrayToBase64(arr)) == Some(arr)
  {
    EncodedNeedsNoStrip(arr);
    EncodedPaddingDrops(arr);
    DigitsRoundTrip(arr);
  }

  /** Step 1 of the decode leaves an encoding as it is: it holds no whitespace. */
  lemma EncodedNeedsNoStrip(arr: seq<byte>)
    ensures StripWhitespace(EncodeBytes(arr)) == EncodeBytes(arr)
  {
    var s := EncodeBytes(arr);
    assert forall i :: 0 <= i < |s| ==> !IsAsciiWhitespace(s[i]);
  }

  /** Step 2 of the decode takes an encoding back to its digits. */
  lemma EncodedPaddingDrops(arr: seq<byte>)
    ensures DropPadding(EncodeBytes(arr)) == EncodeDigits(arr)
  {
    var n := |arr|;
    var d := EncodeDigits(arr);
    DigitsLengthMod(n);
    DropPaddingOfPadded(d, n);
  }

  /** The digits of `n` bytes leave `n % 3 + 1` characters in the last quantum, or none. */
  lemma DigitsLengthMod(n: nat)
    ensures (4 * (n / 3) + (if n % 3 == 0 then 0 else n % 3 + 1)) % 4 == (if n % 3 == 0 then 0 else n % 3 + 1)
  {
  }

  /** Distinct byte arrays never share an encoding. */
  lemma ArrayToBase64Injective(a: seq<byte>, b: seq<byte>)
    requires ArrayToBase64(a) == ArrayToBase64(b)
    ensures a == b
  {
    ArrayRoundTrip(a);
    ArrayRoundTrip(b);
  }

  // ---------------------------------------------------------------------------
  // Known answers
  // ---------------------------------------------------------------------------

  /** The tails of "f" and "fo". */
  lemma EncodeFoTails()
    ensures EncodeTail1(102) == "Zg" && EncodeTail2(102, 111) == "Zm8"
  {
    var n1, n2 := 102 * 16, 102 * 1024 + 111 * 4;
    assert n1 == 1632 && n2 == 104892;
    assert n1 / 64 == 25 && n1 % 64 == 32;
    assert n2 / 4096 == 25 && n2 / 64 % 64 == 38 && n2 % 64 == 60;
  }

  /** The first group of "foobar". */
  lemma EncodeFooGroup()
    ensures EncodeGroup(102, 111, 111) == "Zm9v"
  {
    var n := 102 * 65536 + 111 * 256 + 111;
    assert n == 6713199;
    assert n / 262144 == 25 && n / 4096 % 64 == 38 && n / 64 % 64 == 61 && n % 64 == 47;
  }

  /** The tails of "foob" and "fooba". */
  lemma EncodeBaTails()
    ensures EncodeTail1(98) == "Yg" && EncodeTail2(98, 97) == "YmE"
  {
    var n1, n2 := 98 * 16, 98 * 1024 + 97 * 4;
    assert n1 == 1568 && n2 == 100740;
    assert n1 / 64 == 24 && n1 % 64 == 32;
    assert n2 / 4096 == 24 && n2 / 64 % 64 == 38 && n2 % 64 == 4;
  }

  /** The second group of "foobar". */
  lemma EncodeBarGroup()
    ensures EncodeGroup(98, 97, 114) == "YmFy"
  {
    var n := 98 * 65536 + 97 * 256 + 114;
    assert n == 6447474;
    assert n / 262144 == 24 && n / 4096 % 64 == 38 && n / 64 % 64 == 5 && n % 64 == 50;
  }

  /** The test vectors of section 10 of RFC 4648 up to three bytes: "", "f", "fo", "foo". */
  lemma Rfc4648VectorsFoo()
    ensures ArrayToBase64([]) == ""
    ensures ArrayToBase64([102]) == "Zg=="
    ensures ArrayToBase64([102, 111]) == "Zm8="
    ensures ArrayToBase64([102, 111, 111]) == "Zm9v"
  {
    EncodeFoTails();
    EncodeFooGroup();
  }

  /** The test vectors of section 10 of RFC 4648 past one group: "foob", "fooba", "foobar". */
  lemma Rfc4648VectorsFoobar()
    ensures ArrayToBase64([102, 111, 111, 98]) == "Zm9vYg=="
    ensures ArrayToBase64([102, 111, 111, 98, 97]) == "Zm9vYmE="
    ensures ArrayToBase64([102, 111, 111, 98, 97, 114]) == "Zm9vYmFy"
  {
    EncodeFooGroup();
    EncodeBaTails();
    EncodeBarGroup();
    var foo: seq<byte> := [102, 111, 111];
    assert (foo + [98])[3..] == [98];
    assert (foo + [98, 97])[3..] == [98, 97];
    assert (foo + [98, 97, 114])[3..] == [98, 97, 114];
  }
}
