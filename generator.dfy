/**
 The password generator of the add/edit form. The random words that
 `crypto.getRandomValues` fills a `Uint32Array(genLength)` with are an input.
 */
module Generator {

  const UPPER := "ABCDEFGHIJKLMNOPQRSTUVWXYZ"
  const LOWER := "abcdefghijklmnopqrstuvwxyz"
  const DIGITS := "0123456789"
  const SYMBOLS := "!@#$%^&*()_+-=[]{}|;:,.<>?"

  /** One element of a `Uint32Array`. */
  type uint32 = x: int | 0 <= x < 0x1_0000_0000

  /** The generator settings: length and the four class switches. */
  datatype Options = Options(length: nat, upper: bool, lower: bool, numbers: bool, symbols: bool)

  predicate NoClassEnabled(o: Options) {
    !o.upper && !o.lower && !o.numbers && !o.symbols
  }

  /** A character the settings allow: from an enabled class, or lowercase when none is enabled. */
  predicate Allowed(o: Options, c: char) {
    (o.upper && c in UPPER) || (o.lower && c in LOWER) || (o.numbers && c in DIGITS)
    || (o.symbols && c in SYMBOLS) || (NoClassEnabled(o) && c in LOWER)
  }

  /** The candidate characters, in the order upper, lower, digits, symbols; lowercase alone as a fallback. */
  function Charset(o: Options): (chars: string)
    ensures |chars| > 0
    ensures forall c :: c in chars <==> Allowed(o, c)
    ensures |chars| == if NoClassEnabled(o) then 26 else
      (if o.upper then 26 else 0) + (if o.lower then 26 else 0)
      + (if o.numbers then 10 else 0) + (if o.symbols then 26 else 0)
  {
    var chars := (if o.upper then UPPER else "") + (if o.lower then LOWER else "")
                 + (if o.numbers then DIGITS else "") + (if o.symbols then SYMBOLS else "");
    if chars == "" then LOWER else chars
  }

  /** The first half of `generatePassword`: append the enabled classes, fall back to lowercase. */
  method BuildCharset(o: Options) returns (chars: string)
    ensures chars == Charset(o)
    ensures |chars| > 0
  {
    chars := "";
    if o.upper { chars := chars + UPPER; }
    assert chars == (if o.upper then UPPER else "");
    if o.lower { chars := chars + LOWER; }
    assert chars == (if o.upper then UPPER else "") + (if o.lower then LOWER else "");
    if o.numbers { chars := chars + DIGITS; }
    assert chars == (if o.upper then UPPER else "") + (if o.lower then LOWER else "")
                    + (if o.numbers then DIGITS else "");
    if o.symbols { chars := chars + SYMBOLS; }
    assert chars == (if o.upper then UPPER else "") + (if o.lower then LOWER else "")
                    + (if o.numbers then DIGITS else "") + (if o.symbols then SYMBOLS else "");
    if chars == "" { chars := LOWER; }
  }

  /** `generatePassword`: each random word, reduced modulo the charset size, picks one character. */
  method GeneratePassword(o: Options, random: seq<uint32>) returns (result: string)
    requires |random| == o.length
    ensures |result| == o.length
    ensures forall i :: 0 <= i < o.length ==> result[i] == Charset(o)[random[i] % |Charset(o)|]
    ensures forall i :: 0 <= i < o.length ==> Allowed(o, result[i])
  {
    var chars := BuildCharset(o);
    result := "";
    for i := 0 to o.length
      invariant |result| == i
      invariant forall k :: 0 <= k < i ==> result[k] == chars[random[k] % |chars|]
    {
      result := result + [chars[random[i] % |chars|]];
    }
    forall i | 0 <= i < o.length ensures Allowed(o, result[i]) {
      CharsetAllowed(o, random[i] % |chars|);
    }
  }

  /** Every position of the charset holds an allowed character. */
  lemma CharsetAllowed(o: Options, j: int)
    requires 0 <= j < |Charset(o)|
    ensures Allowed(o, Charset(o)[j])
  {
    assert Charset(o)[j] in Charset(o);
  }
}
