/**
 The encrypted envelope kept in local storage, and the two pipelines around it:
 `saveData` (serialise the list, encrypt it under a fresh IV, base64 the salt,
 IV and ciphertext, store `{salt, iv, data}` as JSON) and the body of
 `handleUnlock` (parse the envelope, decode its fields, derive the key from the
 typed password and the stored salt, decrypt, parse the list).

 WebCrypto (PBKDF2 and AES-GCM), `TextEncoder`/`TextDecoder` and `JSON.parse`
 are foreign calls; a `Platform` value supplies them as functions, and the laws
 the vault relies on are stated by `Platform.Sound`, which only the lemmas
 require.
 */
module Vault {

  import opened Wrappers
  import opened Base64
  import opened Entries

  /** Bytes of random salt drawn at setup. */
  const SALT_LENGTH := 16
  /** Bytes of random IV drawn by every encryption. */
  const IV_LENGTH := 12
  /** PBKDF2-HMAC-SHA256 iteration count used by `deriveKey`. */
  const ITERATIONS := 100000
  /** Length of the AES-GCM key `deriveKey` produces. */
  const KEY_BITS := 256

  /** A derived AES-GCM key (WebCrypto keeps it non-extractable; here it is its key material). */
  datatype CryptoKey = CryptoKey(material: seq<byte>)

  /** The stored record: the three base64 fields. */
  datatype VaultData = VaultData(salt: string, iv: string, data: string)

  /** The foreign functions the vault calls. */
  datatype Platform = Platform(
    /** PBKDF2 with SHA-256, ITERATIONS rounds, over the UTF-8 password and the salt. */
    deriveKey: (string, seq<byte>) -> CryptoKey,
    /** UTF-8 encode, then AES-GCM under the key and the IV: ciphertext followed by the tag. */
    encrypt: (string, CryptoKey, seq<byte>) -> seq<byte>,
    /** AES-GCM open, then UTF-8 decode; `None` when the tag does not verify. */
    decrypt: (seq<byte>, CryptoKey, seq<byte>) -> Option<string>,
    /** `JSON.stringify` of the list. */
    stringifyEntries: seq<Entry> -> string,
    /** `JSON.parse` of the decrypted text; `None` when it throws. */
    parseEntries: string -> Option<seq<Entry>>,
    /** `JSON.parse` of the stored string; `None` when it throws. */
    parseEnvelope: string -> Option<VaultData>)
  {
    /** The laws of the foreign functions that the vault relies on. */
    ghost predicate Sound() {
      // The derived key is a 256-bit key.
      && (forall password, salt :: |deriveKey(password, salt).material| == KEY_BITS / 8)
      // Decrypting with the same key and IV gives back the plaintext.
      && (forall m, key, iv :: decrypt(encrypt(m, key, iv), key, iv) == Some(m))
      // A different key does not open the ciphertext.
      && (forall m, key, other, iv :: other != key ==> decrypt(encrypt(m, key, iv), other, iv) == None)
      // Authentication: only a ciphertext made under this key and IV opens.
      && (forall c, key, iv :: decrypt(c, key, iv).Some? ==> c == encrypt(decrypt(c, key, iv).value, key, iv))
      // JSON round trip of the list.
      && (forall es :: parseEntries(stringifyEntries(es)) == Some(es))
      // JSON round trip of an envelope whose fields need no escaping.
      && (forall v :: PlainFields(v) ==> parseEnvelope(EnvelopeJson(v)) == Some(v))
    }
  }

  /** A string JSON writes verbatim between quotes: no quote, backslash or control character. */
  predicate JsonPlain(s: string) {
    forall i :: 0 <= i < |s| ==> s[i] != '"' && s[i] != '\\' && s[i] as int >= 0x20
  }

  predicate PlainFields(v: VaultData) {
    JsonPlain(v.salt) && JsonPlain(v.iv) && JsonPlain(v.data)
  }

  /**
   The JSON text of the record with keys `salt`, `iv`, `data` in that order,
   for fields that need no escaping: an object of three quoted strings.
   */
  function EnvelopeJson(v: VaultData): (r: string)
    ensures |r| == |v.salt| + |v.iv| + |v.data| + 29
    ensures r[0] == '{' && r[|r| - 1] == '}'
  {
    "{\"salt\":\"" + v.salt + "\",\"iv\":\"" + v.iv + "\",\"data\":\"" + v.data + "\"}"
  }

  /** In a plain string followed by a quote, that quote is the first one. */
  lemma FirstQuoteAt(a: string, t: string)
    requires JsonPlain(a)
    ensures (a + "\"" + t)[|a|] == '"'
    ensures forall i :: 0 <= i < |a| ==> (a + "\"" + t)[i] != '"'
  {
  }

  /** A quote ends a plain string: what precedes the first quote is determined by the text. */
  lemma PlainPrefixUnique(a: string, t: string, a2: string, t2: string)
    requires JsonPlain(a) && JsonPlain(a2)
    requires a + "\"" + t == a2 + "\"" + t2
    ensures a == a2 && t == t2
  {
    var x := a + "\"" + t;
    FirstQuoteAt(a, t);
    FirstQuoteAt(a2, t2);
    assert |a| == |a2|;
    assert a == x[..|a|] == a2;
    assert t == x[|a| + 1..] == t2;
  }

  /** Removing a common prefix. */
  lemma DropCommonPrefix(p: string, x: string, y: string)
    requires p + x == p + y
    ensures x == y
  {
    assert x == (p + x)[|p|..];
  }

  /** The envelope text as its key prefixes, each field followed by its closing quote. */
  lemma EnvelopeJsonShape(v: VaultData)
    ensures EnvelopeJson(v) == "{\"salt\":\"" + (v.salt + "\"" + (",\"iv\":\"" + (v.iv + "\""
                               + (",\"data\":\"" + (v.data + "\"" + "}")))))
  {
  }

  /** Envelopes with plain fields have distinct JSON texts, so parsing the text can give the fields back. */
  lemma EnvelopeJsonInjective(v: VaultData, w: VaultData)
    requires PlainFields(v) && PlainFields(w)
    requires EnvelopeJson(v) == EnvelopeJson(w)
    ensures v == w
  {
    var p1, p2, p3, q := "{\"salt\":\"", ",\"iv\":\"", ",\"data\":\"", "\"";
    var dv, dw := v.data + q + "}", w.data + q + "}";
    var iv, iw := v.iv + q + (p3 + dv), w.iv + q + (p3 + dw);
    var sv, sw := v.salt + q + (p2 + iv), w.salt + q + (p2 + iw);
    EnvelopeJsonShape(v);
    EnvelopeJsonShape(w);
    DropCommonPrefix(p1, sv, sw);
    PlainPrefixUnique(v.salt, p2 + iv, w.salt, p2 + iw);
    DropCommonPrefix(p2, iv, iw);
    PlainPrefixUnique(v.iv, p3 + dv, w.iv, p3 + dw);
    DropCommonPrefix(p3, dv, dw);
    PlainPrefixUnique(v.data, "}", w.data, "}");
  }

  /** Base64 text is written verbatim inside a JSON string. */
  lemma Base64IsJsonPlain(arr: seq<byte>)
    ensures JsonPlain(ArrayToBase64(arr))
  {
    var s := ArrayToBase64(arr);
    forall i | 0 <= i < |s| ensures s[i] != '"' && s[i] != '\\' && s[i] as int >= 0x20 {
      assert IsBase64Char(s[i]);
    }
  }

  // ---------------------------------------------------------------------------
  // saveData
  // ---------------------------------------------------------------------------

  /** The envelope `saveData(entries, key, salt)` builds when `encrypt` draws `iv`. */
  function Envelope(plat: Platform, entries: seq<Entry>, key: CryptoKey, salt: seq<byte>, iv: seq<byte>): (v: VaultData)
    ensures PlainFields(v)
  {
    Base64IsJsonPlain(salt);
    Base64IsJsonPlain(iv);
    Base64IsJsonPlain(plat.encrypt(plat.stringifyEntries(entries), key, iv));
    VaultData(ArrayToBase64(salt), ArrayToBase64(iv),
              ArrayToBase64(plat.encrypt(plat.stringifyEntries(entries), key, iv)))
  }

  /**
   The envelope's fields decode back to the held salt, the IV of this write and
   the ciphertext of the serialised list, and need no escaping inside JSON.
   */
  lemma EnvelopeFields(plat: Platform, entries: seq<Entry>, key: CryptoKey, salt: seq<byte>, iv: seq<byte>)
    ensures var v := Envelope(plat, entries, key, salt, iv);
      && Base64ToArray(v.salt) == Some(salt)
      && Base64ToArray(v.iv) == Some(iv)
      && Base64ToArray(v.data) == Some(plat.encrypt(plat.stringifyEntries(entries), key, iv))
      && PlainFields(v)
  {
    var encrypted := plat.encrypt(plat.stringifyEntries(entries), key, iv);
    ArrayRoundTrip(salt);
    ArrayRoundTrip(iv);
    ArrayRoundTrip(encrypted);
    Base64IsJsonPlain(salt);
    Base64IsJsonPlain(iv);
    Base64IsJsonPlain(encrypted);
  }

  /**
   The string `saveData` writes to the storage slot. It is never empty, so
   the next mount shows the locked screen.
   */
  function SavedVault(plat: Platform, entries: seq<Entry>, key: CryptoKey, salt: seq<byte>, iv: seq<byte>): (r: string)
    ensures r != ""
  {
    EnvelopeJson(Envelope(plat, entries, key, salt, iv))
  }

  // ---------------------------------------------------------------------------
  // The body of handleUnlock
  // ---------------------------------------------------------------------------

  /** What a successful unlock holds afterwards. */
  datatype Opened = Opened(salt: seq<byte>, key: CryptoKey, entries: seq<Entry>)

  /**
   Parse, decode, derive, decrypt, parse. Every failure (malformed JSON, bad
   base64, a tag that does not verify, a plaintext that is not a list) is the
   same `None`: the caller cannot tell a wrong password from corrupt data.
   */
  function OpenVault(plat: Platform, vault: string, password: string): (r: Option<Opened>)
    ensures r.Some? ==>
      (plat.parseEnvelope(vault).Some? && Base64ToArray(plat.parseEnvelope(vault).value.salt) == Some(r.value.salt))
    ensures r.Some? ==> r.value.key == plat.deriveKey(password, r.value.salt)
  {
    var parsed := plat.parseEnvelope(vault);
    if parsed.None? then None
    else
      var storedSalt := Base64ToArray(parsed.value.salt);
      var iv := Base64ToArray(parsed.value.iv);
      var encrypted := Base64ToArray(parsed.value.data);
      if storedSalt.None? || iv.None? || encrypted.None? then None
      else
        var key := plat.deriveKey(password, storedSalt.value);
        var json := plat.decrypt(encrypted.value, key, iv.value);
        if json.None? then None
        else
          var loaded := plat.parseEntries(json.value);
          if loaded.None? then None
          else Some(Opened(storedSalt.value, key, loaded.value))
  }

  // ---------------------------------------------------------------------------
  // Properties of the pair
  // ---------------------------------------------------------------------------

  /** What `saveData` stored, unlocked with the password the key came from, gives back salt, key and list. */
  lemma SaveThenOpen(plat: Platform, entries: seq<Entry>, password: string, salt: seq<byte>, iv: seq<byte>)
    requires plat.Sound()
    ensures var key := plat.deriveKey(password, salt);
      OpenVault(plat, SavedVault(plat, entries, key, salt, iv), password) == Some(Opened(salt, key, entries))
  {
    var key := plat.deriveKey(password, salt);
    var v := Envelope(plat, entries, key, salt, iv);
    EnvelopeFields(plat, entries, key, salt, iv);
    assert plat.parseEnvelope(EnvelopeJson(v)) == Some(v);
    assert plat.decrypt(plat.encrypt(plat.stringifyEntries(entries), key, iv), key, iv)
        == Some(plat.stringifyEntries(entries));
  }

  /** A password whose key differs from the one the vault was sealed under does not open it. */
  lemma WrongPasswordRejected(plat: Platform, entries: seq<Entry>, password: string, guess: string,
                              salt: seq<byte>, iv: seq<byte>)
    requires plat.Sound()
    requires plat.deriveKey(guess, salt) != plat.deriveKey(password, salt)
    ensures OpenVault(plat, SavedVault(plat, entries, plat.deriveKey(password, salt), salt, iv), guess) == None
  {
    var key := plat.deriveKey(password, salt);
    var v := Envelope(plat, entries, key, salt, iv);
    EnvelopeFields(plat, entries, key, salt, iv);
    assert plat.parseEnvelope(EnvelopeJson(v)) == Some(v);
    var m := plat.stringifyEntries(entries);
    assert plat.decrypt(plat.encrypt(m, key, iv), plat.deriveKey(guess, salt), iv) == None;
  }

  /**
   Fail-closed: whenever unlocking succeeds, the stored ciphertext is a genuine
   encryption, under the key derived from the typed password, of a text that
   parses to the list that is loaded.
   */
  lemma OpenOnlyGenuine(plat: Platform, vault: string, password: string)
    requires plat.Sound()
    requires OpenVault(plat, vault, password).Some?
    ensures var o := OpenVault(plat, vault, password).value;
      var v := plat.parseEnvelope(vault).value;
      Base64ToArray(v.iv).Some? &&
      exists json :: plat.parseEntries(json) == Some(o.entries)
        && Base64ToArray(v.data) == Some(plat.encrypt(json, o.key, Base64ToArray(v.iv).value))
  {
    var o := OpenVault(plat, vault, password).value;
    var v := plat.parseEnvelope(vault).value;
    var iv := Base64ToArray(v.iv).value;
    var encrypted := Base64ToArray(v.data).value;
    var json := plat.decrypt(encrypted, o.key, iv).value;
    assert encrypted == plat.encrypt(json, o.key, iv);
    assert plat.parseEntries(json) == Some(o.entries);
  }
}
