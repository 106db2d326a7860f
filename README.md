# VaultLock in Dafny

VaultLock is a single-page password manager. It derives an AES-GCM key from
a master password with PBKDF2. It keeps the credential list encrypted in one
local-storage slot (`vaultlock-data`), holding a JSON envelope
`{salt, iv, data}` whose three fields are base64 text. The screen moves
between `setup`, `locked` and `unlocked`. The component locks itself after
five minutes without user activity.

This project models the logic of the `VaultLock` component
(`src/app/page.tsx`):

- `wrappers.dfy` (module `Wrappers`): `Option` and `Result`.
- `base64.dfy` (module `Base64`): `arrayToBase64` and `base64ToArray`.
  - Encoding is `btoa` over the Latin-1 string of the bytes, which is the
    padded base64 of RFC 4648, section 4.
  - Decoding is `atob`, the forgiving-base64 decode of the WHATWG Infra
    Standard: ASCII whitespace is dropped, padding is optional, and leftover
    bits are discarded. Each character code is then read back as a byte.
  - The round trip `base64ToArray(arrayToBase64(b)) == b` is proved for
    every byte sequence.
- `entries.dfy` (module `Entries`): the credential record and the form. It
  also holds the pure list transforms the handlers apply:
  - append a new record;
  - edit by id, as a `map`;
  - delete by id, as a `filter`;
  - the list screen's search and category filter.
- `vault.dfy` (module `Vault`): the envelope `saveData` writes, and the
  parse, decode, derive, decrypt and parse pipeline of `handleUnlock`.
  - PBKDF2, AES-GCM, `TextEncoder`/`TextDecoder` and `JSON.parse` are
    foreign. A `Platform` value supplies them as functions.
  - The laws the vault relies on are the ghost predicate `Platform.Sound`.
    Only lemmas require it. Those laws are:
    - decrypting under the same key and IV gives back the plaintext;
    - a different key fails;
    - only a genuine ciphertext opens;
    - JSON round trips.
- `generator.dfy` (module `Generator`): `generatePassword`, as a loop
  method. The `Uint32Array` random words are an input.
- `session.dfy` (module `Session`): the component itself, as the class
  `VaultLock`.
  - The storage slot is one field and the React state another. The state
    is a record, and a group of setter calls that React applies together is
    one update of it. Setup, add, edit and delete await `saveData` between
    two such groups. Their methods therefore update the record before the
    save and again after it, and a refused write stops between the two.
  - There is one method per handler, plus the idle-check tick and the
    activity listener.
  - The class invariant `Valid` says three things:
    - the unlocked screen holds a key;
    - a key comes with its salt and is derived from it;
    - no key means no list in memory.
  - Clocks, random draws, and whether a storage write is refused are
    parameters of the step that uses them.
- `scenarios.dfy` (module `Scenarios`): runs of several handlers:
  - set up, lock, unlock;
  - an added entry survives lock and unlock;
  - a wrong password leaves the screen locked;
  - setup does not restart the idle clock.

Behaviours of the code that the model keeps as written:

- A refused storage write (a quota error thrown by `localStorage.setItem`)
  is not rolled back. In add, edit and delete the new list stays in memory
  while the old vault stays in storage. Setup holds the new key and salt
  but stays on the setup screen.
- `handleLock` does not clear the form, the selected entry or the
  master-password field.
- `handleSetup` does not call `resetActivity`. The idle clock keeps
  counting from mount, so the first idle check after a slow setup can lock
  at once (`Scenarios.IdleClockRunsFromMount`).
- `!vault` treats an empty stored string as no vault.

## Model

| member | source | states |
|---|---|---|
| Base64.SextetChar | src/app/page.tsx:96-98 | every six-bit value maps to a character of the base64 alphabet, and that character maps back to the same value |
| Base64.EncodeDigits | src/app/page.tsx:96-98 | the unpadded digits of n bytes have length 4*(n/3), plus n%3+1 when n is not a multiple of 3, and are all alphabet characters |
| Base64.EncodeBytes | src/app/page.tsx:96-98 | the padded encoding of n bytes has length 4*ceil(n/3) and uses only the alphabet and `=` |
| Base64.PaddedLength | src/app/page.tsx:96-98 | digits plus padding fill whole four-character quanta |
| Base64.StripWhitespace | src/app/page.tsx:100-102 | the decode's first step leaves no ASCII whitespace and changes nothing in a string that has none |
| Base64.StripWhitespaceChar | src/app/page.tsx:100-102 | on one character, the first step drops it exactly when it is ASCII whitespace |
| Base64.StripWhitespaceAppend | src/app/page.tsx:100-102 | the first step works piecewise over a concatenation, so every other character is kept, in order |
| Base64.DropPadding | src/app/page.tsx:100-102 | the padding step removes at most two characters, all `=`, and only when the length is a multiple of four; there it removes a trailing `=`, and both of two trailing `=` |
| Base64.DecodeDigits | src/app/page.tsx:100-102 | k well-formed digits decode to 3*(k/4) bytes, plus k%4-1 for a partial last quantum |
| Base64.DecodeBytes | src/app/page.tsx:100-102 | forgiving decode succeeds exactly when the stripped, unpadded text is alphabet characters whose length is not 1 mod 4 |
| Base64.FromCharCodes | src/app/page.tsx:97 | `String.fromCharCode(...arr)` gives one Latin-1 character per byte, with that byte as its code |
| Base64.CharCodes | src/app/page.tsx:101 | `charCodeAt(0)` of each character of a Latin-1 string gives a byte per character, equal to its code |
| Base64.Btoa | src/app/page.tsx:97 | `btoa` succeeds exactly on Latin-1 strings |
| Base64.Atob | src/app/page.tsx:101 | whatever `atob` returns is a Latin-1 string |
| Base64.ArrayToBase64 | src/app/page.tsx:96-98 | `arrayToBase64` gives 4*ceil(n/3) characters of the alphabet and `=`; its meaning is fixed by the round trip, injectivity and the RFC 4648 vectors below |
| Base64.Base64ToArray | src/app/page.tsx:100-102 | `base64ToArray` succeeds exactly when the input without whitespace and padding is alphabet characters whose length is not 1 mod 4 |
| Base64.ArrayToBase64IsBtoa | src/app/page.tsx:96-98 | `btoa` of the char-code string of any byte array succeeds, and its result is the model of `arrayToBase64` |
| Base64.Base64ToArrayIsAtob | src/app/page.tsx:100-102 | the model of `base64ToArray` fails exactly when `atob` throws, and otherwise gives the char codes of `atob`'s result |
| Base64.GroupRoundTrip | src/app/page.tsx:96-102 | three bytes encode to four well-formed digits that decode back to the same three bytes |
| Base64.Tail2RoundTrip | src/app/page.tsx:96-102 | a final pair of bytes encodes to three digits that decode back to that pair |
| Base64.Tail1RoundTrip | src/app/page.tsx:96-102 | a final single byte encodes to two digits that decode back to that byte |
| Base64.DigitsRoundTrip | src/app/page.tsx:96-102 | the unpadded digits of any byte sequence are well formed and decode back to it (proved by induction over the groups) |
| Base64.DropPaddingOfPadded | src/app/page.tsx:100-102 | the decode's padding step removes exactly the padding the encoder appended |
| Base64.EncodedNeedsNoStrip | src/app/page.tsx:96-102 | an encoding contains no whitespace, so the decode's first step leaves it unchanged |
| Base64.EncodedPaddingDrops | src/app/page.tsx:96-102 | the padding step takes an encoding back to its digits |
| Base64.ArrayRoundTrip | src/app/page.tsx:96-102 | `base64ToArray(arrayToBase64(b)) == b` for every byte array b |
| Base64.ArrayToBase64Injective | src/app/page.tsx:96-98 | distinct byte arrays never share an encoding |
| Base64.Rfc4648VectorsFoo | src/app/page.tsx:96-98 | the encodings of "", "f", "fo" and "foo" are the test vectors of section 10 of RFC 4648 |
| Base64.Rfc4648VectorsFoobar | src/app/page.tsx:96-98 | the encodings of "foob", "fooba" and "foobar" are the test vectors of section 10 of RFC 4648 |
| Entries.NewEntry | src/app/page.tsx:245-250 | a new record carries the given id and timestamps, and every form field |
| Entries.ApplyForm | src/app/page.tsx:264 | an edited record takes every form field and the new `updatedAt`, and keeps its `id` and `createdAt` |
| Entries.CountId | src/app/page.tsx:275 | the number of records with an id is zero exactly when no record has it, and never exceeds the length |
| Entries.EditById | src/app/page.tsx:262-266 | edit keeps the length and order; each record with the selected id gets the form and the clock reading taken when the edit reaches it, every other record is unchanged, and all ids and creation times stay |
| Entries.EditAbsent | src/app/page.tsx:262-266 | editing an id that is absent leaves the list equal |
| Entries.EditIdempotent | src/app/page.tsx:262-266 | applying the same edit twice equals applying it once |
| Entries.DeleteById | src/app/page.tsx:275 | delete removes exactly the records with the id: the length drops by their count, none with the id remain, and every other record remains |
| Entries.DeleteDistributes | src/app/page.tsx:275 | delete works piecewise over a concatenation, so the relative order of the rest is kept |
| Entries.DeleteAbsent | src/app/page.tsx:275 | deleting an absent id leaves the list equal |
| Entries.DeleteIdempotent | src/app/page.tsx:275 | deleting the same id twice equals deleting it once |
| Entries.DeleteAfterAppend | src/app/page.tsx:252-275 | deleting the id of a record just appended gives the old list with that id deleted |
| Entries.AsciiLower | src/app/page.tsx:343-344 | lowercasing keeps the length, leaves no ASCII capital, and keeps every other character |
| Entries.MatchesFilter | src/app/page.tsx:343-346 | a record is shown when the search occurs in its title or username after ASCII lowercasing, and its category equals the filter or the filter is `all` |
| Entries.AsciiLowerIdempotent | src/app/page.tsx:343-344 | lowercasing twice is lowercasing once |
| Entries.SearchIgnoresCase | src/app/page.tsx:343-344 | the search ignores case: lowercasing the query first gives the same answer for every record |
| Entries.EmptySearchMatchesCategory | src/app/page.tsx:343-346 | with an empty search, only the category decides whether a record is shown |
| Entries.FilterEntries | src/app/page.tsx:342-347 | the filter keeps exactly the records whose title or username contains the search, case-insensitively, and whose category matches or the filter is `all` |
| Entries.FilterAllShowsEverything | src/app/page.tsx:342-347 | an empty search with category `all` shows the whole list in order |
| Entries.FilterDistributes | src/app/page.tsx:342-347 | the filter works piecewise over a concatenation, so it keeps the list order |
| Vault.EnvelopeJson | src/app/page.tsx:182 | the stored JSON is an object of the three quoted fields: 29 characters of keys and punctuation plus the fields, from `{` to `}` |
| Vault.EnvelopeJsonInjective | src/app/page.tsx:182 | envelopes whose fields need no escaping have distinct JSON texts, so the text determines the three fields |
| Vault.Envelope | src/app/page.tsx:177-181 | the envelope's three base64 fields need no escaping in JSON |
| Vault.SavedVault | src/app/page.tsx:174-183 | what `saveData` writes is never empty, so the next mount shows the locked screen |
| Vault.Base64IsJsonPlain | src/app/page.tsx:177-182 | base64 text needs no escaping inside a JSON string |
| Vault.EnvelopeFields | src/app/page.tsx:174-183 | the envelope's salt, iv and data fields decode back to the held salt, this write's IV and the ciphertext of the serialised list |
| Vault.OpenVault | src/app/page.tsx:207-231 | a successful unlock holds the salt decoded from the stored envelope's `salt` field and the key derived from the typed password and that salt |
| Vault.SaveThenOpen | src/app/page.tsx:174-231 | what `saveData` stored, unlocked with the password the key came from, gives back the same salt, key and list |
| Vault.WrongPasswordRejected | src/app/page.tsx:207-231 | a password whose derived key differs does not open the vault |
| Vault.OpenOnlyGenuine | src/app/page.tsx:212-219 | a successful unlock implies the stored data is a genuine encryption, under the derived key and the stored IV, of a text that parses to the loaded list |
| Generator.Charset | src/app/page.tsx:306-311 | the charset is never empty; it holds exactly the allowed characters, with lowercase alone when no class is on; its length is the sum of the enabled class sizes |
| Generator.BuildCharset | src/app/page.tsx:306-311 | appending the enabled classes in the order upper, lower, digits, symbols, with the lowercase fallback, builds that charset |
| Generator.GeneratePassword | src/app/page.tsx:313-318 | the password has exactly the requested length, character i is `chars[r[i] % chars.length]`, and every character is allowed |
| Generator.CharsetAllowed | src/app/page.tsx:306-311 | every position of the charset holds an allowed character |
| Session.InitialScreen | src/app/page.tsx:156-162 | the first screen is never unlocked; it is setup exactly when there is no stored vault |
| Session.HasVault | src/app/page.tsx:158 | there is a vault exactly when the slot holds a non-empty string |
| Session.IdleExpired | src/app/page.tsx:144 | the idle test holds exactly when more than 300000 ms have passed since the last activity |
| Session.IdleExpiredMonotone | src/app/page.tsx:144 | activity just now is never idle, and once idle, every later tick is idle too until new activity |
| Session.DecimalString | src/app/page.tsx:246 | the id text is a non-empty string of decimal digits with no leading zero unless the number is 0 |
| Session.DecimalStringValue | src/app/page.tsx:246 | the digits of the id spell the clock reading they were written from |
| Session.DecimalStringInjective | src/app/page.tsx:246 | distinct clock readings give distinct ids |
| Session.Mounted | src/app/page.tsx:106-162 | after mount the screen is the init choice, no key, salt or list is held, and the activity clock starts at mount time |
| Session.AfterLock | src/app/page.tsx:233-240 | lock drops the key and the list, shows the locked screen, empties the search, sets the category filter to `all` and closes the modal; every other field (salt, both password fields, error, selection, activity clock, form, generator settings) stays |
| Session.VaultLock.constructor | src/app/page.tsx:106-162 | mounting establishes the invariant and the mounted state |
| Session.VaultLock.SaveData | src/app/page.tsx:174-183 | the slot holds the envelope of the list under the key, the salt and the drawn IV; a refused write leaves the slot as it was |
| Session.VaultLock.HandleSetup | src/app/page.tsx:186-205 | a short password sets only the error; then a mismatch sets only the error; otherwise the fresh salt and derived key are held, the empty list is saved, and the unlocked screen is shown with both fields and the error cleared |
| Session.VaultLock.HandleUnlock | src/app/page.tsx:207-231 | with no vault nothing changes; any failure only sets the one generic error; success sets salt, key and list together, unlocks, clears the field and restarts the activity clock |
| Session.VaultLock.HandleLock | src/app/page.tsx:233-240 | the state becomes the lock transition of the old state, and the invariant is kept |
| Session.VaultLock.IdleTick | src/app/page.tsx:137-147 | the tick locks exactly when the screen is unlocked and more than 300000 ms have passed since the last activity; otherwise nothing changes |
| Session.VaultLock.RecordActivity | src/app/page.tsx:135-141 | an input event moves the activity clock only while unlocked |
| Session.VaultLock.HandleAddEntry | src/app/page.tsx:242-257 | without a title, password, key or salt nothing changes; otherwise the new record is appended after the unchanged old list, the whole list is saved, and the modal and form are reset |
| Session.VaultLock.HandleEditEntry | src/app/page.tsx:259-271 | without a selection, key or salt nothing changes; otherwise the list becomes the edit by the selected id, with one clock reading per matching record, it is saved, and the modal and form are reset |
| Session.VaultLock.HandleDeleteEntry | src/app/page.tsx:273-279 | without a key or salt nothing changes; otherwise the list becomes the delete by the id, it is saved, and the modal closes |
| Session.VaultLock.ResetForm | src/app/page.tsx:281-284 | the form is emptied (category `other`) and the selection cleared, nothing else |
| Session.VaultLock.OpenEdit | src/app/page.tsx:286-297 | the record is selected, its fields fill the form, and the edit modal shows |
| Session.VaultLock.OpenView | src/app/page.tsx:299-302 | the record is selected and the view modal shows |
| Session.VaultLock.HandleGeneratePassword | src/app/page.tsx:305-320 | only the form's password changes; it has the generator length and character i is `chars[r[i] % chars.length]` |
| Scenarios.SetUpThenLock | src/app/page.tsx:186-240 | after setup and lock, the slot holds the empty list sealed under the derived key, and the screen is locked with no list in memory |
| Scenarios.SetUpAddThenLock | src/app/page.tsx:186-257 | after setup, one add and lock, the slot holds the one-record list sealed under the derived key |
| Scenarios.TypeAndUnlock | src/app/page.tsx:207-231 | when the stored vault opens to a list, unlock shows that list with no error |
| Scenarios.TypeAndFail | src/app/page.tsx:207-231 | when the stored vault does not open, unlock keeps the screen and the list and sets the generic error |
| Scenarios.SetupLockUnlock | src/app/page.tsx:186-240 | set up, lock, then unlock with the same password: unlocked, empty list, no error |
| Scenarios.AddSurvivesLock | src/app/page.tsx:186-257 | an entry added after setup is there again after lock and unlock with the same password |
| Scenarios.WrongPasswordStaysLocked | src/app/page.tsx:207-240 | after setup and lock, a password with a different derived key leaves the screen locked, the list empty, and the generic error set |
| Scenarios.IdleClockRunsFromMount | src/app/page.tsx:117-205 | setup does not restart the idle clock: the first check more than five minutes after mount locks at once |

## Left out

- WebCrypto internals are left out: PBKDF2-HMAC-SHA256 with 100000 iterations, and AES-256-GCM (`src/app/page.tsx:52-94`). They are functions of `Vault.Platform`, with the constants kept as named values. A rejected `deriveKey` or `encrypt` promise is not modelled.
- Random draws (`crypto.getRandomValues` for the salt, the IV and the generator words) are parameters.
- Clock reads (`Date.now()`, `toISOString()`) are parameters. The three clock reads in add are independent parameters, and so is the reading edit takes for each record.
- `JSON.stringify`/`JSON.parse` of the list and `TextEncoder`/`TextDecoder` are abstract, with round-trip laws.
- The envelope's `JSON.stringify` is written out only for fields that need no escaping, which covers everything base64 produces.
- `Vault.OpenVault`: the second `JSON.parse` of the decrypted text succeeds only when it yields a list. JSON text that parses to a non-list value, which the source would store as `entries`, counts as a failure here.
- Local storage is one optional string. The only I/O error modelled is a refused write (`writeFails`); a failing read is not.
- React effects, event-listener registration, `setInterval`, and async interleaving are left out.
  - Each handler is one atomic step.
  - The interval callback is `IdleTick`, called once per tick.
  - Input events are `RecordActivity`.
  - A stale `lastActivity` captured by an interval closure is not modelled.
- UI-only state setters (typing into inputs, the search box, the category buttons, the generator switches) are direct updates of the `state` record.
- Clipboard copy, backup export, the PWA install prompt, the show-password and copied flags, all rendering, and `src/app/layout.tsx` are not part of this model.
- `Entries.AsciiLower`: `toLowerCase` is modelled on ASCII letters only. Other characters are left unchanged.
- `Session.VaultLock.HandleSetup`: the length check counts characters of the model string, not UTF-16 code units.
- Optional `url` and `notes` are modelled as the empty string when absent.
- The engine's limit on the number of arguments to `String.fromCharCode(...arr)` is not modelled.
- The source does not implement several things, and the model does not claim them:
  - unique ids (`Date.now()` may repeat);
  - envelope version tags;
  - salt and IV length checks on decode;
  - rollback after a failed write;
  - zeroising of key material.
- `Generator.GeneratePassword` states the `% chars.length` mapping but says nothing about its modulo bias.
