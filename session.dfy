/**
 The `VaultLock` component: its state, the screen it starts on, and the
 handlers that move it between the setup, locked and unlocked screens, change
 the credential list and re-persist it, run the idle auto-lock check and fill
 the form with a generated password.

 Each handler is one atomic step. The clock (`Date.now()`, `toISOString()`),
 the random draws (salt, IV, generator words) and whether local storage
 accepts a write are parameters of the step that uses them.
 */
module Session {

  import opened Wrappers
  import opened Base64
  import opened Entries
  import opened Vault
  import Generator

  datatype Screen = Setup | Locked | Unlocked

  datatype Modal = NoModal | ViewModal | AddModal | EditModal

  /** Idle time after which the interval check locks: five minutes in milliseconds. */
  const IDLE_LIMIT_MS := 5 * 60 * 1000
  /** Period of the interval that runs the check while unlocked. */
  const POLL_INTERVAL_MS := 10000
  /** Shortest master password setup accepts. */
  const MIN_MASTER_LENGTH := 8

  const ERR_TOO_SHORT := "Mínimo 8 caracteres"
  const ERR_MISMATCH := "Las contraseñas no coinciden"
  const ERR_WRONG_PASSWORD := "Contraseña incorrecta"

  /** The slot holds a vault: a stored string that is not empty (an empty one counts as none). */
  predicate HasVault(stored: Option<string>) {
    stored.Some? && stored.value != ""
  }

  /** The init effect: setup when there is no stored vault, locked otherwise. */
  function InitialScreen(stored: Option<string>): (s: Screen)
    ensures s != Unlocked
    ensures s == Setup <==> !HasVault(stored)
  {
    if !HasVault(stored) then Setup else Locked
  }

  /** The interval's test: strictly more than the idle limit has passed since the last activity. */
  predicate IdleExpired(now: int, lastActivity: int) {
    now - lastActivity > IDLE_LIMIT_MS
  }

  /** Activity just now never counts as idle, and once idle, later ticks stay idle until new activity. */
  lemma IdleExpiredMonotone(lastActivity: int, now: int, later: int)
    ensures !IdleExpired(lastActivity, lastActivity)
    ensures IdleExpired(now, lastActivity) && now <= later ==> IdleExpired(later, lastActivity)
  {
  }

  /** The decimal text of a non-negative millisecond count, as `toString` writes it: no leading zero. */
  function DecimalString(n: nat): (s: string)
    ensures |s| > 0
    ensures forall i :: 0 <= i < |s| ==> '0' <= s[i] <= '9'
    ensures s[0] == '0' <==> n == 0
  {
    if n < 10 then [('0' as int + n) as char]
    else DecimalString(n / 10) + [('0' as int + n % 10) as char]
  }

  /** The number a string of decimal digits stands for. */
  function DigitsValue(s: string): nat
    requires forall i :: 0 <= i < |s| ==> '0' <= s[i] <= '9'
  {
    if s == [] then 0 else DigitsValue(s[..|s| - 1]) * 10 + (s[|s| - 1] as int - '0' as int)
  }

  /** The digits spell the number they were written from. */
  lemma {:induction false} DecimalStringValue(n: nat)
    ensures DigitsValue(DecimalString(n)) == n
    decreases n
  {
    if n >= 10 {
      DecimalStringValue(n / 10);
      var s := DecimalString(n);
      assert s[..|s| - 1] == DecimalString(n / 10);
    }
  }

  /** Distinct clock readings give distinct ids. */
  lemma DecimalStringInjective(m: nat, n: nat)
    requires DecimalString(m) == DecimalString(n)
    ensures m == n
  {
    DecimalStringValue(m);
    DecimalStringValue(n);
  }

  /** The generator settings the component starts with: 16 characters, every class on. */
  const DefaultGen := Generator.Options(16, true, true, true, true)

  /**
   The component's React state. A handler's setter calls take effect
   together, as one update of this value.
   */
  datatype State = State(
    screen: Screen,
    masterPassword: string,
    confirmPassword: string,
    entries: seq<Entry>,
    cryptoKey: Option<CryptoKey>,
    salt: Option<seq<byte>>,
    error: string,
    search: string,
    filterCategory: string,
    showModal: Modal,
    selectedEntry: Option<Entry>,
    lastActivity: int,
    formData: Form,
    gen: Generator.Options)

  /** The state after mount and the init effect. */
  function Mounted(stored: Option<string>, now: int): (s: State)
    ensures s.screen == InitialScreen(stored)
    ensures s.cryptoKey.None? && s.salt.None? && s.entries == [] && s.lastActivity == now
  {
    State(InitialScreen(stored), "", "", [], None, None, "", "", "all", NoModal, None, now, EmptyForm,
          DefaultGen)
  }

  /** What `handleLock` leaves: no key, no list, the locked screen, search, filter and modal reset. */
  function AfterLock(s: State): (r: State)
    ensures r.cryptoKey.None? && r.entries == [] && r.screen == Locked
    ensures r.search == "" && r.filterCategory == "all" && r.showModal == NoModal
    ensures r.salt == s.salt && r.masterPassword == s.masterPassword && r.confirmPassword == s.confirmPassword
    ensures r.error == s.error && r.selectedEntry == s.selectedEntry && r.lastActivity == s.lastActivity
    ensures r.formData == s.formData && r.gen == s.gen
  {
    s.(cryptoKey := None, entries := [], screen := Locked, search := "", filterCategory := "all",
       showModal := NoModal)
  }

  class VaultLock {

    /** The WebCrypto and JSON functions the component calls. */
    const plat: Platform

    /** `localStorage['vaultlock-data']`. */
    var storage: Option<string>

    /** The `useState` variables of the component. */
    var state: State

    /** The master password the held key was derived from (never stored by the component). */
    ghost var keyPassword: string

    /**
     The component's invariant: the unlocked screen holds a key; a key never
     comes without its salt and is the one derived from that salt; no key
     means no list in memory.
     */
    ghost predicate Valid()
      reads this
    {
      && (state.screen == Unlocked ==> state.cryptoKey.Some?)
      && (state.cryptoKey.Some? ==>
            state.salt.Some? && state.cryptoKey.value == plat.deriveKey(keyPassword, state.salt.value))
      && (state.cryptoKey.None? ==> state.entries == [])
    }

    /** Mount: initial state, then the init effect picks the screen from the storage slot. */
    constructor (plat: Platform, stored: Option<string>, now: int)
      ensures Valid()
      ensures this.plat == plat && storage == stored
      ensures state == Mounted(stored, now)
    {
      this.plat := plat;
      storage := stored;
      state := Mounted(stored, now);
      keyPassword := "";
    }

    /** `saveData(list, key, salt)` with `encrypt` drawing `iv`; the write may be refused. */
    method SaveData(list: seq<Entry>, key: CryptoKey, currentSalt: seq<byte>, iv: seq<byte>, writeFails: bool)
      modifies this`storage
      ensures storage == if writeFails then old(storage) else Some(SavedVault(plat, list, key, currentSalt, iv))
    {
      if !writeFails {
        storage := Some(SavedVault(plat, list, key, currentSalt, iv));
      }
    }

    /**
     `handleSetup`. Too short a password, then (checked second) a confirmation
     that differs, only sets the error. Otherwise the fresh salt and the derived
     key are held, the empty list is saved and the unlocked screen shown with
     both password fields cleared. A refused write stops after the key is held.
     */
    method HandleSetup(newSalt: seq<byte>, iv: seq<byte>, writeFails: bool)
      requires Valid()
      requires |newSalt| == SALT_LENGTH && |iv| == IV_LENGTH
      modifies this
      ensures Valid()
      ensures |old(state.masterPassword)| < MIN_MASTER_LENGTH ==>
        state == old(state).(error := ERR_TOO_SHORT) && storage == old(storage)
      ensures |old(state.masterPassword)| >= MIN_MASTER_LENGTH && old(state.masterPassword) != old(state.confirmPassword) ==>
        state == old(state).(error := ERR_MISMATCH) && storage == old(storage)
      ensures |old(state.masterPassword)| >= MIN_MASTER_LENGTH && old(state.masterPassword) == old(state.confirmPassword) ==>
        var key := plat.deriveKey(old(state.masterPassword), newSalt);
        if writeFails then
          state == old(state).(salt := Some(newSalt), cryptoKey := Some(key)) && storage == old(storage)
        else
          state == old(state).(salt := Some(newSalt), cryptoKey := Some(key), screen := Unlocked,
                               masterPassword := "", confirmPassword := "", error := "")
          && storage == Some(SavedVault(plat, [], key, newSalt, iv))
    {
      if |state.masterPassword| < MIN_MASTER_LENGTH {
        state := state.(error := ERR_TOO_SHORT);
        return;
      }
      if state.masterPassword != state.confirmPassword {
        state := state.(error := ERR_MISMATCH);
        return;
      }
      var key := plat.deriveKey(state.masterPassword, newSalt);
      keyPassword := state.masterPassword;
      state := state.(salt := Some(newSalt), cryptoKey := Some(key));
      SaveData([], key, newSalt, iv, writeFails);
      if writeFails {
        return;
      }
      state := state.(screen := Unlocked, masterPassword := "", confirmPassword := "", error := "");
    }

    /**
     `handleUnlock`. No stored vault: nothing happens. Any failure of the
     parse-decode-derive-decrypt-parse pipeline: only the one generic error is
     set. Success: salt, key and list come from the stored vault together, the
     unlocked screen is shown and the activity clock restarts.
     */
    method HandleUnlock(now: int)
      requires Valid()
      modifies this`state, this`keyPassword
      ensures Valid()
      ensures !HasVault(storage) ==> state == old(state)
      ensures HasVault(storage) ==>
        var r := OpenVault(plat, storage.value, old(state.masterPassword));
        state == if r.None? then old(state).(error := ERR_WRONG_PASSWORD)
          else old(state).(salt := Some(r.value.salt), cryptoKey := Some(r.value.key),
                           entries := r.value.entries, screen := Unlocked, masterPassword := "",
                           error := "", lastActivity := now)
    {
      if !HasVault(storage) {
        return;
      }
      var result := OpenVault(plat, storage.value, state.masterPassword);
      if result.None? {
        state := state.(error := ERR_WRONG_PASSWORD);
        return;
      }
      keyPassword := state.masterPassword;
      state := state.(salt := Some(result.value.salt), cryptoKey := Some(result.value.key),
                      entries := result.value.entries, screen := Unlocked, masterPassword := "",
                      error := "", lastActivity := now);
    }

    /** `handleLock`: the key and the list go, the salt and the stored vault stay. */
    method HandleLock()
      requires Valid()
      modifies this`state
      ensures Valid()
      ensures state == AfterLock(old(state))
    {
      state := AfterLock(state);
    }

    /** One tick of the auto-lock interval, which only runs while unlocked. */
    method IdleTick(now: int)
      requires Valid()
      modifies this`state
      ensures Valid()
      ensures state == if old(state.screen) == Unlocked && IdleExpired(now, old(state.lastActivity))
                       then AfterLock(old(state)) else old(state)
    {
      if state.screen != Unlocked {
        return;
      }
      if now - state.lastActivity > IDLE_LIMIT_MS {
        HandleLock();
      }
    }

    /** A mouse, key, touch or scroll event; the listeners are attached only while unlocked. */
    method RecordActivity(now: int)
      requires Valid()
      modifies this`state
      ensures Valid()
      ensures state == if old(state.screen) == Unlocked then old(state).(lastActivity := now) else old(state)
    {
      if state.screen == Unlocked {
        state := state.(lastActivity := now);
      }
    }

    /**
     `handleAddEntry`. Without a title, a password, a key or a salt nothing
     happens. Otherwise the new entry is appended, the whole list is saved
     under the held key and salt, and the modal and form are reset; a refused
     write leaves the appended list in memory and the old vault in storage.
     */
    method HandleAddEntry(idNow: nat, createdAt: string, updatedAt: string, iv: seq<byte>, writeFails: bool)
      requires Valid()
      modifies this`state, this`storage
      ensures Valid()
      ensures old(state.formData.title == "" || state.formData.password == "" || state.cryptoKey.None? || state.salt.None?) ==>
        state == old(state) && storage == old(storage)
      ensures old(state.formData.title != "" && state.formData.password != "" && state.cryptoKey.Some? && state.salt.Some?) ==>
        var updated := old(state.entries) + [NewEntry(DecimalString(idNow), old(state.formData), createdAt, updatedAt)];
        if writeFails then
          state == old(state).(entries := updated) && storage == old(storage)
        else
          state == old(state).(entries := updated, showModal := NoModal, formData := EmptyForm, selectedEntry := None)
          && storage == Some(SavedVault(plat, updated, old(state.cryptoKey).value, old(state.salt).value, iv))
    {
      if state.formData.title == "" || state.formData.password == "" || state.cryptoKey.None? || state.salt.None? {
        return;
      }
      var newEntry := NewEntry(DecimalString(idNow), state.formData, createdAt, updatedAt);
      var updated := state.entries + [newEntry];
      state := state.(entries := updated);
      SaveData(updated, state.cryptoKey.value, state.salt.value, iv, writeFails);
      if writeFails {
        return;
      }
      state := state.(showModal := NoModal);
      ResetForm();
    }

    /**
     `handleEditEntry`. Without a selected entry, a key or a salt nothing
     happens. Otherwise every entry with the selected id takes the form and
     the update time read when the edit reaches it (`stamps`, one per record),
     and the list is saved as for add.
     */
    method HandleEditEntry(stamps: seq<string>, iv: seq<byte>, writeFails: bool)
      requires Valid()
      requires |stamps| == |state.entries|
      modifies this`state, this`storage
      ensures Valid()
      ensures old(state.selectedEntry.None? || state.cryptoKey.None? || state.salt.None?) ==>
        state == old(state) && storage == old(storage)
      ensures old(state.selectedEntry.Some? && state.cryptoKey.Some? && state.salt.Some?) ==>
        var updated := EditById(old(state.entries), old(state.selectedEntry).value.id, old(state.formData), stamps);
        if writeFails then
          state == old(state).(entries := updated) && storage == old(storage)
        else
          state == old(state).(entries := updated, showModal := NoModal, formData := EmptyForm, selectedEntry := None)
          && storage == Some(SavedVault(plat, updated, old(state.cryptoKey).value, old(state.salt).value, iv))
    {
      if state.selectedEntry.None? || state.cryptoKey.None? || state.salt.None? {
        return;
      }
      var updated := EditById(state.entries, state.selectedEntry.value.id, state.formData, stamps);
      state := state.(entries := updated);
      SaveData(updated, state.cryptoKey.value, state.salt.value, iv, writeFails);
      if writeFails {
        return;
      }
      state := state.(showModal := NoModal);
      ResetForm();
    }

    /**
     `handleDeleteEntry(id)`. Without a key or a salt nothing happens.
     Otherwise the entries with that id are filtered out, the list is saved
     and the modal closed.
     */
    method HandleDeleteEntry(id: string, iv: seq<byte>, writeFails: bool)
      requires Valid()
      modifies this`state, this`storage
      ensures Valid()
      ensures old(state.cryptoKey.None? || state.salt.None?) ==> state == old(state) && storage == old(storage)
      ensures old(state.cryptoKey.Some? && state.salt.Some?) ==>
        var updated := DeleteById(old(state.entries), id);
        if writeFails then
          state == old(state).(entries := updated) && storage == old(storage)
        else
          state == old(state).(entries := updated, showModal := NoModal)
          && storage == Some(SavedVault(plat, updated, old(state.cryptoKey).value, old(state.salt).value, iv))
    {
      if state.cryptoKey.None? || state.salt.None? {
        return;
      }
      var updated := DeleteById(state.entries, id);
      state := state.(entries := updated);
      SaveData(updated, state.cryptoKey.value, state.salt.value, iv, writeFails);
      if writeFails {
        return;
      }
      state := state.(showModal := NoModal);
    }

    /** `resetForm`: the empty form, no selected entry. */
    method ResetForm()
      modifies this`state
      ensures state == old(state).(formData := EmptyForm, selectedEntry := None)
    {
      state := state.(formData := EmptyForm, selectedEntry := None);
    }

    /** `openEdit(entry)`: select the entry, load its fields into the form, show the edit modal. */
    method OpenEdit(entry: Entry)
      modifies this`state
      ensures state == old(state).(selectedEntry := Some(entry), formData := FormOf(entry), showModal := EditModal)
    {
      state := state.(selectedEntry := Some(entry), formData := FormOf(entry), showModal := EditModal);
    }

    /** `openView(entry)`: select the entry and show it. */
    method OpenView(entry: Entry)
      modifies this`state
      ensures state == old(state).(selectedEntry := Some(entry), showModal := ViewModal)
    {
      state := state.(selectedEntry := Some(entry), showModal := ViewModal);
    }

    /** `generatePassword`: only the form's password changes. */
    method HandleGeneratePassword(random: seq<Generator.uint32>)
      requires |random| == state.gen.length
      modifies this`state
      ensures state == old(state).(formData := old(state.formData).(password := state.formData.password))
      ensures |state.formData.password| == state.gen.length
      ensures forall i :: 0 <= i < state.gen.length ==>
        state.formData.password[i] == Generator.Charset(state.gen)[random[i] % |Generator.Charset(state.gen)|]
    {
      var result := Generator.GeneratePassword(state.gen, random);
      state := state.(formData := state.formData.(password := result));
    }
  }
}
