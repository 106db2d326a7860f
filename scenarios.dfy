/**
 Runs of the component through several handlers, as a user drives it: the
 stored vault outlives locking, a wrong password does not open it, and the
 idle clock is not restarted by setup. Each run is split into steps (set
 up, type and unlock) so that every step is proved on its own.
 */
module Scenarios {

  import opened Wrappers
  import opened Base64
  import opened Entries
  import opened Vault
  import opened Session

  /** Mount with no stored vault, type `password` twice, set up, lock. */
  method SetUpThenLock(plat: Platform, password: string, newSalt: seq<byte>, iv: seq<byte>, t0: int)
    returns (app: VaultLock)
    requires |password| >= MIN_MASTER_LENGTH
    requires |newSalt| == SALT_LENGTH && |iv| == IV_LENGTH
    ensures fresh(app) && app.Valid() && app.plat == plat
    ensures app.storage == Some(SavedVault(plat, [], plat.deriveKey(password, newSalt), newSalt, iv))
    ensures app.state.screen == Locked && app.state.entries == []
  {
    app := new VaultLock(plat, None, t0);
    app.state := app.state.(masterPassword := password, confirmPassword := password);
    app.HandleSetup(newSalt, iv, false);
    app.HandleLock();
  }

  /** Mount with no stored vault, set up with `password`, add one entry from `form`, lock. */
  method SetUpAddThenLock(plat: Platform, password: string, newSalt: seq<byte>, iv: seq<byte>,
                          form: Form, idNow: nat, createdAt: string, updatedAt: string, iv2: seq<byte>, t0: int)
    returns (app: VaultLock)
    requires |password| >= MIN_MASTER_LENGTH
    requires |newSalt| == SALT_LENGTH && |iv| == IV_LENGTH
    requires form.title != "" && form.password != ""
    ensures fresh(app) && app.Valid() && app.plat == plat
    ensures app.storage == Some(SavedVault(plat, [NewEntry(DecimalString(idNow), form, createdAt, updatedAt)],
                                           plat.deriveKey(password, newSalt), newSalt, iv2))
    ensures app.state.screen == Locked && app.state.entries == []
  {
    app := new VaultLock(plat, None, t0);
    app.state := app.state.(masterPassword := password, confirmPassword := password);
    app.HandleSetup(newSalt, iv, false);
    app.state := app.state.(formData := form);
    ghost var e := NewEntry(DecimalString(idNow), form, createdAt, updatedAt);
    assert [] + [e] == [e];
    app.HandleAddEntry(idNow, createdAt, updatedAt, iv2, false);
    app.HandleLock();
  }

  /** Type `password` on the locked screen and press unlock, when the stored vault opens to `o`. */
  method TypeAndUnlock(app: VaultLock, password: string, o: Opened, t1: int)
    requires app.Valid() && HasVault(app.storage)
    requires OpenVault(app.plat, app.storage.value, password) == Some(o)
    modifies app
    ensures app.Valid()
    ensures app.state.screen == Unlocked && app.state.entries == o.entries && app.state.error == ""
  {
    app.state := app.state.(masterPassword := password);
    app.HandleUnlock(t1);
  }

  /** Type `password` on the locked screen and press unlock, when the stored vault does not open. */
  method TypeAndFail(app: VaultLock, password: string, t1: int)
    requires app.Valid() && HasVault(app.storage)
    requires OpenVault(app.plat, app.storage.value, password) == None
    modifies app
    ensures app.Valid()
    ensures app.state.screen == old(app.state.screen) && app.state.entries == old(app.state.entries)
    ensures app.state.error == ERR_WRONG_PASSWORD
  {
    app.state := app.state.(masterPassword := password);
    app.HandleUnlock(t1);
  }

  /** Set up a vault with `password`, lock, type the same password again, unlock: the empty list is back. */
  method SetupLockUnlock(plat: Platform, password: string, newSalt: seq<byte>, iv: seq<byte>, t0: int, t1: int)
    returns (screen: Screen, entries: seq<Entry>, error: string)
    requires plat.Sound()
    requires |password| >= MIN_MASTER_LENGTH
    requires |newSalt| == SALT_LENGTH && |iv| == IV_LENGTH
    ensures screen == Unlocked && entries == [] && error == ""
  {
    var app := SetUpThenLock(plat, password, newSalt, iv, t0);
    var key := plat.deriveKey(password, newSalt);
    SaveThenOpen(plat, [], password, newSalt, iv);
    TypeAndUnlock(app, password, Opened(newSalt, key, []), t1);
    screen, entries, error := app.state.screen, app.state.entries, app.state.error;
  }

  /** After setup, an entry added and saved is there again after lock and unlock. */
  method AddSurvivesLock(plat: Platform, password: string, newSalt: seq<byte>, iv: seq<byte>,
                         form: Form, idNow: nat, createdAt: string, updatedAt: string, iv2: seq<byte>,
                         t0: int, t1: int)
    returns (screen: Screen, entries: seq<Entry>)
    requires plat.Sound()
    requires |password| >= MIN_MASTER_LENGTH
    requires |newSalt| == SALT_LENGTH && |iv| == IV_LENGTH
    requires form.title != "" && form.password != ""
    ensures screen == Unlocked
    ensures entries == [NewEntry(DecimalString(idNow), form, createdAt, updatedAt)]
  {
    var app := SetUpAddThenLock(plat, password, newSalt, iv, form, idNow, createdAt, updatedAt, iv2, t0);
    var key := plat.deriveKey(password, newSalt);
    var list := [NewEntry(DecimalString(idNow), form, createdAt, updatedAt)];
    SaveThenOpen(plat, list, password, newSalt, iv2);
    TypeAndUnlock(app, password, Opened(newSalt, key, list), t1);
    screen, entries := app.state.screen, app.state.entries;
  }

  /** A password whose derived key differs is refused: the screen stays locked with the one generic error. */
  method WrongPasswordStaysLocked(plat: Platform, password: string, guess: string, newSalt: seq<byte>,
                                  iv: seq<byte>, t0: int, t1: int)
    returns (screen: Screen, entries: seq<Entry>, error: string)
    requires plat.Sound()
    requires |password| >= MIN_MASTER_LENGTH
    requires |newSalt| == SALT_LENGTH && |iv| == IV_LENGTH
    requires plat.deriveKey(guess, newSalt) != plat.deriveKey(password, newSalt)
    ensures screen == Locked && entries == [] && error == ERR_WRONG_PASSWORD
  {
    var app := SetUpThenLock(plat, password, newSalt, iv, t0);
    var key := plat.deriveKey(password, newSalt);
    WrongPasswordRejected(plat, [], password, guess, newSalt, iv);
    TypeAndFail(app, guess, t1);
    screen, entries, error := app.state.screen, app.state.entries, app.state.error;
  }

  /**
   Setup does not restart the idle clock: the first check after a setup
   finished more than five minutes after mount locks at once.
   */
  method IdleClockRunsFromMount(plat: Platform, password: string, newSalt: seq<byte>, iv: seq<byte>,
                                t0: int, now: int)
    returns (screen: Screen, entries: seq<Entry>)
    requires |password| >= MIN_MASTER_LENGTH
    requires |newSalt| == SALT_LENGTH && |iv| == IV_LENGTH
    requires now - t0 > IDLE_LIMIT_MS
    ensures screen == Locked && entries == []
  {
    var app := new VaultLock(plat, None, t0);
    app.state := app.state.(masterPassword := password, confirmPassword := password);
    app.HandleSetup(newSalt, iv, false);
    app.IdleTick(now);
    screen, entries := app.state.screen, app.state.entries;
  }
}
