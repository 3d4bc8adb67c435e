/** Writing cookies back after slow platform calls: a session writes only over the credential it last
  * read or wrote itself.
  */
module CredentialWriteBack {
  import opened Options
  import opened Storage
  import opened GoStrings
  import opened NulKeys

  datatype Credential = Credential(value: string, metadata: string)

  /** The cookie session of one request: `State()` of the library. */
  datatype Jar = Jar(value: string, snapshot: Option<string>, changed: bool)

  /** Library functions over the metadata text, and the digest of the fingerprint. */
  datatype Library = Library(
    withSnapshot: (string, string) -> string,
    withoutSnapshot: string -> string,
    digest: string -> string)

  datatype Outcome = Unchanged | Saved | ReadFailed | Conflict | SaveFailed

  function Metadata(lib: Library, metadata: string, snapshot: Option<string>): string {
    match snapshot
    case Some(jar) => lib.withSnapshot(metadata, jar)
    case None => lib.withoutSnapshot(metadata)
  }

  /** `credentialRuntimeFingerprint`. */
  function Fingerprint(lib: Library, c: Credential): string {
    lib.digest(Key(c.value, c.metadata))
  }

  predicate Collides(lib: Library, x: string, y: string) {
    x != y && lib.digest(x) == lib.digest(y)
  }

  /** Equal fingerprints mean equal credentials when the digest has no collisions and metadata, being JSON
    * text, contains no NUL character; the cookie may contain any.
    */
  lemma FingerprintIsInjective(lib: Library, a: Credential, b: Credential)
    requires forall x, y :: !Collides(lib, x, y)
    requires NoNul(a.metadata) && NoNul(b.metadata) && Fingerprint(lib, a) == Fingerprint(lib, b)
    ensures a == b
  {
    assert !Collides(lib, Key(a.value, a.metadata), Key(b.value, b.metadata));
    KeyIsInjective(a.value, a.metadata, b.value, b.metadata);
  }

  /** The metadata functions write JSON, which escapes NUL characters, or return what was stored. */
  ghost predicate Escapes(lib: Library) {
    && (forall metadata, jar :: NoNul(lib.withSnapshot(metadata, jar)))
    && forall metadata :: NoNul(metadata) ==> NoNul(lib.withoutSnapshot(metadata))
  }

  /** What one write-back may do to the stored credential, for a session whose basis is what it last read
    * or wrote: nothing unless the stored credential is the basis.
    */
  predicate WritesBack(before: Credential, basis: Credential, after: Credential, basis': Credential) {
    && (before != basis ==> after == before && basis' == basis)
    && (basis' == basis || basis' == after)
  }

  class CredentialStore {
    var current: Credential
    var turn: nat
    const readable: nat -> bool
    const writes: nat -> Write

    constructor (current: Credential, readable: nat -> bool, writes: nat -> Write)
      ensures this.current == current
    {
      this.current, turn := current, 0;
      this.readable, this.writes := readable, writes;
    }

    /** `GetCookieRuntimeData`. */
    method Read() returns (c: Option<Credential>)
      modifies this`turn
      ensures c == if readable(old(turn)) then Some(current) else None
      ensures turn == old(turn) + 1
    {
      c := if readable(turn) then Some(current) else None;
      turn := turn + 1;
    }

    /** `UpdateRenewalCookie`. */
    method Update(c: Credential) returns (ok: bool)
      modifies this
      ensures ok <==> writes(old(turn)).Stored?
      ensures current == if writes(old(turn)).NotStored? then old(current) else c
    {
      var outcome := writes(turn);
      turn := turn + 1;
      if !outcome.NotStored? { current := c; }
      ok := outcome.Stored?;
    }
  }

  /** An account task's session: `basis` follows its own writes. */
  class TaskSession {
    const store: CredentialStore
    const lib: Library
    var basis: Credential
    var jar: Jar

    constructor (store: CredentialStore, lib: Library, jar: Jar)
      ensures this.store == store && basis == store.current && this.jar == jar && this.lib == lib
    {
      this.store, this.lib, this.jar := store, lib, jar;
      basis := store.current;
    }

    /** `persistTaskCredentialLocked`, which runs under the account's credential lock. */
    method Persist(oldValue: string, newValue: string) returns (outcome: Outcome)
      modifies store, this`basis
      ensures WritesBack(old(store.current), old(basis), store.current, basis)
      ensures Escapes(lib) && NoNul(old(store.current).metadata) ==> NoNul(store.current.metadata)
      ensures outcome.Saved? ==>
                && old(store.current) == old(basis)
                && store.current == basis == Credential(NewValue(oldValue, newValue), Metadata(lib, old(basis).metadata, jar.snapshot))
                && store.current != old(store.current)
      // the session's own cookie is stored, or the trimmed new one of a client without a session; the session's
      // snapshot goes into the stored metadata, or any snapshot is taken out of it
      ensures outcome.Saved? ==>
                && store.current.value == (if jar.snapshot == None && (exists i :: 0 <= i < |newValue| && !IsSpace(newValue[i]))
                                              && newValue != oldValue then Trim(newValue) else jar.value)
                && store.current.metadata == (if jar.snapshot.Some? then lib.withSnapshot(old(store.current).metadata, jar.snapshot.value)
                                              else lib.withoutSnapshot(old(store.current).metadata))
      ensures outcome.Conflict? ==> old(store.current) != old(basis)
      ensures outcome.Unchanged? ==>
                || (!jar.changed && (Blank(newValue) || NewValue(oldValue, newValue) == oldValue))
                || store.current == Credential(NewValue(oldValue, newValue), Metadata(lib, store.current.metadata, jar.snapshot))
      ensures outcome.ReadFailed? ==> !store.readable(old(store.turn))
      ensures outcome.SaveFailed? ==> !store.writes(old(store.turn) + 1).Stored?
      ensures !outcome.Saved? ==> basis == old(basis)
      ensures outcome.Unchanged? || outcome.Conflict? || outcome.ReadFailed? ==> store.current == old(store.current)
    {
      BlankMeansSpaces(newValue);
      var value := NewValue(oldValue, newValue);
      if !jar.changed && (Blank(newValue) || value == oldValue) { return Unchanged; }
      var data := store.Read();
      if data.None? { return ReadFailed; }
      if data.value != basis { return Conflict; }
      var next := Credential(value, Metadata(lib, data.value.metadata, jar.snapshot));
      if next == data.value { return Unchanged; }
      var ok := store.Update(next);
      if !ok { return SaveFailed; }
      basis := next;
      outcome := Saved;
    }

    /** The cookie to store: the session's own, or the one an old-style client returned. */
    function NewValue(oldValue: string, newValue: string): string
      reads this`jar
    {
      if jar.snapshot.None? && !Blank(newValue) && newValue != oldValue then Trim(newValue) else jar.value
    }
  }

  /** A trade call's session: it remembers only the fingerprint of what it read. */
  class TradeSession {
    const store: CredentialStore
    const lib: Library
    const cookie: string
    const fingerprint: string
    var jar: Jar

    constructor (store: CredentialStore, lib: Library, jar: Jar)
      ensures this.store == store && this.lib == lib && this.jar == jar
      ensures cookie == store.current.value && fingerprint == Fingerprint(lib, store.current)
    {
      this.store, this.lib, this.jar := store, lib, jar;
      cookie := store.current.value;
      fingerprint := Fingerprint(lib, store.current);
    }

    /** `persistShipmentConsignCookies`; `callOk` says that the platform call ended without error. It
      * writes only over a credential with the fingerprint that it read, which is the credential that it
      * read when the digest has no collisions and no metadata contains a NUL character.
      */
    method Persist(callOk: bool, updatedCookie: string, ghost basis: Credential) returns (outcome: Outcome)
      modifies store
      ensures Fingerprint(lib, old(store.current)) != fingerprint ==> store.current == old(store.current)
      ensures fingerprint == Fingerprint(lib, basis) && (forall x, y :: !Collides(lib, x, y))
              && NoNul(basis.metadata) && NoNul(old(store.current).metadata) ==>
                WritesBack(old(store.current), basis, store.current, basis)
      ensures Escapes(lib) && NoNul(old(store.current).metadata) ==> NoNul(store.current.metadata)
      ensures outcome.Saved? ==>
                && Fingerprint(lib, old(store.current)) == fingerprint
                && store.current == New(updatedCookie, old(store.current).metadata)
      ensures outcome.Saved? && jar.changed ==>
                && store.current.value == jar.value
                && store.current.metadata == (if jar.snapshot.Some? then lib.withSnapshot(old(store.current).metadata, jar.snapshot.value)
                                              else lib.withoutSnapshot(old(store.current).metadata))
      ensures outcome.Saved? && !jar.changed ==>
                && store.current == Credential(updatedCookie, lib.withoutSnapshot(old(store.current).metadata))
                && jar.snapshot == None && callOk && updatedCookie != "" && updatedCookie != cookie
      ensures outcome.Conflict? ==> Fingerprint(lib, old(store.current)) != fingerprint
      ensures outcome.Unchanged? ==>
                !jar.changed && (jar.snapshot.Some? || !callOk || updatedCookie == "" || updatedCookie == cookie || updatedCookie == store.current.value)
      ensures outcome.ReadFailed? ==> !store.readable(old(store.turn))
      ensures outcome.SaveFailed? ==> !store.writes(old(store.turn) + 1).Stored?
      ensures outcome.Unchanged? || outcome.Conflict? || outcome.ReadFailed? ==> store.current == old(store.current)
    {
      hide Collides, Fingerprint;
      if (forall x, y :: !Collides(lib, x, y)) && NoNul(basis.metadata) && NoNul(store.current.metadata)
         && fingerprint == Fingerprint(lib, basis) && fingerprint == Fingerprint(lib, store.current) {
        FingerprintIsInjective(lib, store.current, basis);
      }
      if !jar.changed && !(jar.snapshot.None? && callOk && updatedCookie != "" && updatedCookie != cookie) { return Unchanged; }
      var data := store.Read();
      if data.None? { return ReadFailed; }
      if Fingerprint(lib, data.value) != fingerprint { return Conflict; }
      if !jar.changed && (!callOk || updatedCookie == "" || updatedCookie == data.value.value) { return Unchanged; }
      var ok := store.Update(New(updatedCookie, data.value.metadata));
      outcome := if ok then Saved else SaveFailed;
    }

    /** The credential to store over one with this metadata. */
    function New(updatedCookie: string, metadata: string): Credential
      reads this`jar
    {
      if jar.changed then Credential(jar.value, Metadata(lib, metadata, jar.snapshot))
      else Credential(updatedCookie, lib.withoutSnapshot(metadata))
    }
  }

  // ---- any number of sessions ----

  datatype System = System(store: Credential, bases: seq<Option<Credential>>)

  /** `Login` stands for every foreign write: logins, renewals and edits. */
  datatype Action = Login(c: Credential) | Open(s: nat) | WriteBack(s: nat)

  ghost predicate Step(a: System, action: Action, b: System) {
    match action
    case Login(c) => b == a.(store := c)
    case Open(s) => s < |a.bases| && b == a.(bases := a.bases[s := Some(a.store)])
    case WriteBack(s) =>
      && s < |a.bases| && |b.bases| == |a.bases| && a.bases[s].Some? && b.bases[s].Some?
      && WritesBack(a.store, a.bases[s].value, b.store, b.bases[s].value)
      && forall t :: 0 <= t < |a.bases| && t != s ==> b.bases[t] == a.bases[t]
  }

  ghost predicate Run(systems: seq<System>, actions: seq<Action>) {
    && |systems| == |actions| + 1
    && forall i :: 0 <= i < |actions| ==> Step(systems[i], actions[i], systems[i + 1])
  }

  /** The credential that session `s` last read or wrote by moment `j`, seen from moment `i` on: its basis
    * at `i`, or the stored credential after its last own read or write since.
    */
  ghost predicate ReadOrWrote(systems: seq<System>, actions: seq<Action>, i: nat, j: nat, s: nat, c: Credential)
    requires i <= j < |systems| && |systems| == |actions| + 1 && s < |systems[i].bases|
  {
    || systems[i].bases[s] == Some(c)
    || exists k :: i <= k < j && OwnStep(actions[k], s) && systems[k + 1].store == c
  }

  predicate OwnStep(action: Action, s: nat) {
    action == Open(s) || action == WriteBack(s)
  }

  /** A session's basis is always something it read or wrote itself. */
  lemma {:induction false} BasisIsOwn(systems: seq<System>, actions: seq<Action>, i: nat, j: nat, s: nat)
    requires Run(systems, actions) && i <= j < |systems| && s < |systems[i].bases|
    ensures s < |systems[j].bases|
    ensures systems[j].bases[s].Some? ==> ReadOrWrote(systems, actions, i, j, s, systems[j].bases[s].value)
    decreases j
  {
    if i < j {
      BasisIsOwn(systems, actions, i, j - 1, s);
      assert Step(systems[j - 1], actions[j - 1], systems[j]);
      if OwnStep(actions[j - 1], s) && systems[j].bases[s].Some? && systems[j].bases[s].value == systems[j].store {
        assert systems[j - 1 + 1].store == systems[j].store;
      }
    }
  }

  /** Every change of the stored credential by a session replaces exactly the session's basis. */
  lemma WriteReplacesBasis(systems: seq<System>, actions: seq<Action>, i: nat)
    requires Run(systems, actions) && i < |actions| && systems[i + 1].store != systems[i].store
    ensures actions[i].Login? ||
            (actions[i].WriteBack? && actions[i].s < |systems[i].bases| && systems[i].bases[actions[i].s] == Some(systems[i].store))
  {
    assert Step(systems[i], actions[i], systems[i + 1]);
  }

  /** A session that lost a race stays unable to write: as long as it does not read again and nobody
    * restores its basis, its write-backs change nothing.
    */
  lemma {:induction false} ConflictLasts(systems: seq<System>, actions: seq<Action>, i: nat, j: nat, s: nat, basis: Credential)
    requires Run(systems, actions) && i <= j < |systems| && s < |systems[i].bases| && systems[i].bases[s] == Some(basis)
    requires forall k :: i <= k < j ==> actions[k] != Open(s) && systems[k].store != basis
    ensures s < |systems[j].bases| && systems[j].bases[s] == Some(basis)
    ensures forall k :: i <= k < j && actions[k] == WriteBack(s) ==> systems[k + 1].store == systems[k].store
    decreases j
  {
    if i < j {
      ConflictLasts(systems, actions, i, j - 1, s, basis);
      assert Step(systems[j - 1], actions[j - 1], systems[j]);
    }
  }

  /** A foreign write survives every session that has not seen its content: after a login at `i`, the first
    * change of the stored credential by a session comes from one whose basis is exactly what was stored.
    */
  lemma {:induction false} NoLostUpdate(systems: seq<System>, actions: seq<Action>, i: nat, j: nat, c: Credential)
    requires Run(systems, actions) && i < j < |systems| && actions[i] == Login(c)
    requires forall k :: i < k < j ==> !actions[k].Login?
    requires forall k :: i < k < j && actions[k].WriteBack? ==>
               actions[k].s < |systems[k].bases| && systems[k].bases[actions[k].s] != Some(c)
    ensures systems[j].store == c
    decreases j
  {
    assert Step(systems[j - 1], actions[j - 1], systems[j]);
    if i + 1 < j {
      NoLostUpdate(systems, actions, i, j - 1, c);
    }
  }
}
