/** Credential acquisition (`get_credentials`) and the lazily built,
    process-wide calendar client (`get_calendar_service`). The token file,
    the refresh request and the interactive consent flow are library calls;
    their outcomes are inputs here. */
module Credentials {
  import opened Wrappers

  /** What the decision looks at in a credential object. */
  datatype Cred = Cred(valid: bool, expired: bool, hasRefreshToken: bool)

  /** The outside world for one acquisition: the credential unpickled from
      the token file (`None` when the file does not exist), the credential
      a refresh yields, and the one the consent flow yields (`None` when
      that call raises). */
  datatype Provider = Provider(tokenFile: Option<Cred>, refreshed: Option<Cred>, consented: Option<Cred>)

  /** Observable steps: refresh through the provider, run the interactive
      consent flow, write the token file, construct the API client. */
  datatype Action = Refresh | Consent | Persist(saved: Cred) | Build

  datatype AuthError = RefreshFailed | ConsentFailed

  datatype Acquired = Acquired(actions: seq<Action>, creds: Result<Cred, AuthError>)

  /** A loaded credential that can be used as it is. `valid` is the
      library's verdict at load time, computed from the stored expiry. */
  predicate IsUsable(c: Option<Cred>)
  {
    c.Some? && c.value.valid
  }

  /** A loaded credential that has expired and carries a refresh token. */
  predicate CanRefresh(c: Option<Cred>)
  {
    c.Some? && c.value.expired && c.value.hasRefreshToken
  }

  predicate Persists(actions: seq<Action>)
  {
    exists k :: 0 <= k < |actions| && actions[k].Persist?
  }

  /** `get_credentials`. A usable stored credential is returned with no
      library call; otherwise an expired credential with a refresh token is
      refreshed, and in every other case the consent flow runs; whatever
      either step produces is written to the token file and returned. A
      raising step propagates without writing anything. */
  function GetCredentials(p: Provider): (a: Acquired)
    ensures IsUsable(p.tokenFile) ==> a.actions == [] && a.creds == Success(p.tokenFile.value)
    ensures !IsUsable(p.tokenFile) && CanRefresh(p.tokenFile) ==>
      a.actions != [] && a.actions[0] == Refresh && Consent !in a.actions
    ensures !IsUsable(p.tokenFile) && !CanRefresh(p.tokenFile) ==>
      a.actions != [] && a.actions[0] == Consent && Refresh !in a.actions
    ensures !IsUsable(p.tokenFile) ==> (Persists(a.actions) <==> a.creds.Success?)
    ensures a.creds.Success? && a.actions != [] ==> a.actions[|a.actions| - 1] == Persist(a.creds.value)
    ensures !IsUsable(p.tokenFile) && CanRefresh(p.tokenFile) ==>
      && (a.creds.Success? <==> p.refreshed.Some?)
      && (a.creds.Success? ==> a.creds.value == p.refreshed.value)
    ensures !IsUsable(p.tokenFile) && !CanRefresh(p.tokenFile) ==>
      && (a.creds.Success? <==> p.consented.Some?)
      && (a.creds.Success? ==> a.creds.value == p.consented.value)
    ensures !IsUsable(p.tokenFile) ==> |a.actions| == if a.creds.Success? then 2 else 1
    ensures a.creds.Failure? ==> a.creds.error == if CanRefresh(p.tokenFile) then RefreshFailed else ConsentFailed
    ensures Build !in a.actions
  {
    var stored := p.tokenFile;
    if IsUsable(stored) then Acquired([], Success(stored.value))
    else if CanRefresh(stored) then
      match p.refreshed
      case Some(c) =>
        var a := Acquired([Refresh, Persist(c)], Success(c));
        assert a.actions[1].Persist?;
        a
      case None => Acquired([Refresh], Failure(RefreshFailed))
    else
      match p.consented
      case Some(c) =>
        var a := Acquired([Consent, Persist(c)], Success(c));
        assert a.actions[1].Persist?;
        a
      case None => Acquired([Consent], Failure(ConsentFailed))
  }

  /** The token file after an acquisition: the last credential written, if
      any, else what was there. */
  function TokenFileAfter(p: Provider, a: Acquired): Option<Cred>
  {
    if a.creds.Success? && a.actions != [] then Some(a.creds.value) else p.tokenFile
  }

  /** A credential that came out valid is reused as it is by the next run:
      persisting and reloading it costs no further library call. */
  lemma SavedCredentialIsReused(p: Provider, next: Provider)
    requires GetCredentials(p).creds.Success? && GetCredentials(p).creds.value.valid
    requires next.tokenFile == TokenFileAfter(p, GetCredentials(p))
    ensures GetCredentials(next) == Acquired([], GetCredentials(p).creds)
  {
  }

  /** The client handle built from a credential. */
  datatype Service = Service(creds: Cred)

  datatype Lookup = Lookup(slot: Option<Service>, actions: seq<Action>, service: Result<Service, AuthError>)

  /** `get_calendar_service`: a filled slot is returned untouched; an empty
      slot is filled with a client built from fresh credentials, or stays
      empty when acquisition raises. */
  function GetCalendarService(slot: Option<Service>, p: Provider): (l: Lookup)
    ensures slot.Some? ==> l == Lookup(slot, [], Success(slot.value))
    ensures l.service.Success? <==> l.slot.Some?
    ensures l.service.Success? ==> l.slot == Some(l.service.value)
    ensures slot.None? ==>
      && |GetCredentials(p).actions| <= |l.actions|
      && l.actions[..|GetCredentials(p).actions|] == GetCredentials(p).actions
    ensures slot.None? ==> (l.service.Success? <==> GetCredentials(p).creds.Success?)
    ensures slot.None? && l.service.Success? ==> l.service.value == Service(GetCredentials(p).creds.value)
    ensures multiset(l.actions)[Build] == if slot.None? && l.service.Success? then 1 else 0
    ensures l.service.Failure? ==>
      GetCredentials(p).creds.Failure? && l.service.error == GetCredentials(p).creds.error
    ensures slot.None? ==>
      |l.actions| == |GetCredentials(p).actions| + if l.service.Success? then 1 else 0
  {
    if slot.Some? then Lookup(slot, [], Success(slot.value))
    else
      var a := GetCredentials(p);
      match a.creds
      case Success(c) => Lookup(Some(Service(c)), a.actions + [Build], Success(Service(c)))
      case Failure(e) => Lookup(None, a.actions, Failure(e))
  }

  /** The slot and the actions after serving one request per provider
      state, in order, starting from `slot`. */
  function ServeAll(slot: Option<Service>, ps: seq<Provider>): (Option<Service>, seq<Action>)
    decreases |ps|
  {
    if ps == [] then (slot, [])
    else
      var l := GetCalendarService(slot, ps[0]);
      var rest := ServeAll(l.slot, ps[1..]);
      (rest.0, l.actions + rest.1)
  }

  /** Once the client is built it is never rebuilt or replaced, and no
      further credential work happens; from an empty slot the client is
      built at most once over any run of requests. */
  lemma {:induction false} BuiltAtMostOnce(slot: Option<Service>, ps: seq<Provider>)
    ensures slot.Some? ==> ServeAll(slot, ps) == (slot, [])
    ensures multiset(ServeAll(slot, ps).1)[Build] <= 1
    decreases |ps|
  {
    if ps != [] {
      var l := GetCalendarService(slot, ps[0]);
      BuiltAtMostOnce(l.slot, ps[1..]);
    }
  }
}
