/** The account session: one signed-in account at most, a generation that ties every operation to it, and a keyring
    record that restores it. The mutex makes every public operation one step. */
module AccountSession {
  import opened Optional

  datatype User = User(id: string, name: string)

  /** A token string, and the account the server issued it to. */
  datatype Token = Token(text: string, account: string)
  datatype Tokens = Tokens(access: Token, refresh: Token, user: User, expiresIn: int)
  datatype SavedSession = SavedSession(tokens: Tokens, expiresAt: int)

  /** What the server promises about an answer that carries tokens. */
  predicate Genuine(t: Tokens) {
    t.access.account == t.user.id && t.refresh.account == t.user.id
  }

  datatype Item = Readable(saved: SavedSession) | Garbage
  datatype Loaded = Session(saved: SavedSession) | Nothing | Unreadable

  /** The keyring item. `atomic` says that a write that reports failure has changed nothing. */
  class CredentialStore {
    const atomic: bool
    var record: Option<Item>
    /** How many calls the keyring has refused. */
    ghost var failures: nat

    predicate Valid()
      reads this
    {
      record.Some? && record.value.Readable? ==> Genuine(record.value.saved.tokens)
    }

    constructor (atomic: bool, record: Option<Item>)
      requires record.Some? && record.value.Readable? ==> Genuine(record.value.saved.tokens)
      ensures Valid() && this.atomic == atomic && this.record == record
    {
      this.atomic, this.record, failures := atomic, record, 0;
    }

    method Load() returns (r: Loaded)
      requires Valid()
      modifies this`failures
      ensures Valid() && failures >= old(failures)
      ensures r.Unreadable? ==> failures > old(failures) || record == Some(Garbage)
      ensures r.Session? ==> record == Some(Readable(r.saved)) && Genuine(r.saved.tokens)
      ensures r.Nothing? ==> record == None
    {
      var reachable: bool := *;
      if !reachable {
        failures := failures + 1;
        return Unreadable;
      }
      match record {
        case None => r := Nothing;
        case Some(Garbage) => r := Unreadable;
        case Some(Readable(saved)) => r := Session(saved);
      }
    }

    method Save(saved: SavedSession) returns (ok: bool)
      requires Valid() && Genuine(saved.tokens)
      modifies this
      ensures Valid() && failures == old(failures) + if ok then 0 else 1
      ensures ok ==> record == Some(Readable(saved))
      ensures !ok && atomic ==> record == old(record)
    {
      var decodes: bool := *;
      ok := *;
      ok := ok && decodes;
      failures := failures + if ok then 0 else 1;
      if !decodes { return false; }
      var effect: bool, damaged: bool := *, *;
      if ok || (effect && !atomic) {
        record := if damaged && !ok then Some(Garbage) else Some(Readable(saved));
      }
    }

    method Clear() returns (ok: bool)
      requires Valid()
      modifies this
      ensures Valid() && failures == old(failures) + if ok then 0 else 1
      ensures ok ==> record == None
      ensures !ok && atomic ==> record == old(record)
    {
      ok := *;
      failures := failures + if ok then 0 else 1;
      var effect: bool := *;
      if ok || (effect && !atomic) { record := None; }
    }
  }

  datatype Purpose = SignIn | Refresh | Challenge | ReadProfile | Rename | Preferences | Data | SignOut | DeleteAccount

  /** A request on the wire: what for, with which token, on behalf of which caller's generation, and the status it
      failed with, if it failed. */
  datatype Call = Call(purpose: Purpose, token: Option<Token>, caller: nat, failure: Option<int>)

  /** The preferences the server holds. */
  datatype Remote = Remote(revision: int, settings: map<string, string>)

  /** What the user was shown, and for which account and generation. */
  datatype Review = Review(generation: nat, user: string, remote: Remote)

  datatype Reply<+T> = Ok(value: T) | Failed(status: int)

  /** The backend client. Any call may fail with any status; what the server answered is on record. */
  class Client {
    var log: seq<Call>
    ghost var granted: seq<Tokens>
    ghost var profiles: seq<User>
    ghost var remotes: seq<Remote>

    constructor ()
      ensures log == [] && granted == [] && profiles == [] && remotes == []
    {
      log, granted, profiles, remotes := [], [], [], [];
    }

    method TokensFrom(purpose: Purpose, token: Option<Token>, caller: nat) returns (r: Reply<Tokens>)
      modifies this`log, this`granted
      ensures log == old(log) + [Call(purpose, token, caller, if r.Ok? then None else Some(r.status))]
      ensures granted == old(granted) + if r.Ok? then [r.value] else []
      ensures r.Ok? ==> Genuine(r.value)
    {
      var succeeds: bool, status: int, t: Tokens := *, *, *;
      t := t.(access := t.access.(account := t.user.id), refresh := t.refresh.(account := t.user.id));
      r := if succeeds then Ok(t) else Failed(status);
      granted := granted + if r.Ok? then [r.value] else [];
      log := log + [Call(purpose, token, caller, if r.Ok? then None else Some(r.status))];
    }

    method PreferencesFrom(token: Token, caller: nat) returns (r: Reply<Remote>)
      modifies this`log, this`remotes
      ensures log == old(log) + [Call(Preferences, Some(token), caller, if r.Ok? then None else Some(r.status))]
      ensures remotes == old(remotes) + if r.Ok? then [r.value] else []
    {
      var succeeds: bool, status: int, remote: Remote := *, *, *;
      r := if succeeds then Ok(remote) else Failed(status);
      remotes := remotes + if r.Ok? then [r.value] else [];
      log := log + [Call(Preferences, Some(token), caller, if r.Ok? then None else Some(r.status))];
    }

    method ProfileFrom(token: Token, caller: nat) returns (r: Reply<User>)
      modifies this`log, this`profiles
      ensures log == old(log) + [Call(ReadProfile, Some(token), caller, if r.Ok? then None else Some(r.status))]
      ensures profiles == old(profiles) + if r.Ok? then [r.value] else []
    {
      var succeeds: bool, status: int, user: User := *, *, *;
      r := if succeeds then Ok(user) else Failed(status);
      profiles := profiles + if r.Ok? then [r.value] else [];
      log := log + [Call(ReadProfile, Some(token), caller, if r.Ok? then None else Some(r.status))];
    }

    /** Any other request; its answer is of no concern to the session. */
    method Request(purpose: Purpose, token: Token, caller: nat) returns (failure: Option<int>)
      modifies this`log
      ensures log == old(log) + [Call(purpose, Some(token), caller, failure)]
    {
      failure := *;
      log := log + [Call(purpose, Some(token), caller, failure)];
    }
  }

  datatype Outcome = Done | Failure(status: int)

  /** The requests whose 401 ends the session; a refused sign-in, link, rename or sign-out leaves it alone. */
  predicate Revokes(c: Call) {
    c.failure == Some(401)
      && (c.purpose.Refresh? || c.purpose.ReadProfile? || c.purpose.Preferences? || c.purpose.Data?)
  }

  const LAST_SECOND: int := 253402214399

  predicate ClockAllows(now: int) {
    0 < now <= LAST_SECOND
  }

  class AccountSession {
    const client: Client
    const store: CredentialStore
    var restored: bool
    var generation: nat
    var session: Option<SavedSession>
    /** Which account every generation so far stood for. */
    ghost var names: map<nat, Option<string>>
    /** The last discard could not clear the keyring, and nothing has been saved since. */
    ghost var leftover: bool

    function UserId(): Option<string>
      reads this
    {
      if session.Some? then Some(session.value.tokens.user.id) else None
    }

    ghost predicate Names(g: nat, id: Option<string>)
      reads this
    {
      g in names && names[g] == id
    }

    /** Every token that was ever sent belonged to the account its caller's generation stands for. */
    ghost predicate SentToOwners()
      reads this, client
    {
      forall i :: 0 <= i < |client.log| && client.log[i].token.Some? ==>
        Names(client.log[i].caller, Some(client.log[i].token.value.account))
    }

    /** The keyring holds exactly the session in memory, unless a discard could not clear it; then there is no
        session. */
    ghost predicate KeyringAgrees()
      reads this, store
    {
      if leftover then session == None
      else store.record == (if session.Some? then Some(Readable(session.value)) else None)
    }

    ghost predicate Valid()
      reads this, client, store
    {
      && store.Valid()
      && (session.Some? ==> Genuine(session.value.tokens))
      && (!restored ==> session == None)
      && Names(generation, UserId()) && (forall g :: g in names ==> g <= generation)
      && SentToOwners()
      && (restored && store.atomic ==> KeyringAgrees())
    }

    /** What holds between the states before and after any operation: no generation is renamed, every change of account
        is a new generation, and nothing is taken back from the wire. */
    twostate predicate Evolves()
      reads this, client, store
    {
      && (forall g :: g in old(names) ==> Names(g, old(names)[g]))
      && old(generation) <= generation
      && (UserId() != old(UserId()) ==> generation > old(generation))
      && old(client.log) <= client.log && old(client.granted) <= client.granted
      && old(client.profiles) <= client.profiles && old(client.remotes) <= client.remotes
      && old(store.failures) <= store.failures
    }

    /** The last request of this operation failed. */
    twostate predicate Refused()
      reads this, client
    {
      |client.log| > |old(client.log)| && client.log[|client.log| - 1].failure.Some?
    }

    /** The server answered for an account that is not the one signed in. */
    twostate predicate Mistaken()
      reads this, client
    {
      || (|client.granted| > |old(client.granted)|
          && old(UserId()) != Some(client.granted[|client.granted| - 1].user.id))
      || (|client.profiles| > |old(client.profiles)|
          && old(UserId()) != Some(client.profiles[|client.profiles| - 1].id))
    }

    /** Why an operation may fail. */
    twostate predicate Excused(g: nat, now: int, cancelled: bool)
      reads this, client, store
    {
      || !old(Current(g)) || cancelled || old(session) == None || !ClockAllows(now)
      || Refused() || Mistaken() || store.failures > old(store.failures)
    }

    /** The status a failed operation reports: nobody signed in is a 401, a request's failure is its own status unless
        it revoked a session the keyring could not forget, and everything else is a failure of this side. */
    twostate function Status(g: nat, cancelled: bool): int
      reads this, client
    {
      if !old(Current(g)) || cancelled then 0
      else if old(session) == None then 401
      else if Refused() && !(Revoked() && leftover) then client.log[|client.log| - 1].failure.value
      else 0
    }

    /** The last request of this operation was answered with a revocation. */
    twostate predicate Revoked()
      reads this, client
    {
      |client.log| > |old(client.log)| && Revokes(client.log[|client.log| - 1])
    }

    twostate predicate Kept()
      reads this
    {
      generation == old(generation) && UserId() == old(UserId())
    }

    twostate predicate Ended()
      reads this
    {
      session == None && generation == old(generation) + 1
    }

    /** What a failed operation does to the session: it ends exactly when the server has revoked it. */
    twostate predicate EndsOnlyIfRevoked()
      reads this, client
    {
      if Revoked() then Ended() else Kept()
    }

    constructor (client: Client, store: CredentialStore)
      requires store.Valid() && client.log == []
      ensures Valid() && !restored && session == None && generation == 0 && this.client == client && this.store == store
    {
      this.client, this.store := client, store;
      restored, generation, session := false, 0, None;
      names, leftover := map[0 := None], false;
    }

    /** Adopt a session and number it, as `++generation_` does. */
    method Adopt(next: Option<SavedSession>)
      requires store.Valid() && SentToOwners() && (next.Some? ==> Genuine(next.value.tokens)) && restored
      requires generation in names && forall g :: g in names ==> g <= generation
      modifies this`session, this`generation, this`names
      ensures session == next && generation == old(generation) + 1 && restored
      ensures names == old(names)[generation := UserId()] && SentToOwners()
    {
      session := next;
      generation := generation + 1;
      names := names[generation := UserId()];
      forall i | 0 <= i < |client.log| && client.log[i].token.Some?
        ensures Names(client.log[i].caller, Some(client.log[i].token.value.account))
      {
        assert client.log[i].caller in old(names);
      }
    }

    method Restore() returns (outcome: Outcome)
      requires Valid()
      modifies this, store`failures
      ensures Valid() && Evolves() && client.log == old(client.log)
      ensures outcome.Done? ==> restored
      ensures outcome.Failure? ==> store.failures > old(store.failures) || store.record == Some(Garbage)
      ensures old(restored) ==> outcome.Done? && generation == old(generation) && session == old(session)
      ensures outcome.Failure? ==> !restored && generation == old(generation) && session == None
      ensures outcome.Done? && !old(restored) ==>
        generation == old(generation) + 1 && !leftover
        && store.record == (if session.Some? then Some(Readable(session.value)) else None)
      ensures outcome.Failure? ==> outcome.status == 0
    {
      if restored { return Done; }
      var loaded := store.Load();
      if loaded.Unreadable? { return Failure(0); }
      restored, leftover := true, false;
      Adopt(if loaded.Session? then Some(loaded.saved) else None);
      outcome := Done;
    }

    predicate Current(g: nat)
      reads this
    {
      restored && g == generation
    }

    /** `saved` and `save`: stamp the tokens with an expiry and write them to the keyring, or fail. */
    method Record(tokens: Tokens, now: int) returns (r: Reply<SavedSession>)
      requires Valid() && Genuine(tokens) && restored
      modifies store, this`leftover
      ensures store.Valid()
      ensures r.Ok? ==>
        r.value == SavedSession(tokens, now + tokens.expiresIn) && store.record == Some(Readable(r.value)) && !leftover
      ensures !r.Ok? ==> Valid() && leftover == old(leftover)
      ensures store.failures >= old(store.failures)
      ensures !r.Ok? ==> !ClockAllows(now) || store.failures > old(store.failures)
    {
      if !ClockAllows(now) { return Failed(0); }
      var next := SavedSession(tokens, now + tokens.expiresIn);
      var saved := store.Save(next);
      if !saved { return Failed(0); }
      leftover := false;
      r := Ok(next);
    }

    /** `discard`: the server has already revoked the session, so memory forgets it even when the keyring cannot. */
    method Discard() returns (cleared: bool)
      requires Valid() && restored
      modifies this, store
      ensures Valid() && Evolves() && Ended() && restored && leftover == !cleared
      ensures cleared ==> store.record == None
      ensures client.log == old(client.log)
      ensures store.failures == old(store.failures) + if cleared then 0 else 1
    {
      Adopt(None);
      cleared := store.Clear();
      leftover := !cleared;
    }

    /** The `catch` around a request: a 401 discards the session, and a keyring that cannot be cleared hides the 401. */
    method Refusal(status: int) returns (reported: int)
      requires Valid() && restored
      modifies this, store
      ensures Valid() && Evolves() && restored && client.log == old(client.log)
      ensures if status == 401 then Ended() else Kept() && session == old(session)
      ensures reported == if status == 401 && leftover then 0 else status
    {
      reported := status;
      if status == 401 {
        var cleared := Discard();
        if !cleared { reported := 0; }
      }
    }

    method Login(g: nat, now: int) returns (outcome: Outcome)
      requires Valid()
      modifies this, client, store
      ensures Valid() && Evolves()
      ensures !old(Current(g)) ==> outcome.Failure? && client.log == old(client.log) && generation == old(generation)
      ensures outcome.Done? ==>
        && session.Some? && generation == old(generation) + 1 && store.record == Some(Readable(session.value))
        && client.log == old(client.log) + [Call(SignIn, None, g, None)]
      ensures outcome.Done? ==>
        && |client.granted| == |old(client.granted)| + 1
        && var tokens := client.granted[|old(client.granted)|];
           session == Some(SavedSession(tokens, now + tokens.expiresIn))
      ensures outcome.Failure? ==> session == old(session) && generation == old(generation)
      ensures outcome.Failure? ==>
        !old(Current(g)) || Refused() || !ClockAllows(now) || store.failures > old(store.failures)
      ensures outcome.Failure? ==>
        outcome.status == if Refused() then client.log[|client.log| - 1].failure.value else 0
    {
      if !Current(g) { return Failure(0); }
      var answer := client.TokensFrom(SignIn, None, g);
      if answer.Failed? { return Failure(answer.status); }
      var next := Record(answer.value, now);
      if next.Failed? { return Failure(0); }
      Adopt(Some(next.value));
      outcome := Done;
    }

    /** `authorized`: the caller's generation must be the current one; a token about to expire is refreshed first, and a
        refused refresh discards the session. */
    method Authorized(g: nat, now: int, cancelled: bool) returns (r: Reply<Token>)
      requires Valid()
      modifies this, client, store
      ensures Valid() && Evolves()
      ensures !old(Current(g)) ==> r.Failed? && client.log == old(client.log) && generation == old(generation)
      ensures r.Ok? ==>
        Current(g) && old(Current(g)) && session.Some? && r.value == session.value.tokens.access && Kept()
      ensures r.Ok? && old(session).value.expiresAt > now + 60 ==>
        session == old(session) && client.log == old(client.log)
      ensures r.Ok? && old(session).value.expiresAt <= now + 60 ==>
        && client.log == old(client.log) + [Call(Refresh, Some(old(session).value.tokens.refresh), g, None)]
        && |client.granted| == |old(client.granted)| + 1
        && session.value.tokens == client.granted[|old(client.granted)|]
        && session.value.expiresAt == now + session.value.tokens.expiresIn
        && store.record == Some(Readable(session.value))
      ensures client.profiles == old(client.profiles) && client.remotes == old(client.remotes)
      ensures r.Failed? ==> Excused(g, now, cancelled)
      ensures cancelled ==> r.Failed? && client.log == old(client.log)
      ensures client.log == old(client.log)
              || (|client.log| == |old(client.log)| + 1 && client.log[|old(client.log)|].purpose.Refresh?)
      ensures r.Failed? ==> EndsOnlyIfRevoked()
      ensures r.Failed? && !Revoked() ==> session == old(session)
      ensures old(Current(g)) && old(session) == None ==> r.Failed? && client.log == old(client.log)
      ensures r.Failed? ==> r.status == Status(g, cancelled)
    {
      if !Current(g) { return Failed(0); }
      if cancelled { return Failed(0); }
      if session.None? { return Failed(401); }
      if !ClockAllows(now) { return Failed(0); }
      if session.value.expiresAt <= now + 60 {
        var answer := client.TokensFrom(Refresh, Some(session.value.tokens.refresh), g);
        if answer.Failed? {
          var reported := Refusal(answer.status);
          return Failed(reported);
        }
        if answer.value.user.id != session.value.tokens.user.id { return Failed(0); }
        var next := Record(answer.value, now);
        if next.Failed? { return Failed(0); }
        session := Some(next.value);
      }
      r := Ok(session.value.tokens.access);
    }

    /** Every operation that sends the access token and discards a session the server refuses. */
    method Operate(g: nat, purpose: Purpose, now: int, cancelled: bool) returns (outcome: Outcome)
      requires Valid() && (purpose.Preferences? || purpose.Data?)
      modifies this, client, store
      ensures Valid() && Evolves()
      ensures !old(Current(g)) ==> outcome.Failure? && client.log == old(client.log) && generation == old(generation)
      ensures outcome.Done? ==> Current(g) && Kept() && LastSent(purpose, g)
      ensures outcome.Failure? ==> EndsOnlyIfRevoked() && Excused(g, now, cancelled)
      ensures outcome.Failure? ==> outcome.status == Status(g, cancelled)
    {
      var token := Authorized(g, now, cancelled);
      if token.Failed? { return Failure(token.status); }
      outcome := Send(g, purpose, token.value);
    }

    /** The operation ended with a request that succeeded, made with the session's access token. */
    twostate predicate LastSent(purpose: Purpose, g: nat)
      reads this, client
    {
      && |client.log| > |old(client.log)| && session.Some?
      && client.log[|client.log| - 1] == Call(purpose, Some(session.value.tokens.access), g, None)
    }

    /** The request before it succeeded too, under the same token. */
    twostate predicate SentBefore(purpose: Purpose, g: nat)
      reads this, client
    {
      && |client.log| > |old(client.log)| + 1 && session.Some?
      && client.log[|client.log| - 2] == Call(purpose, Some(session.value.tokens.access), g, None)
    }

    method Send(g: nat, purpose: Purpose, token: Token) returns (outcome: Outcome)
      requires Valid() && Current(g) && session.Some? && token == session.value.tokens.access
      requires purpose.Preferences? || purpose.Data?
      modifies this, client, store
      ensures Valid() && Evolves()
      ensures outcome.Done? ==> Current(g) && session == old(session) && LastSent(purpose, g)
      ensures outcome.Failure? ==> EndsOnlyIfRevoked() && Refused()
      ensures client.granted == old(client.granted) && client.profiles == old(client.profiles)
      ensures client.remotes == old(client.remotes)
      ensures outcome.Failure? ==> outcome.status == Status(g, false)
      ensures |client.log| == |old(client.log)| + 1
    {
      var failure := client.Request(purpose, token, g);
      if failure.Some? {
        var reported := Refusal(failure.value);
        return Failure(reported);
      }
      outcome := Done;
    }

    /** `begin_link`: a refusal here does not end the session. */
    method BeginLink(g: nat, now: int, cancelled: bool) returns (outcome: Outcome)
      requires Valid()
      modifies this, client, store
      ensures Valid() && Evolves()
      ensures !old(Current(g)) ==> outcome.Failure? && client.log == old(client.log) && generation == old(generation)
      ensures outcome.Done? ==> Current(g) && Kept() && LastSent(Challenge, g)
      ensures outcome.Failure? ==> EndsOnlyIfRevoked() && Excused(g, now, cancelled)
      ensures outcome.Failure? ==> outcome.status == Status(g, cancelled)
    {
      var token := Authorized(g, now, cancelled);
      if token.Failed? { return Failure(token.status); }
      var failure := client.Request(Challenge, token.value, g);
      outcome := if failure.None? then Done else Failure(failure.value);
    }

    /** Linking another identity must come back as the same account, under a new generation. */
    method Link(g: nat, now: int, cancelled: bool) returns (outcome: Outcome)
      requires Valid()
      modifies this, client, store
      ensures Valid() && Evolves()
      ensures !old(Current(g)) ==> outcome.Failure? && client.log == old(client.log) && generation == old(generation)
      ensures outcome.Done? ==>
        && UserId() == old(UserId()) && UserId().Some? && generation == old(generation) + 1
        && store.record == Some(Readable(session.value))
        && |client.granted| > |old(client.granted)|
        && session.value.tokens == client.granted[|client.granted| - 1]
        && session.value.expiresAt == now + session.value.tokens.expiresIn
      ensures outcome.Failure? ==> EndsOnlyIfRevoked() && Excused(g, now, cancelled)
      ensures outcome.Failure? ==> outcome.status == Status(g, cancelled)
    {
      var token := Authorized(g, now, cancelled);
      if token.Failed? { return Failure(token.status); }
      var answer := client.TokensFrom(SignIn, Some(token.value), g);
      if answer.Failed? { return Failure(answer.status); }
      if !ClockAllows(now) || answer.value.user.id != session.value.tokens.user.id { return Failure(0); }
      var next := Record(answer.value, now);
      if next.Failed? { return Failure(0); }
      Adopt(Some(next.value));
      outcome := Done;
    }

    method ReadProfileWith(g: nat, token: Token) returns (outcome: Outcome)
      requires Valid() && Current(g) && session.Some? && token == session.value.tokens.access
      modifies this, client, store
      ensures Valid() && Evolves()
      ensures outcome.Done? ==> Current(g) && Kept() && store.record == Some(Readable(session.value))
      ensures outcome.Done? ==> LastSent(ReadProfile, g)
      ensures outcome.Failure? ==> EndsOnlyIfRevoked()
      ensures outcome.Failure? ==> Refused() || Mistaken() || store.failures > old(store.failures)
      ensures outcome.Done? ==>
        && |client.profiles| == |old(client.profiles)| + 1
        && session.value.tokens == old(session).value.tokens.(user := client.profiles[|old(client.profiles)|])
        && session.value.expiresAt == old(session).value.expiresAt
      ensures client.granted == old(client.granted)
      ensures outcome.Failure? ==> outcome.status == Status(g, false)
      ensures |client.log| == |old(client.log)| + 1
    {
      var answer := client.ProfileFrom(token, g);
      if answer.Failed? {
        var reported := Refusal(answer.status);
        return Failure(reported);
      }
      if answer.value.id != session.value.tokens.user.id { return Failure(0); }
      var next := session.value.(tokens := session.value.tokens.(user := answer.value));
      var saved := store.Save(next);
      if !saved { return Failure(0); }
      leftover := false;
      session := Some(next);
      outcome := Done;
    }

    method Profile(g: nat, now: int, cancelled: bool) returns (outcome: Outcome)
      requires Valid()
      modifies this, client, store
      ensures Valid() && Evolves()
      ensures !old(Current(g)) ==> outcome.Failure? && client.log == old(client.log) && generation == old(generation)
      ensures outcome.Done? ==>
        && Current(g) && Kept() && LastSent(ReadProfile, g) && store.record == Some(Readable(session.value))
        && |client.profiles| == |old(client.profiles)| + 1
        && session.value.tokens.user == client.profiles[|old(client.profiles)|]
      ensures outcome.Failure? ==> EndsOnlyIfRevoked() && Excused(g, now, cancelled)
      ensures outcome.Failure? ==> outcome.status == Status(g, cancelled)
    {
      var token := Authorized(g, now, cancelled);
      if token.Failed? { return Failure(token.status); }
      outcome := ReadProfileWith(g, token.value);
    }

    /** `rename`: the change itself, then the profile it produced. */
    method ChangeName(g: nat, now: int, cancelled: bool) returns (outcome: Outcome)
      requires Valid()
      modifies this, client, store
      ensures Valid() && Evolves()
      ensures !old(Current(g)) ==> outcome.Failure? && client.log == old(client.log) && generation == old(generation)
      ensures outcome.Done? ==>
        && Current(g) && Kept() && LastSent(ReadProfile, g) && SentBefore(Rename, g)
        && store.record == Some(Readable(session.value))
        && |client.profiles| == |old(client.profiles)| + 1
        && session.value.tokens.user == client.profiles[|old(client.profiles)|]
      ensures outcome.Failure? ==> EndsOnlyIfRevoked() && Excused(g, now, cancelled)
      ensures outcome.Failure? ==> outcome.status == Status(g, cancelled)
    {
      var token := Authorized(g, now, cancelled);
      if token.Failed? { return Failure(token.status); }
      var failure := client.Request(Rename, token.value, g);
      if failure.Some? { return Failure(failure.value); }
      outcome := ReadProfileWith(g, token.value);
    }

    /** `access_token`: the checked token itself. */
    method AccessToken(g: nat, now: int, cancelled: bool) returns (r: Reply<Token>)
      requires Valid()
      modifies this, client, store
      ensures Valid() && Evolves()
      ensures !old(Current(g)) ==> r.Failed? && client.log == old(client.log) && generation == old(generation)
      ensures r.Ok? ==> Current(g) && Kept() && session.Some? && r.value == session.value.tokens.access
      ensures r.Failed? ==> EndsOnlyIfRevoked() && Excused(g, now, cancelled)
      ensures r.Failed? ==> r.status == Status(g, cancelled)
    {
      r := Authorized(g, now, cancelled);
    }

    /** The clipboard's changes: the change and the list it produced, under one token. */
    method OperateTwice(g: nat, now: int, cancelled: bool) returns (outcome: Outcome)
      requires Valid()
      modifies this, client, store
      ensures Valid() && Evolves()
      ensures !old(Current(g)) ==> outcome.Failure? && client.log == old(client.log) && generation == old(generation)
      ensures outcome.Done? ==> Current(g) && Kept() && LastSent(Data, g) && SentBefore(Data, g)
      ensures outcome.Failure? ==> EndsOnlyIfRevoked() && Excused(g, now, cancelled)
      ensures outcome.Failure? ==> outcome.status == Status(g, cancelled)
    {
      var token := Authorized(g, now, cancelled);
      if token.Failed? { return Failure(token.status); }
      outcome := Send(g, Data, token.value);
      if outcome.Failure? { return; }
      outcome := Send(g, Data, token.value);
    }

    /** The remote preferences, under a token already checked. */
    method Fetch(g: nat, token: Token) returns (outcome: Outcome, remote: Remote)
      requires Valid() && Current(g) && session.Some? && token == session.value.tokens.access
      modifies this, client, store
      ensures Valid() && Evolves()
      ensures outcome.Done? ==> Current(g) && session == old(session) && LastSent(Preferences, g)
      ensures outcome.Failure? ==> EndsOnlyIfRevoked() && Refused()
      ensures client.granted == old(client.granted) && client.profiles == old(client.profiles)
      ensures client.remotes == old(client.remotes) + if outcome.Done? then [remote] else []
      ensures outcome.Failure? ==> outcome.status == Status(g, false)
      ensures |client.log| == |old(client.log)| + 1
    {
      var answer := client.PreferencesFrom(token, g);
      if answer.Failed? {
        var reported := Refusal(answer.status);
        return Failure(reported), Remote(0, map[]);
      }
      outcome, remote := Done, answer.value;
    }

    /** `review_preferences`: schema and values under one token. */
    method ReviewPreferences(g: nat, now: int, cancelled: bool) returns (outcome: Outcome, review: Review)
      requires Valid()
      modifies this, client, store
      ensures Valid() && Evolves()
      ensures !old(Current(g)) ==> outcome.Failure? && client.log == old(client.log) && generation == old(generation)
      ensures outcome.Done? ==>
        && review.generation == g && Current(g) && UserId() == Some(review.user) && Kept() && LastSent(Preferences, g)
        && SentBefore(Preferences, g)
        && client.remotes == old(client.remotes) + [review.remote]
      ensures outcome.Failure? ==> EndsOnlyIfRevoked() && Excused(g, now, cancelled)
      ensures outcome.Failure? ==> outcome.status == Status(g, cancelled)
    {
      review := Review(0, "", Remote(0, map[]));
      var token := Authorized(g, now, cancelled);
      if token.Failed? { return Failure(token.status), review; }
      outcome := Send(g, Preferences, token.value);
      if outcome.Failure? { return; }
      var remote;
      outcome, remote := Fetch(g, token.value);
      if outcome.Done? {
        review := Review(generation, session.value.tokens.user.id, remote);
      }
    }

    predicate MayUse(review: Review)
      reads this
    {
      Current(review.generation) && UserId() == Some(review.user)
    }

    /** `reviewed_token`. */
    method ReviewedToken(review: Review, now: int, cancelled: bool) returns (r: Reply<Token>)
      requires Valid()
      modifies this, client, store
      ensures Valid() && Evolves()
      ensures !old(MayUse(review)) ==> r.Failed? && client.log == old(client.log) && generation == old(generation)
      ensures r.Ok? ==> MayUse(review) && Kept() && session.Some? && r.value == session.value.tokens.access
      ensures r.Ok? ==> client.profiles == old(client.profiles) && client.remotes == old(client.remotes)
      ensures r.Failed? ==> EndsOnlyIfRevoked() && client.remotes == old(client.remotes)
      ensures r.Failed? ==> !old(MayUse(review)) || Excused(review.generation, now, cancelled)
      ensures r.Failed? ==> r.status == if old(MayUse(review)) then Status(review.generation, cancelled) else 0
      ensures cancelled ==> r.Failed?
    {
      if !Current(review.generation) { return Failed(0); }
      if session.None? || session.value.tokens.user.id != review.user { return Failed(0); }
      r := Authorized(review.generation, now, cancelled);
    }

    /** `upload_preferences`: only for the account and the generation that were reviewed. */
    method Upload(review: Review, now: int, cancelled: bool) returns (outcome: Outcome)
      requires Valid()
      modifies this, client, store
      ensures Valid() && Evolves()
      ensures !old(MayUse(review)) ==>
        outcome.Failure? && client.log == old(client.log) && generation == old(generation)
      ensures outcome.Done? ==> MayUse(review) && Kept() && LastSent(Preferences, review.generation)
      ensures outcome.Failure? ==> EndsOnlyIfRevoked()
      ensures outcome.Failure? ==> !old(MayUse(review)) || Excused(review.generation, now, cancelled)
      ensures outcome.Failure? ==>
        outcome.status == if old(MayUse(review)) then Status(review.generation, cancelled) else 0
    {
      var token := ReviewedToken(review, now, cancelled);
      if token.Failed? { return Failure(token.status); }
      outcome := Send(review.generation, Preferences, token.value);
    }

    /** `apply_preferences`: the local change runs only if the server still holds exactly what was reviewed, for the
        same account. */
    method ApplyReview(review: Review, now: int, cancelled: bool, cancelledLater: bool)
      returns (outcome: Outcome, current: Remote)
      requires Valid()
      modifies this, client, store
      ensures Valid() && Evolves()
      ensures !old(MayUse(review)) ==>
        outcome.Failure? && client.log == old(client.log) && generation == old(generation)
      ensures outcome.Done? ==>
        && MayUse(review) && Kept() && LastSent(Preferences, review.generation) && current == review.remote
        && client.remotes == old(client.remotes) + [review.remote]
      ensures |client.remotes| > |old(client.remotes)| && client.remotes[|client.remotes| - 1] != review.remote ==>
        outcome == Failure(409)
      ensures outcome.Failure? ==> EndsOnlyIfRevoked()
      ensures outcome.Failure? ==>
        || !old(MayUse(review)) || Excused(review.generation, now, cancelled) || cancelledLater
        || (|client.remotes| > |old(client.remotes)| && client.remotes[|client.remotes| - 1] != review.remote)
      ensures outcome.Failure? && client.remotes == old(client.remotes) ==>
        outcome.status == if old(MayUse(review)) then Status(review.generation, cancelled) else 0
      ensures client.remotes == old(client.remotes) + [review.remote] && cancelledLater ==> outcome == Failure(0)
    {
      current := Remote(0, map[]);
      var token := ReviewedToken(review, now, cancelled);
      if token.Failed? { return Failure(token.status), current; }
      outcome, current := Fetch(review.generation, token.value);
      if outcome.Failure? { return; }
      if current != review.remote { return Failure(409), current; }
      if cancelledLater { outcome := Failure(0); }
    }

    /** `logout` and `delete_account`: the session is discarded only after the server agreed. */
    method End(g: nat, purpose: Purpose, now: int, cancelled: bool) returns (outcome: Outcome)
      requires Valid() && (purpose.SignOut? || purpose.DeleteAccount?)
      modifies this, client, store
      ensures Valid() && Evolves()
      ensures !old(Current(g)) ==> outcome.Failure? && client.log == old(client.log) && generation == old(generation)
      ensures outcome.Done? ==> Ended() && store.record == None && SignedOut(purpose)
      ensures outcome.Failure? ==> if SignedOut(purpose) then Ended() && leftover else EndsOnlyIfRevoked()
      ensures outcome.Failure? ==> Excused(g, now, cancelled)
      ensures outcome.Failure? ==> outcome.status == Status(g, cancelled)
    {
      var token := Authorized(g, now, cancelled);
      if token.Failed? { return Failure(token.status); }
      var failure := client.Request(purpose, token.value, g);
      if failure.Some? { return Failure(failure.value); }
      var cleared := Discard();
      outcome := if cleared then Done else Failure(0);
    }

    /** The server has agreed to end the session. */
    twostate predicate SignedOut(purpose: Purpose)
      reads this, client
    {
      |client.log| > |old(client.log)| && client.log[|client.log| - 1].purpose == purpose
      && client.log[|client.log| - 1].failure == None
    }

    /** `with_current_user`: the operation runs only for the account the caller saw. */
    method WithCurrentUser(g: nat, user: string) returns (runs: bool)
      requires Valid()
      ensures runs <==> Current(g) && UserId() == Some(user)
      ensures runs ==> Names(g, Some(user))
    {
      if !Current(g) { return false; }
      if session.None? || session.value.tokens.user.id != user { return false; }
      runs := true;
    }
  }

  datatype Request =
    | DoRestore
    | DoLogin(g: nat, now: int)
    | DoLink(g: nat, now: int)
    | DoBeginLink(g: nat, now: int)
    | DoProfile(g: nat, now: int)
    | DoRename(g: nat, now: int)
    | DoReview(g: nat, now: int)
    | DoUpload(review: Review, now: int)
    | DoApply(review: Review, now: int)
    | DoToken(g: nat, now: int)
    | DoOperateTwice(g: nat, now: int)
    | DoOperate(g: nat, now: int)
    | DoEnd(g: nat, account: bool, now: int)

  method Perform(s: AccountSession, r: Request)
    requires s.Valid()
    modifies s, s.client, s.store
    ensures s.Valid() && s.Evolves()
  {
    var outcome;
    var cancelled: bool, later: bool := *, *;
    match r {
      case DoRestore => outcome := s.Restore();
      case DoLogin(g, now) => outcome := s.Login(g, now);
      case DoLink(g, now) => outcome := s.Link(g, now, cancelled);
      case DoBeginLink(g, now) => outcome := s.BeginLink(g, now, cancelled);
      case DoProfile(g, now) => outcome := s.Profile(g, now, cancelled);
      case DoRename(g, now) => outcome := s.ChangeName(g, now, cancelled);
      case DoReview(g, now) =>
        var review;
        outcome, review := s.ReviewPreferences(g, now, cancelled);
      case DoUpload(review, now) => outcome := s.Upload(review, now, cancelled);
      case DoApply(review, now) =>
        var current;
        outcome, current := s.ApplyReview(review, now, cancelled, later);
      case DoToken(g, now) => var token := s.AccessToken(g, now, cancelled);
      case DoOperateTwice(g, now) => outcome := s.OperateTwice(g, now, cancelled);
      case DoOperate(g, now) => outcome := s.Operate(g, Data, now, cancelled);
      case DoEnd(g, account, now) => outcome := s.End(g, if account then DeleteAccount else SignOut, now, cancelled);
    }
  }

  /** Over every sequence of operations, successful or failing: a generation keeps the account it stood for, a change of
      account always leads to a later generation, every token on the wire belongs to the account of its caller's
      generation, and - when a failed keyring write changes nothing - the keyring and memory agree. */
  method Run(s: AccountSession, requests: seq<Request>)
    requires s.Valid()
    modifies s, s.client, s.store
    ensures s.Valid() && s.Evolves()
    ensures s.SentToOwners()
    ensures s.restored && s.store.atomic ==> s.KeyringAgrees()
  {
    var i := 0;
    while i < |requests|
      invariant 0 <= i <= |requests|
      invariant s.Valid() && s.Evolves()
    {
      Perform(s, requests[i]);
      i := i + 1;
    }
  }
}
