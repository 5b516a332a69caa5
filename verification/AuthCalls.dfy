/** The requests of the auth service, one clock reading or one round trip at a time, and
    any number of them interleaved with each other and with time. */
module AuthCalls {
  import opened Common
  import opened Tokens

  /** A signed token holds its times in whole seconds: one clock reading, and the end of
      the lifetime that starts with the next. */
  function Issue(user: UserId, username: string, email: string, issued: Time, expiring: Time): Token {
    Token(user, username, email, issued / SECOND, expiring / SECOND)
  }

  /** Two tokens issued to the same claims are the same token if and only if both their
      times fall within the same seconds. */
  lemma SameSecondSameToken(user: UserId, username: string, email: string, issued: Time, signed: Time,
                            issued': Time, signed': Time, lifetime: nat)
    ensures Issue(user, username, email, issued, signed + lifetime)
            == Issue(user, username, email, issued', signed' + lifetime)
            <==> issued / SECOND == issued' / SECOND && (signed + lifetime) / SECOND == (signed' + lifetime) / SECOND
  {
  }

  function WholeSeconds(ms: Time): (t: Time)
    ensures t % SECOND == 0 && ms - 500 < t <= ms + 500
  {
    (ms + 500) / SECOND * SECOND
  }

  /** What the reader of a token makes of its remaining time: the store reports it in
      whole seconds, rounded, and reports less than nothing for a token that is gone. */
  function Until(s: Store, t: Token, now: Time): Time {
    if Live(s, t, now) then now + WholeSeconds(s.keys[t].expiry - now) else now - 1
  }

  datatype Request =
    | Login(user: UserId, username: string, email: string)
    | Refresh(token: Token)
    | Logout(token: Token)
    | LogoutAll(user: UserId)

  /** Where a request is, with what it has read so far. Registering ends as logging in
      does. */
  datatype Stage =
    | Begun
    | Dated(issued: Time)
    | Minted(t: Token)
    | Timed(t: Token, expiresAt: Time)
    | Putting(t: Token, expiresAt: Time, ttl: Time)
    | Seen
    | Found(until: Time)
    | Checked(expiresAt: Time)
    | Verified(expiresAt: Time)
    | Signing(issued: Time, expiresAt: Time)
    | Renewed(to: Token, expiresAt: Time)
    | Granted(owner: UserId, to: Token, expiresAt: Time)
    | Exchanging(owner: UserId, to: Token, expiresAt: Time, ttl: Time)
    | Dropping(owner: UserId)
    | Revoking(tokens: set<Token>)
    | Finished(answer: Result<Option<Token>>)

  datatype Config = Config(store: Store, stage: Stage)

  const DONE: Stage := Finished(Ok(None))

  /** The end of registering and logging in: read the clock for each of the token's
      times, then for its record, compute the time to live, put. */
  function AdvanceLogin(s: Store, now: Time, r: Request, stage: Stage, lifetime: nat): Config
    requires r.Login?
  {
    match stage
    case Begun => Config(s, Dated(now))
    case Dated(issued) => Config(s, Minted(Issue(r.user, r.username, r.email, issued, now + lifetime)))
    case Minted(t) => Config(s, Timed(t, now + lifetime))
    case Timed(t, expiresAt) =>
      Config(s, if expiresAt <= now then Finished(Err(BadRequest)) else Putting(t, expiresAt, expiresAt - now))
    case Putting(t, _, ttl) =>
      if ttl > 0 then Config(Put(s, now, r.user, t, ttl), Finished(Ok(Some(t)))) else Config(s, stage)
    case _ => Config(s, stage)
  }

  /** Refreshing: the lookup and its remaining time, the clock, the signature's check,
      the two times of the new token, the rotation's own lookup, the time to live, the
      exchange. */
  function AdvanceRefresh(s: Store, now: Time, t: Token, stage: Stage, lifetime: nat): Config {
    match stage
    case Begun => Config(s, if Live(s, t, now) then Seen else Finished(Err(InvalidToken)))
    case Seen => Config(s, Found(Until(s, t, now)))
    case Found(until) => Config(s, if until < now then Finished(Err(TokenExpired)) else Checked(now + lifetime))
    case Checked(expiresAt) =>
      Config(s, if t.expiresAt * SECOND <= now then Finished(Err(InvalidToken)) else Verified(expiresAt))
    case Verified(expiresAt) => Config(s, Signing(now, expiresAt))
    case Signing(issued, expiresAt) =>
      Config(s, Renewed(Issue(t.user, t.username, t.email, issued, now + lifetime), expiresAt))
    case Renewed(to, expiresAt) =>
      Config(s, if Live(s, t, now) then Granted(s.keys[t].user, to, expiresAt) else Finished(Err(NotFound)))
    case Granted(owner, to, expiresAt) =>
      Config(s, if expiresAt <= now then Finished(Err(BadRequest))
                else Exchanging(owner, to, expiresAt, expiresAt - now))
    case Exchanging(owner, to, _, ttl) =>
      if ttl > 0 then Config(Exchange(s, now, owner, t, to, ttl), Finished(Ok(Some(to)))) else Config(s, stage)
    case _ => Config(s, stage)
  }

  function AdvanceLogout(s: Store, now: Time, t: Token, stage: Stage): Config {
    match stage
    case Begun => Config(s, if Live(s, t, now) then Dropping(s.keys[t].user) else DONE)
    case Dropping(owner) => Config(Drop(s, now, owner, t), DONE)
    case _ => Config(s, stage)
  }

  function AdvanceLogoutAll(s: Store, now: Time, user: UserId, stage: Stage): Config {
    match stage
    case Begun => Config(s, if Members(s, user, now) == {} then DONE else Revoking(Members(s, user, now)))
    case Revoking(tokens) => Config(Revoke(s, user, tokens), DONE)
    case _ => Config(s, stage)
  }

  function Advance(s: Store, now: Time, r: Request, stage: Stage, lifetime: nat): Config {
    match r
    case Login(_, _, _) => AdvanceLogin(s, now, r, stage, lifetime)
    case Refresh(t) => AdvanceRefresh(s, now, t, stage, lifetime)
    case Logout(t) => AdvanceLogout(s, now, t, stage)
    case LogoutAll(user) => AdvanceLogoutAll(s, now, user, stage)
  }

  // ---- A request that nothing interrupts ----

  /** A request on its own, `delays[i]` before its i-th step. */
  function Alone(c: Config, now: Time, r: Request, delays: seq<nat>, lifetime: nat): Config
    decreases |delays|
  {
    if delays == [] then c
    else
      var later := now + delays[0];
      Alone(Advance(c.store, later, r, c.stage, lifetime), later, r, delays[1..], lifetime)
  }

  lemma {:induction false} AloneFinished(c: Config, now: Time, r: Request, delays: seq<nat>, lifetime: nat)
    requires c.stage.Finished?
    ensures Alone(c, now, r, delays, lifetime) == c
    decreases |delays|
  {
    if delays != [] {
      AloneFinished(c, now + delays[0], r, delays[1..], lifetime);
    }
  }

  /** One step of a request on its own. */
  lemma OneStep(c: Config, now: Time, r: Request, delays: seq<nat>, lifetime: nat, next: Config)
    requires delays != [] && next == Advance(c.store, now + delays[0], r, c.stage, lifetime)
    ensures Alone(c, now, r, delays, lifetime) == Alone(next, now + delays[0], r, delays[1..], lifetime)
    ensures next.stage.Finished? ==> Alone(c, now, r, delays, lifetime) == next
  {
    if next.stage.Finished? {
      AloneFinished(next, now + delays[0], r, delays[1..], lifetime);
    }
  }

  /** Two steps of a request on its own. */
  lemma TwoSteps(c: Config, now: Time, r: Request, d: seq<nat>, lifetime: nat) returns (c1: Config, c2: Config)
    requires |d| >= 2
    ensures c1 == Advance(c.store, now + d[0], r, c.stage, lifetime)
    ensures c2 == Advance(c1.store, now + d[0] + d[1], r, c1.stage, lifetime)
    ensures Alone(c, now, r, d, lifetime) == Alone(c2, now + d[0] + d[1], r, d[2..], lifetime)
    ensures c1.stage.Finished? ==> Alone(c, now, r, d, lifetime) == c1
    ensures c2.stage.Finished? ==> Alone(c, now, r, d, lifetime) == c2
  {
    c1 := Advance(c.store, now + d[0], r, c.stage, lifetime);
    OneStep(c, now, r, d, lifetime, c1);
    c2 := Advance(c1.store, now + d[0] + d[1], r, c1.stage, lifetime);
    OneStep(c1, now + d[0], r, d[1..], lifetime, c2);
    assert d[1..][1..] == d[2..];
  }

  /** Three steps of a request on its own. */
  lemma ThreeSteps(c: Config, now: Time, r: Request, d: seq<nat>, lifetime: nat)
    returns (c1: Config, c2: Config, c3: Config)
    requires |d| >= 3
    ensures c1 == Advance(c.store, now + d[0], r, c.stage, lifetime)
    ensures c2 == Advance(c1.store, now + d[0] + d[1], r, c1.stage, lifetime)
    ensures c3 == Advance(c2.store, now + d[0] + d[1] + d[2], r, c2.stage, lifetime)
    ensures Alone(c, now, r, d, lifetime) == Alone(c3, now + d[0] + d[1] + d[2], r, d[3..], lifetime)
    ensures c1.stage.Finished? ==> Alone(c, now, r, d, lifetime) == c1
    ensures c2.stage.Finished? ==> Alone(c, now, r, d, lifetime) == c2
    ensures c3.stage.Finished? ==> Alone(c, now, r, d, lifetime) == c3
  {
    c1, c2 := TwoSteps(c, now, r, d, lifetime);
    c3 := Advance(c2.store, now + d[0] + d[1] + d[2], r, c2.stage, lifetime);
    OneStep(c2, now + d[0] + d[1], r, d[2..], lifetime, c3);
    assert d[2..][1..] == d[3..];
  }

  // ---- Any number of requests ----

  datatype Proc = Proc(request: Request, stage: Stage)

  datatype State = State(store: Store, now: Time, procs: map<nat, Proc>)

  datatype Event = Tick(elapsed: nat) | Begin(p: nat, request: Request) | Move(p: nat)

  function Moved(s: State, p: nat, lifetime: nat): State
    requires p in s.procs
  {
    var proc := s.procs[p];
    var c := Advance(s.store, s.now, proc.request, proc.stage, lifetime);
    s.(store := c.store, procs := s.procs[p := Proc(proc.request, c.stage)])
  }

  function Step(s: State, e: Event, lifetime: nat): State {
    match e
    case Tick(d) => s.(now := s.now + d)
    case Begin(p, request) => if p in s.procs then s else s.(procs := s.procs[p := Proc(request, Begun)])
    case Move(p) => if p in s.procs then Moved(s, p, lifetime) else s
  }

  function Run(s: State, events: seq<Event>, lifetime: nat): State
    decreases |events|
  {
    if events == [] then s else Run(Step(s, events[0], lifetime), events[1..], lifetime)
  }

  /** One request moved again and again, `delays[i]` before its i-th step. */
  function Turns(p: nat, delays: seq<nat>): seq<Event>
    decreases |delays|
  {
    if delays == [] then [] else [Tick(delays[0]), Move(p)] + Turns(p, delays[1..])
  }

  /** What the machine makes of a request that nothing interrupts, amid any others, is
      that request on its own. */
  lemma {:induction false} TurnsAreAlone(s: State, p: nat, delays: seq<nat>, lifetime: nat)
    requires p in s.procs
    ensures var t := Run(s, Turns(p, delays), lifetime); var proc := s.procs[p];
            var c := Alone(Config(s.store, proc.stage), s.now, proc.request, delays, lifetime);
            t.store == c.store && t.procs == s.procs[p := Proc(proc.request, c.stage)]
    decreases |delays|
  {
    if delays != [] {
      var later := Step(s, Tick(delays[0]), lifetime);
      var s' := Moved(later, p, lifetime);
      var rest := Turns(p, delays[1..]);
      var all := [Tick(delays[0]), Move(p)] + rest;
      assert all[1..] == [Move(p)] + rest && all[1..][1..] == rest;
      TurnsAreAlone(s', p, delays[1..], lifetime);
    }
  }

  const INITIAL := State(Store(map[], map[]), 0, map[])

  ghost predicate Reachable(s: State, lifetime: nat) {
    exists events: seq<Event> :: s == Run(INITIAL, events, lifetime)
  }

  lemma {:induction false} RunAppend(s: State, events: seq<Event>, e: Event, lifetime: nat)
    ensures Run(s, events + [e], lifetime) == Step(Run(s, events, lifetime), e, lifetime)
    decreases |events|
  {
    var all := events + [e];
    if events == [] {
      assert all[1..] == [];
      assert Run(s, all, lifetime) == Run(Step(s, e, lifetime), [], lifetime);
    } else {
      assert all[1..] == events[1..] + [e];
      RunAppend(Step(s, events[0], lifetime), events[1..], e, lifetime);
    }
  }

  lemma ReachableStep(s: State, e: Event, lifetime: nat)
    requires Reachable(s, lifetime)
    ensures Reachable(Step(s, e, lifetime), lifetime)
  {
    var events: seq<Event> :| s == Run(INITIAL, events, lifetime);
    RunAppend(INITIAL, events, e, lifetime);
  }
}
