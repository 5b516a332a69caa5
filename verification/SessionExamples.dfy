/** Runs that are reached step by step and go wrong, each with its input. */
module SessionExamples {
  import opened Common
  import opened Tokens
  import opened AuthCalls
  import opened SessionRuns

  /** A refresh in the very second of the login gives the same token back, which is
      then still live: the rotation did not retire it. */
  lemma SameSecondRefresh(s: Store, t: Token)
    requires t == Token(1, "", "", 0, 60) && s == Put(Store(map[], map[]), 0, 1, t, 60_000)
    ensures var c := Alone(Config(s, Begun), 0, Refresh(t), [0, 0, 0, 0, 0, 0, 0, 0, 0], 60_000);
            c.stage == Finished(Ok(Some(t))) && Live(c.store, t, 0)
  {
    RefreshSucceedsIff(s, 0, t, [0, 0, 0, 0, 0, 0, 0, 0, 0], 60_000);
  }

  // ---- Three requests ----

  const LIFETIME: nat := 1_000_000
  const LOGIN := Login(1, "", "")
  const EMPTY := Store(map[], map[])

  /** The tokens of user 1 that were issued, at both readings, in the given second. */
  function TokenOf(second: nat): Token {
    Token(1, "", "", second, second + 1000)
  }

  /** A login of user 1 and two more requests, at these stages. */
  ghost function Scene(s: Store, now: Time, a: Stage, r: Request, b: Stage, q: Request, c: Stage): State {
    State(s, now, map[0 := Proc(LOGIN, a), 1 := Proc(r, b), 2 := Proc(q, c)])
  }

  lemma SceneBegins(r: Request, q: Request)
    ensures Reachable(Scene(EMPTY, 0, Begun, r, Begun, q, Begun), LIFETIME)
  {
    assert INITIAL == Run(INITIAL, [], LIFETIME);
    ReachableStep(INITIAL, Begin(0, LOGIN), LIFETIME);
    var one := Step(INITIAL, Begin(0, LOGIN), LIFETIME);
    ReachableStep(one, Begin(1, r), LIFETIME);
    var two := Step(one, Begin(1, r), LIFETIME);
    ReachableStep(two, Begin(2, q), LIFETIME);
    assert Step(two, Begin(2, q), LIFETIME) == Scene(EMPTY, 0, Begun, r, Begun, q, Begun);
  }

  lemma Wait(s: Store, now: Time, a: Stage, r: Request, b: Stage, q: Request, c: Stage, elapsed: nat)
    requires Reachable(Scene(s, now, a, r, b, q, c), LIFETIME)
    ensures Reachable(Scene(s, now + elapsed, a, r, b, q, c), LIFETIME)
  {
    ReachableStep(Scene(s, now, a, r, b, q, c), Tick(elapsed), LIFETIME);
    assert Step(Scene(s, now, a, r, b, q, c), Tick(elapsed), LIFETIME) == Scene(s, now + elapsed, a, r, b, q, c);
  }

  lemma First(s: Store, now: Time, a: Stage, r: Request, b: Stage, q: Request, c: Stage, next: Config)
    requires Reachable(Scene(s, now, a, r, b, q, c), LIFETIME) && next == Advance(s, now, LOGIN, a, LIFETIME)
    ensures Reachable(Scene(next.store, now, next.stage, r, b, q, c), LIFETIME)
  {
    var scene := Scene(s, now, a, r, b, q, c);
    ReachableStep(scene, Move(0), LIFETIME);
    assert Step(scene, Move(0), LIFETIME) == Scene(next.store, now, next.stage, r, b, q, c);
  }

  lemma Second(s: Store, now: Time, a: Stage, r: Request, b: Stage, q: Request, c: Stage, next: Config)
    requires Reachable(Scene(s, now, a, r, b, q, c), LIFETIME) && next == Advance(s, now, r, b, LIFETIME)
    ensures Reachable(Scene(next.store, now, a, r, next.stage, q, c), LIFETIME)
  {
    var scene := Scene(s, now, a, r, b, q, c);
    ReachableStep(scene, Move(1), LIFETIME);
    assert Step(scene, Move(1), LIFETIME) == Scene(next.store, now, a, r, next.stage, q, c);
  }

  lemma Third(s: Store, now: Time, a: Stage, r: Request, b: Stage, q: Request, c: Stage, next: Config)
    requires Reachable(Scene(s, now, a, r, b, q, c), LIFETIME) && next == Advance(s, now, q, c, LIFETIME)
    ensures Reachable(Scene(next.store, now, a, r, b, q, next.stage), LIFETIME)
  {
    var scene := Scene(s, now, a, r, b, q, c);
    ReachableStep(scene, Move(2), LIFETIME);
    assert Step(scene, Move(2), LIFETIME) == Scene(next.store, now, a, r, b, q, next.stage);
  }

  /** The store after a login at 0 that nothing delays. */
  ghost function LoggedIn(): Store {
    Put(EMPTY, 0, 1, TokenOf(0), LIFETIME)
  }

  /** How a login ends, at the stage when it has its token. */
  const LOGGED_IN := Finished(Ok(Some(TokenOf(0))))

  lemma LoginFirst(r: Request, q: Request)
    ensures Reachable(Scene(LoggedIn(), 0, LOGGED_IN, r, Begun, q, Begun), LIFETIME)
  {
    SceneBegins(r, q);
    First(EMPTY, 0, Begun, r, Begun, q, Begun, Config(EMPTY, Dated(0)));
    First(EMPTY, 0, Dated(0), r, Begun, q, Begun, Config(EMPTY, Minted(TokenOf(0))));
    First(EMPTY, 0, Minted(TokenOf(0)), r, Begun, q, Begun, Config(EMPTY, Timed(TokenOf(0), LIFETIME)));
    var putting := Putting(TokenOf(0), LIFETIME, LIFETIME);
    First(EMPTY, 0, Timed(TokenOf(0), LIFETIME), r, Begun, q, Begun, Config(EMPTY, putting));
    First(EMPTY, 0, putting, r, Begun, q, Begun, Config(LoggedIn(), LOGGED_IN));
  }

  // ---- One token, two refreshes ----

  ghost function Renewing(second: nat): Stage {
    Exchanging(1, TokenOf(second), second * SECOND + LIFETIME, LIFETIME)
  }

  lemma FirstLookup(r: Request)
    requires r == Refresh(TokenOf(0))
    ensures Reachable(Scene(LoggedIn(), 2000, LOGGED_IN, r, Checked(1_002_000), r, Begun), LIFETIME)
  {
    var s, e := LoggedIn(), 1_002_000;
    LoginFirst(r, r);
    Wait(s, 0, LOGGED_IN, r, Begun, r, Begun, 2000);
    Second(s, 2000, LOGGED_IN, r, Begun, r, Begun, Config(s, Seen));
    Second(s, 2000, LOGGED_IN, r, Seen, r, Begun, Config(s, Found(1_000_000)));
    Second(s, 2000, LOGGED_IN, r, Found(1_000_000), r, Begun, Config(s, Checked(e)));
  }

  lemma FirstRefresh(r: Request)
    requires r == Refresh(TokenOf(0))
    ensures Reachable(Scene(LoggedIn(), 2000, LOGGED_IN, r, Renewing(2), r, Begun), LIFETIME)
  {
    var s, e := LoggedIn(), 1_002_000;
    FirstLookup(r);
    Second(s, 2000, LOGGED_IN, r, Checked(e), r, Begun, Config(s, Verified(e)));
    Second(s, 2000, LOGGED_IN, r, Verified(e), r, Begun, Config(s, Signing(2000, e)));
    Second(s, 2000, LOGGED_IN, r, Signing(2000, e), r, Begun, Config(s, Renewed(TokenOf(2), e)));
    Second(s, 2000, LOGGED_IN, r, Renewed(TokenOf(2), e), r, Begun, Config(s, Granted(1, TokenOf(2), e)));
    Second(s, 2000, LOGGED_IN, r, Granted(1, TokenOf(2), e), r, Begun, Config(s, Renewing(2)));
  }

  lemma SecondLookup(r: Request, b: Stage)
    requires r == Refresh(TokenOf(0)) && Reachable(Scene(LoggedIn(), 2000, LOGGED_IN, r, b, r, Begun), LIFETIME)
    ensures Reachable(Scene(LoggedIn(), 3000, LOGGED_IN, r, b, r, Checked(1_003_000)), LIFETIME)
  {
    var s := LoggedIn();
    Wait(s, 2000, LOGGED_IN, r, b, r, Begun, 1000);
    Third(s, 3000, LOGGED_IN, r, b, r, Begun, Config(s, Seen));
    Third(s, 3000, LOGGED_IN, r, b, r, Seen, Config(s, Found(1_000_000)));
    Third(s, 3000, LOGGED_IN, r, b, r, Found(1_000_000), Config(s, Checked(1_003_000)));
  }

  lemma SecondSigns(r: Request, b: Stage)
    requires r == Refresh(TokenOf(0))
    requires Reachable(Scene(LoggedIn(), 3000, LOGGED_IN, r, b, r, Checked(1_003_000)), LIFETIME)
    ensures Reachable(Scene(LoggedIn(), 3000, LOGGED_IN, r, b, r, Renewed(TokenOf(3), 1_003_000)), LIFETIME)
  {
    var s, e := LoggedIn(), 1_003_000;
    Third(s, 3000, LOGGED_IN, r, b, r, Checked(e), Config(s, Verified(e)));
    Third(s, 3000, LOGGED_IN, r, b, r, Verified(e), Config(s, Signing(3000, e)));
    Third(s, 3000, LOGGED_IN, r, b, r, Signing(3000, e), Config(s, Renewed(TokenOf(3), e)));
  }

  lemma SecondRefresh(r: Request)
    requires r == Refresh(TokenOf(0))
    ensures Reachable(Scene(LoggedIn(), 3000, LOGGED_IN, r, Renewing(2), r, Renewing(3)), LIFETIME)
  {
    var s, e, b := LoggedIn(), 1_003_000, Renewing(2);
    FirstRefresh(r);
    SecondLookup(r, b);
    SecondSigns(r, b);
    Third(s, 3000, LOGGED_IN, r, b, r, Renewed(TokenOf(3), e), Config(s, Granted(1, TokenOf(3), e)));
    Third(s, 3000, LOGGED_IN, r, b, r, Granted(1, TokenOf(3), e), Config(s, Renewing(3)));
  }

  ghost function Doubled(): Store {
    Exchange(Exchange(LoggedIn(), 3000, 1, TokenOf(0), TokenOf(2), LIFETIME), 3000, 1, TokenOf(0), TokenOf(3), LIFETIME)
  }

  /** Two refreshes of one token that both look it up before either exchanges it both
      answer success, and the one session has become two. */
  lemma TwoRefreshesSucceed(r: Request)
    requires r == Refresh(TokenOf(0))
    ensures var b, c := Finished(Ok(Some(TokenOf(2)))), Finished(Ok(Some(TokenOf(3))));
            Reachable(Scene(Doubled(), 3000, LOGGED_IN, r, b, r, c), LIFETIME)
    ensures Sessions(LoggedIn(), 1, 3000) == {TokenOf(0)}
    ensures Sessions(Doubled(), 1, 3000) == {TokenOf(2), TokenOf(3)}
  {
    var s := Exchange(LoggedIn(), 3000, 1, TokenOf(0), TokenOf(2), LIFETIME);
    SecondRefresh(r);
    var b, c := Finished(Ok(Some(TokenOf(2)))), Finished(Ok(Some(TokenOf(3))));
    Second(LoggedIn(), 3000, LOGGED_IN, r, Renewing(2), r, Renewing(3), Config(s, b));
    Third(s, 3000, LOGGED_IN, r, b, r, Renewing(3), Config(Doubled(), c));
  }

  // ---- A login during a revocation ----

  ghost function Missed(): Store {
    Revoke(Put(LoggedIn(), 1000, 1, TokenOf(1), LIFETIME), 1, {TokenOf(0)})
  }

  lemma LoginSlipsIn(r: Request)
    requires r == LogoutAll(1)
    ensures var putting := Putting(TokenOf(1), 1_001_000, LIFETIME);
            Reachable(Scene(LoggedIn(), 1000, LOGGED_IN, r, Revoking({TokenOf(0)}), LOGIN, putting), LIFETIME)
  {
    var s, b := LoggedIn(), Revoking({TokenOf(0)});
    LoginFirst(r, LOGIN);
    assert Members(s, 1, 0) == {TokenOf(0)};
    Second(s, 0, LOGGED_IN, r, Begun, LOGIN, Begun, Config(s, b));
    Wait(s, 0, LOGGED_IN, r, b, LOGIN, Begun, 1000);
    Third(s, 1000, LOGGED_IN, r, b, LOGIN, Begun, Config(s, Dated(1000)));
    Third(s, 1000, LOGGED_IN, r, b, LOGIN, Dated(1000), Config(s, Minted(TokenOf(1))));
    Third(s, 1000, LOGGED_IN, r, b, LOGIN, Minted(TokenOf(1)), Config(s, Timed(TokenOf(1), 1_001_000)));
    var putting := Putting(TokenOf(1), 1_001_000, LIFETIME);
    Third(s, 1000, LOGGED_IN, r, b, LOGIN, Timed(TokenOf(1), 1_001_000), Config(s, putting));
  }

  /** A login that puts its token between a revocation's read of the set and its
      deletion: the revocation is done, that session lives on, and no set knows it any
      more, so that the next revocation does not find it either. */
  lemma LoginSurvivesLogoutAll(r: Request)
    requires r == LogoutAll(1)
    ensures Reachable(Scene(Missed(), 1000, LOGGED_IN, r, DONE, LOGIN, Finished(Ok(Some(TokenOf(1))))), LIFETIME)
    ensures Sessions(Missed(), 1, 1000) == {TokenOf(1)}
    ensures Advance(Missed(), 1000, r, Begun, LIFETIME) == Config(Missed(), DONE)
  {
    var b := Revoking({TokenOf(0)});
    var s := Put(LoggedIn(), 1000, 1, TokenOf(1), LIFETIME);
    LoginSlipsIn(r);
    var c := Finished(Ok(Some(TokenOf(1))));
    Third(LoggedIn(), 1000, LOGGED_IN, r, b, LOGIN, Putting(TokenOf(1), 1_001_000, LIFETIME), Config(s, c));
    Second(s, 1000, LOGGED_IN, r, b, LOGIN, c, Config(Missed(), DONE));
  }

  // ---- Two logins that overlap ----

  /** The first reads the clock at 0, the second at 1500. The second puts its token at
      1600; the first, late, at 1700. */
  ghost function Overlapped(): Store {
    Put(Put(EMPTY, 1600, 1, TokenOf(1), 999_900), 1700, 1, TokenOf(0), 998_300)
  }

  lemma OverlapBegins(q: Request)
    ensures var a, b := Timed(TokenOf(0), LIFETIME), Timed(TokenOf(1), 1_001_500);
            Reachable(Scene(EMPTY, 1600, a, LOGIN, b, q, Begun), LIFETIME)
  {
    SceneBegins(LOGIN, q);
    var a := Timed(TokenOf(0), LIFETIME);
    First(EMPTY, 0, Begun, LOGIN, Begun, q, Begun, Config(EMPTY, Dated(0)));
    First(EMPTY, 0, Dated(0), LOGIN, Begun, q, Begun, Config(EMPTY, Minted(TokenOf(0))));
    First(EMPTY, 0, Minted(TokenOf(0)), LOGIN, Begun, q, Begun, Config(EMPTY, a));
    Wait(EMPTY, 0, a, LOGIN, Begun, q, Begun, 1500);
    Second(EMPTY, 1500, a, LOGIN, Begun, q, Begun, Config(EMPTY, Dated(1500)));
    Second(EMPTY, 1500, a, LOGIN, Dated(1500), q, Begun, Config(EMPTY, Minted(TokenOf(1))));
    Second(EMPTY, 1500, a, LOGIN, Minted(TokenOf(1)), q, Begun, Config(EMPTY, Timed(TokenOf(1), 1_001_500)));
    Wait(EMPTY, 1500, a, LOGIN, Timed(TokenOf(1), 1_001_500), q, Begun, 100);
  }

  lemma OverlapHappens(q: Request)
    ensures Reachable(Scene(Overlapped(), 1700, LOGGED_IN, LOGIN, Finished(Ok(Some(TokenOf(1)))), q, Begun), LIFETIME)
  {
    var a, late := Timed(TokenOf(0), LIFETIME), Putting(TokenOf(1), 1_001_500, 999_900);
    OverlapBegins(q);
    Second(EMPTY, 1600, a, LOGIN, Timed(TokenOf(1), 1_001_500), q, Begun, Config(EMPTY, late));
    var s, done := Put(EMPTY, 1600, 1, TokenOf(1), 999_900), Finished(Ok(Some(TokenOf(1))));
    Second(EMPTY, 1600, a, LOGIN, late, q, Begun, Config(s, done));
    Wait(s, 1600, a, LOGIN, done, q, Begun, 100);
    First(s, 1700, a, LOGIN, done, q, Begun, Config(s, Putting(TokenOf(0), LIFETIME, 998_300)));
    First(s, 1700, Putting(TokenOf(0), LIFETIME, 998_300), LOGIN, done, q, Begun, Config(Overlapped(), LOGGED_IN));
  }

  /** A constant lifetime and a clock that does not go back are therefore not enough: the
      set dies almost two seconds before the later token, and a revocation made between
      finds no set and leaves the user that session. */
  lemma OverlapHidesSession(q: Request)
    requires q == LogoutAll(1)
    ensures var b := Finished(Ok(Some(TokenOf(1))));
            Reachable(Scene(Overlapped(), 1_000_500, LOGGED_IN, LOGIN, b, q, DONE), LIFETIME)
    ensures !Indexed(Overlapped(), 1700, SECOND - 1)
    ensures Sessions(Overlapped(), 1, 1_000_500) == {TokenOf(1)}
  {
    var s, done := Overlapped(), Finished(Ok(Some(TokenOf(1))));
    OverlapHappens(q);
    Wait(s, 1700, LOGGED_IN, LOGIN, done, q, Begun, 998_800);
    assert s.index[1].expiry == 999_700;
    Third(s, 1_000_500, LOGGED_IN, LOGIN, done, q, Begun, Config(s, DONE));
    assert s.keys == map[TokenOf(1) := Entry(1, 1_001_500), TokenOf(0) := Entry(1, 1_000_000)];
    assert Live(s, TokenOf(1), 1700) && !Covered(s, TokenOf(1), 1700, SECOND - 1);
  }
}
