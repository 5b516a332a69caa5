/** Sessions over every interleaving of logins, refreshes, logouts and time. */
module SessionRuns {
  import opened Common
  import opened Tokens
  import opened AuthCalls

  // ---- What a request has established ----

  ghost predicate LoginFits(r: Request, stage: Stage, now: Time, lifetime: nat)
    requires r.Login?
  {
    match stage
    case Minted(t) => t.user == r.user
    case Timed(t, expiresAt) => t.user == r.user && expiresAt <= now + lifetime
    case Putting(t, expiresAt, ttl) => t.user == r.user && 0 < ttl <= lifetime && expiresAt <= now + ttl
    case _ => true
  }

  ghost predicate RefreshFits(t: Token, stage: Stage, now: Time, lifetime: nat) {
    match stage
    case Checked(expiresAt) => expiresAt <= now + lifetime
    case Verified(expiresAt) => expiresAt <= now + lifetime
    case Signing(_, expiresAt) => expiresAt <= now + lifetime
    case Renewed(to, expiresAt) => to.user == t.user && expiresAt <= now + lifetime
    case Granted(owner, to, expiresAt) => owner == t.user && to.user == t.user && expiresAt <= now + lifetime
    case Exchanging(owner, to, expiresAt, ttl) =>
      owner == t.user && to.user == t.user && 0 < ttl <= lifetime && expiresAt <= now + ttl
    case _ => true
  }

  ghost predicate ProcFits(p: Proc, now: Time, lifetime: nat) {
    match p.request
    case Login(_, _, _) => LoginFits(p.request, p.stage, now, lifetime)
    case Refresh(t) => RefreshFits(t, p.stage, now, lifetime)
    case Logout(t) => p.stage.Dropping? ==> p.stage.owner == t.user
    case LogoutAll(user) => p.stage.Revoking? ==> forall t :: t in p.stage.tokens ==> t.user == user
  }

  /** Nothing expires later than a lifetime from now. */
  ghost predicate Bounded(s: Store, now: Time, lifetime: nat) {
    forall t :: t in s.keys ==> s.keys[t].expiry <= now + lifetime
  }

  ghost predicate Good(s: State, lifetime: nat) {
    && Owned(s.store) && Bounded(s.store, s.now, lifetime)
    && forall p :: p in s.procs ==> ProcFits(s.procs[p], s.now, lifetime)
  }

  lemma AdvanceFits(s: Store, now: Time, p: Proc, lifetime: nat)
    requires Owned(s) && ProcFits(p, now, lifetime)
    ensures ProcFits(Proc(p.request, Advance(s, now, p.request, p.stage, lifetime).stage), now, lifetime)
  {
  }

  lemma AdvanceKeepsStore(s: Store, now: Time, p: Proc, lifetime: nat)
    requires Owned(s) && Bounded(s, now, lifetime) && ProcFits(p, now, lifetime)
    ensures var s' := Advance(s, now, p.request, p.stage, lifetime).store; Owned(s') && Bounded(s', now, lifetime)
  {
  }

  lemma StepKeepsGood(s: State, e: Event, lifetime: nat)
    requires Good(s, lifetime)
    ensures Good(Step(s, e, lifetime), lifetime)
  {
    if e.Move? && e.p in s.procs {
      AdvanceFits(s.store, s.now, s.procs[e.p], lifetime);
      AdvanceKeepsStore(s.store, s.now, s.procs[e.p], lifetime);
    }
  }

  lemma {:induction false} RunKeepsGood(s: State, events: seq<Event>, lifetime: nat)
    requires Good(s, lifetime)
    ensures Good(Run(s, events, lifetime), lifetime)
    decreases |events|
  {
    if events != [] {
      StepKeepsGood(s, events[0], lifetime);
      RunKeepsGood(Step(s, events[0], lifetime), events[1..], lifetime);
    }
  }

  // ---- When the index agrees with the map ----

  /** What a request about to change the store must find there. */
  ghost predicate StoreFits(s: Store, now: Time, p: Proc, slack: nat) {
    match p.request
    case Login(_, _, _) => p.stage.Putting? && p.stage.ttl > 0 ==> PutFits(s, now, p.stage.t, p.stage.ttl, slack)
    case Refresh(t) =>
      p.stage.Exchanging? && p.stage.ttl > 0 ==> PutFits(Drop(s, now, t.user, t), now, p.stage.to, p.stage.ttl, slack)
    case Logout(_) => true
    case LogoutAll(user) => p.stage.Revoking? ==> NoneOutlives(s, user, now, now + slack, p.stage.tokens)
  }

  lemma AdvanceAgrees(s: Store, now: Time, p: Proc, lifetime: nat, slack: nat)
    requires Owned(s) && ProcFits(p, now, lifetime) && Indexed(s, now, slack)
    ensures Indexed(Advance(s, now, p.request, p.stage, lifetime).store, now, slack) <==> StoreFits(s, now, p, slack)
  {
    match p.request
    case Login(_, _, _) => if p.stage.Putting? { PutKeepsIndexed(s, now, p.stage.t, p.stage.ttl, slack); }
    case Refresh(t) =>
      if p.stage.Exchanging? { ExchangeKeepsIndexed(s, now, t, p.stage.to, p.stage.ttl, slack); }
    case Logout(t) => if p.stage.Dropping? { DropKeepsIndexed(s, now, t, slack); }
    case LogoutAll(user) => if p.stage.Revoking? { RevokeKeepsIndexed(s, now, user, p.stage.tokens, slack); }
  }

  /** Map and index agree up to `slack` from here to the end of the run. */
  ghost predicate Agreeing(s: State, events: seq<Event>, lifetime: nat, slack: nat)
    decreases |events|
  {
    && Indexed(s.store, s.now, slack)
    && (events != [] ==> Agreeing(Step(s, events[0], lifetime), events[1..], lifetime, slack))
  }

  /** Every change of the store finds what it must. */
  ghost predicate Orderly(s: State, events: seq<Event>, lifetime: nat, slack: nat)
    decreases |events|
  {
    events != [] ==>
      && (events[0].Move? && events[0].p in s.procs ==> StoreFits(s.store, s.now, s.procs[events[0].p], slack))
      && Orderly(Step(s, events[0], lifetime), events[1..], lifetime, slack)
  }

  lemma StepAgrees(s: State, e: Event, lifetime: nat, slack: nat)
    requires Good(s, lifetime) && Indexed(s.store, s.now, slack)
    ensures var s' := Step(s, e, lifetime);
            Indexed(s'.store, s'.now, slack)
            <==> (e.Move? && e.p in s.procs ==> StoreFits(s.store, s.now, s.procs[e.p], slack))
  {
    match e
    case Tick(d) => TimeKeepsIndexed(s.store, s.now, s.now + d, slack);
    case Move(p) => if p in s.procs { AdvanceAgrees(s.store, s.now, s.procs[p], lifetime, slack); }
    case _ =>
  }

  lemma {:induction false} RunAgreesIff(s: State, events: seq<Event>, lifetime: nat, slack: nat)
    requires Good(s, lifetime) && Indexed(s.store, s.now, slack)
    ensures Agreeing(s, events, lifetime, slack) <==> Orderly(s, events, lifetime, slack)
    decreases |events|
  {
    if events != [] {
      var s' := Step(s, events[0], lifetime);
      StepKeepsGood(s, events[0], lifetime);
      StepAgrees(s, events[0], lifetime, slack);
      if Indexed(s'.store, s'.now, slack) {
        RunAgreesIff(s', events[1..], lifetime, slack);
      }
    }
  }

  /** In any interleaving from the empty store, map and index agree throughout if and
      only if each put finds no session of the user that outlives the set's new time to
      live, and each revocation finds none that it has not read. */
  lemma IndexAgreesIff(events: seq<Event>, lifetime: nat, slack: nat)
    ensures Agreeing(INITIAL, events, lifetime, slack) <==> Orderly(INITIAL, events, lifetime, slack)
  {
    RunAgreesIff(INITIAL, events, lifetime, slack);
  }

  // ---- Two ways to keep it so ----

  /** Either no put shortens the life of a user's set, or each is made soon after the
      clock reading that its expiry comes from. */
  datatype Discipline = LaterExpiry | Promptly(delay: nat) {
    function Slack(): nat {
      match this
      case LaterExpiry => SECOND - 1
      case Promptly(delay) => delay + SECOND - 1
    }
  }

  ghost predicate PutObeys(d: Discipline, s: Store, now: Time, user: UserId, expiresAt: Time, ttl: Time, lifetime: nat)
    requires ttl > 0
  {
    match d
    case LaterExpiry => user in s.index && now < s.index[user].expiry ==> s.index[user].expiry <= now + KeptSeconds(ttl)
    case Promptly(delay) => now <= expiresAt - lifetime + delay
  }

  /** No revocation of the user is between its read and its deletion. */
  ghost predicate Quiet(procs: map<nat, Proc>, user: UserId) {
    forall p :: p in procs ==> !(procs[p].request == LogoutAll(user) && procs[p].stage.Revoking?)
  }

  /** Only puts are disciplined: also, none comes while a revocation of its user is under
      way. */
  ghost predicate Obeys(d: Discipline, s: State, p: Proc, lifetime: nat) {
    match p.request
    case Login(user, _, _) =>
      p.stage.Putting? && p.stage.ttl > 0 ==>
        Quiet(s.procs, user) && PutObeys(d, s.store, s.now, user, p.stage.expiresAt, p.stage.ttl, lifetime)
    case Refresh(t) =>
      p.stage.Exchanging? && p.stage.ttl > 0 ==>
        Quiet(s.procs, t.user) && PutObeys(d, s.store, s.now, t.user, p.stage.expiresAt, p.stage.ttl, lifetime)
    case _ => true
  }

  ghost predicate Disciplined(d: Discipline, s: State, events: seq<Event>, lifetime: nat)
    decreases |events|
  {
    events != [] ==>
      && (events[0].Move? && events[0].p in s.procs ==> Obeys(d, s, s.procs[events[0].p], lifetime))
      && Disciplined(d, Step(s, events[0], lifetime), events[1..], lifetime)
  }

  /** A revocation under way has read every session that is not about to end. */
  ghost predicate ReadEnough(s: Store, now: Time, p: Proc, slack: nat) {
    p.request.LogoutAll? && p.stage.Revoking? ==> NoneOutlives(s, p.request.user, now, now + slack, p.stage.tokens)
  }

  ghost predicate AllReadEnough(s: State, slack: nat) {
    forall p :: p in s.procs ==> ReadEnough(s.store, s.now, s.procs[p], slack)
  }

  /** Only a put can add to a user's sessions. */
  lemma SessionsShrink(s: Store, now: Time, p: Proc, lifetime: nat, user: UserId)
    requires Owned(s) && ProcFits(p, now, lifetime)
    requires p.request.Login? && p.stage.Putting? ==> p.request.user != user
    requires p.request.Refresh? && p.stage.Exchanging? ==> p.request.token.user != user
    ensures var s' := Advance(s, now, p.request, p.stage, lifetime).store;
            forall t :: Live(s', t, now) && s'.keys[t].user == user ==> Live(s, t, now) && s'.keys[t] == s.keys[t]
  {
  }

  lemma OthersReadEnough(d: Discipline, s: State, p: nat, q: nat, lifetime: nat)
    requires Good(s, lifetime) && AllReadEnough(s, d.Slack())
    requires p in s.procs && Obeys(d, s, s.procs[p], lifetime) && q in s.procs && q != p
    ensures ReadEnough(Moved(s, p, lifetime).store, s.now, s.procs[q], d.Slack())
  {
    var r := s.procs[q];
    assert ReadEnough(s.store, s.now, r, d.Slack()) && ProcFits(s.procs[p], s.now, lifetime);
    if r.request.LogoutAll? && r.stage.Revoking? {
      SessionsShrink(s.store, s.now, s.procs[p], lifetime, r.request.user);
    }
  }

  /** At the read agreement gives it; after that the user's sessions only shrink. */
  lemma StepReadsEnough(d: Discipline, s: State, e: Event, lifetime: nat)
    requires Good(s, lifetime) && Indexed(s.store, s.now, d.Slack()) && AllReadEnough(s, d.Slack())
    requires e.Move? && e.p in s.procs ==> Obeys(d, s, s.procs[e.p], lifetime)
    ensures AllReadEnough(Step(s, e, lifetime), d.Slack())
  {
    match e
    case Move(p) =>
      if p in s.procs {
        var s' := Moved(s, p, lifetime);
        forall q | q in s'.procs ensures ReadEnough(s'.store, s'.now, s'.procs[q], d.Slack()) {
          if q != p {
            OthersReadEnough(d, s, p, q, lifetime);
          } else {
            ReadIsEnough(s.store, s.now, s.procs[p], lifetime, d.Slack());
          }
        }
      }
    case _ =>
      var s' := Step(s, e, lifetime);
      forall q | q in s'.procs ensures ReadEnough(s'.store, s'.now, s'.procs[q], d.Slack()) {
        assert q in s.procs ==> ReadEnough(s.store, s.now, s.procs[q], d.Slack());
      }
  }

  lemma ReadIsEnough(s: Store, now: Time, p: Proc, lifetime: nat, slack: nat)
    requires Indexed(s, now, slack)
    ensures var c := Advance(s, now, p.request, p.stage, lifetime);
            ReadEnough(c.store, now, Proc(p.request, c.stage), slack)
  {
    if p.request.LogoutAll? && p.stage.Begun? {
      forall t | Live(s, t, now) && s.keys[t].user == p.request.user && t !in Members(s, p.request.user, now)
        ensures s.keys[t].expiry <= now + slack
      {
        assert Covered(s, t, now, slack);
      }
    }
  }

  lemma PutObeysFits(d: Discipline, s: Store, now: Time, t: Token, expiresAt: Time, ttl: Time, lifetime: nat)
    requires Owned(s) && Bounded(s, now, lifetime) && Indexed(s, now, d.Slack())
    requires 0 < ttl <= lifetime && expiresAt <= now + ttl
    requires PutObeys(d, s, now, t.user, expiresAt, ttl, lifetime)
    ensures PutFits(s, now, t, ttl, d.Slack())
  {
    OwnGap(ttl);
    forall x | Live(s, x, now) && s.keys[x].user == t.user && x !in {t}
      ensures s.keys[x].expiry <= now + KeptSeconds(ttl) + d.Slack()
    {
      assert Covered(s, x, now, d.Slack());
    }
  }

  lemma ObeysFits(d: Discipline, s: State, p: nat, lifetime: nat)
    requires Good(s, lifetime) && Indexed(s.store, s.now, d.Slack()) && AllReadEnough(s, d.Slack())
    requires p in s.procs && Obeys(d, s, s.procs[p], lifetime)
    ensures StoreFits(s.store, s.now, s.procs[p], d.Slack())
  {
    var proc := s.procs[p];
    assert ProcFits(proc, s.now, lifetime) && ReadEnough(s.store, s.now, proc, d.Slack());
    if proc.request.Login? && proc.stage.Putting? {
      PutObeysFits(d, s.store, s.now, proc.stage.t, proc.stage.expiresAt, proc.stage.ttl, lifetime);
    } else if proc.request.Refresh? && proc.stage.Exchanging? {
      var t := proc.request.token;
      DropKeepsIndexed(s.store, s.now, t, d.Slack());
      PutObeysFits(d, Drop(s.store, s.now, t.user, t), s.now, proc.stage.to, proc.stage.expiresAt, proc.stage.ttl,
                   lifetime);
    }
  }

  lemma {:induction false} DisciplinedIsOrderly(d: Discipline, s: State, events: seq<Event>, lifetime: nat)
    requires Good(s, lifetime) && Indexed(s.store, s.now, d.Slack()) && AllReadEnough(s, d.Slack())
    requires Disciplined(d, s, events, lifetime)
    ensures Orderly(s, events, lifetime, d.Slack())
    decreases |events|
  {
    if events != [] {
      var e := events[0];
      if e.Move? && e.p in s.procs {
        ObeysFits(d, s, e.p, lifetime);
      }
      StepKeepsGood(s, e, lifetime);
      StepAgrees(s, e, lifetime, d.Slack());
      StepReadsEnough(d, s, e, lifetime);
      DisciplinedIsOrderly(d, Step(s, e, lifetime), events[1..], lifetime);
    }
  }

  /** If no put comes while a revocation of its user is under way, and none lowers the
      expiry of its user's set, map and index always agree up to the second that EXPIRE
      cuts off. If instead every put follows its clock reading within a delay, they
      agree up to that delay and the second, in whatever order puts come. */
  lemma DisciplineAgrees(d: Discipline, events: seq<Event>, lifetime: nat)
    requires Disciplined(d, INITIAL, events, lifetime)
    ensures Agreeing(INITIAL, events, lifetime, d.Slack())
  {
    DisciplinedIsOrderly(d, INITIAL, events, lifetime);
    IndexAgreesIff(events, lifetime, d.Slack());
  }

  // ---- Revoking all sessions of a user ----

  /** The deletion leaves the user no session if and only if its read of the set, however
      long ago, has all that are live now; other users keep all of theirs. */
  lemma RevocationLeaves(s: State, p: nat, lifetime: nat, other: UserId)
    requires Good(s, lifetime) && p in s.procs && s.procs[p].request.LogoutAll? && s.procs[p].stage.Revoking?
    ensures var user := s.procs[p].request.user; var tokens := s.procs[p].stage.tokens; var s' := Moved(s, p, lifetime);
            && Sessions(s'.store, user, s'.now) == Sessions(s.store, user, s.now) - tokens
            && (Sessions(s'.store, user, s'.now) == {} <==> Sessions(s.store, user, s.now) <= tokens)
            && (other != user ==> Sessions(s'.store, other, s'.now) == Sessions(s.store, other, s.now))
  {
    var user, tokens := s.procs[p].request.user, s.procs[p].stage.tokens;
    assert ProcFits(s.procs[p], s.now, lifetime);
    RevokeLeaves(s.store, s.now, user, tokens, other);
    RevokeLeaves(s.store, s.now, user, tokens, user);
    RevokeComplete(s.store, s.now, user, tokens);
  }

  /** A request keeps its place while only others move. */
  ghost predicate Rests(events: seq<Event>, p: nat) {
    forall i :: 0 <= i < |events| ==> events[i] != Move(p)
  }

  lemma {:induction false} RestingStays(s: State, events: seq<Event>, p: nat, lifetime: nat)
    requires p in s.procs && Rests(events, p)
    ensures p in Run(s, events, lifetime).procs && Run(s, events, lifetime).procs[p] == s.procs[p]
    decreases |events|
  {
    if events != [] {
      assert events[0] != Move(p);
      RestingStays(Step(s, events[0], lifetime), events[1..], p, lifetime);
    }
  }

  /** The two states between which a revocation works: the one in which it reads the
      set, and, after anything else has happened, the one in which it deletes. */
  ghost predicate Revokes(s: State, events: seq<Event>, p: nat, user: UserId, lifetime: nat) {
    && p in s.procs && s.procs[p] == Proc(LogoutAll(user), Begun)
    && Members(s.store, user, s.now) != {}
    && Rests(events, p)
  }

  /** A revocation read in one state and carried out in a later one leaves the user no
      session if and only if every session live at the deletion was in the set at the
      read. What it misses was put since, or was about to end when the set was read. */
  lemma LogoutAllMisses(s: State, events: seq<Event>, p: nat, user: UserId, lifetime: nat, slack: nat)
    requires Good(s, lifetime) && Indexed(s.store, s.now, slack) && Revokes(s, events, p, user, lifetime)
    ensures var read := Moved(s, p, lifetime); var t := Run(read, events, lifetime);
            && p in t.procs
            && var t' := Moved(t, p, lifetime);
               && t'.procs[p].stage == DONE
               && (Sessions(t'.store, user, t'.now) == {}
                   <==> Sessions(t.store, user, t.now) <= Members(s.store, user, s.now))
               && forall x :: x in Sessions(t'.store, user, t'.now) ==>
                                !Live(s.store, x, s.now) || s.store.keys[x].expiry <= s.now + slack
  {
    var read := Moved(s, p, lifetime);
    var t := Run(read, events, lifetime);
    StepKeepsGood(s, Move(p), lifetime);
    RunKeepsGood(read, events, lifetime);
    RestingStays(read, events, p, lifetime);
    RevocationLeaves(t, p, lifetime, user);
    forall x | x in Sessions(Moved(t, p, lifetime).store, user, t.now) && Live(s.store, x, s.now)
      ensures s.store.keys[x].expiry <= s.now + slack
    {
      assert x in Sessions(t.store, user, t.now) && x !in Members(s.store, user, s.now);
      assert Covered(s.store, x, s.now, slack);
      assert Owned(t.store) && Owned(s.store);
    }
  }

  lemma {:induction false} AgreeingEnds(s: State, events: seq<Event>, lifetime: nat, slack: nat)
    requires Agreeing(s, events, lifetime, slack)
    ensures Indexed(Run(s, events, lifetime).store, Run(s, events, lifetime).now, slack)
    decreases |events|
  {
    if events != [] {
      AgreeingEnds(Step(s, events[0], lifetime), events[1..], lifetime, slack);
    }
  }

  /** After any disciplined run, whatever happens while a revocation is under way: of the
      sessions live when it reads the set, only those about to end can be left, and no
      session at all is left if and only if none was put since and not read. */
  lemma LogoutAllRevokes(d: Discipline, events: seq<Event>, since: seq<Event>, p: nat, user: UserId, lifetime: nat)
    requires Disciplined(d, INITIAL, events, lifetime)
    requires Revokes(Run(INITIAL, events, lifetime), since, p, user, lifetime)
    ensures var s := Run(INITIAL, events, lifetime);
            var t := Run(Moved(s, p, lifetime), since, lifetime);
            && p in t.procs
            && var t' := Moved(t, p, lifetime);
               && (Sessions(t'.store, user, t'.now) == {}
                   <==> Sessions(t.store, user, t.now) <= Members(s.store, user, s.now))
               && forall x :: x in Sessions(t'.store, user, t'.now) ==>
                                !Live(s.store, x, s.now) || s.store.keys[x].expiry <= s.now + d.Slack()
  {
    var s := Run(INITIAL, events, lifetime);
    DisciplineAgrees(d, events, lifetime);
    AgreeingEnds(INITIAL, events, lifetime, d.Slack());
    RunKeepsGood(INITIAL, events, lifetime);
    LogoutAllMisses(s, since, p, user, lifetime, d.Slack());
  }

  lemma {:induction false} DisciplinedEnds(d: Discipline, s: State, events: seq<Event>, lifetime: nat)
    requires Good(s, lifetime) && Indexed(s.store, s.now, d.Slack()) && AllReadEnough(s, d.Slack())
    requires Disciplined(d, s, events, lifetime)
    ensures Good(Run(s, events, lifetime), lifetime) && AllReadEnough(Run(s, events, lifetime), d.Slack())
    decreases |events|
  {
    if events != [] {
      var e := events[0];
      if e.Move? && e.p in s.procs {
        ObeysFits(d, s, e.p, lifetime);
      }
      StepKeepsGood(s, e, lifetime);
      StepAgrees(s, e, lifetime, d.Slack());
      StepReadsEnough(d, s, e, lifetime);
      DisciplinedEnds(d, Step(s, e, lifetime), events[1..], lifetime);
    }
  }

  /** Within a disciplined run a revocation leaves its user only sessions that are about
      to end. */
  lemma DisciplinedLogoutAll(d: Discipline, events: seq<Event>, p: nat, lifetime: nat, t: Token)
    requires Disciplined(d, INITIAL, events, lifetime)
    requires var s := Run(INITIAL, events, lifetime);
             && p in s.procs && s.procs[p].request.LogoutAll? && s.procs[p].stage.Revoking?
             && t in Sessions(Moved(s, p, lifetime).store, s.procs[p].request.user, s.now)
    ensures var s := Run(INITIAL, events, lifetime); t in s.store.keys && s.store.keys[t].expiry <= s.now + d.Slack()
  {
    var s := Run(INITIAL, events, lifetime);
    DisciplinedEnds(d, INITIAL, events, lifetime);
    RevocationLeaves(s, p, lifetime, s.procs[p].request.user);
    assert ReadEnough(s.store, s.now, s.procs[p], d.Slack());
  }

  // ---- Dead tokens ----

  /** Whether a step puts this token. */
  ghost predicate Puts(s: State, e: Event, t: Token) {
    && e.Move? && e.p in s.procs
    && var p := s.procs[e.p];
       || (p.request.Login? && p.stage.Putting? && p.stage.t == t)
       || (p.request.Refresh? && p.stage.Exchanging? && p.stage.to == t)
  }

  ghost predicate NeverPut(s: State, events: seq<Event>, t: Token, lifetime: nat)
    decreases |events|
  {
    events != [] ==> !Puts(s, events[0], t) && NeverPut(Step(s, events[0], lifetime), events[1..], t, lifetime)
  }

  /** A refresh of this token whose rotation has found it live, or that is done well. */
  predicate Past(p: Proc, t: Token) {
    && p.request == Refresh(t)
    && (p.stage.Granted? || p.stage.Exchanging? || (p.stage.Finished? && p.stage.answer.Ok?))
  }

  lemma DeadStep(s: State, e: Event, t: Token, lifetime: nat)
    requires !Live(s.store, t, s.now) && !Puts(s, e, t)
    ensures var s' := Step(s, e, lifetime);
            && !Live(s'.store, t, s'.now)
            && forall p :: p in s'.procs && Past(s'.procs[p], t) ==> p in s.procs && Past(s.procs[p], t)
  {
  }

  /** Once a token is dead, and unless it is put again, no refresh of it gets past its
      rotation's lookup, wherever it was: only one that had already passed it can still
      succeed. */
  lemma {:induction false} KilledNeverRefreshes(s: State, events: seq<Event>, t: Token, lifetime: nat, p: nat)
    requires !Live(s.store, t, s.now) && NeverPut(s, events, t, lifetime)
    ensures var s' := Run(s, events, lifetime);
            && !Live(s'.store, t, s'.now)
            && (p in s'.procs && Past(s'.procs[p], t) ==> p in s.procs && Past(s.procs[p], t))
    decreases |events|
  {
    if events != [] {
      DeadStep(s, events[0], t, lifetime);
      KilledNeverRefreshes(Step(s, events[0], lifetime), events[1..], t, lifetime, p);
    }
  }

  /** The three steps that kill a token: dropping it, deleting it with those read of its
      user, and exchanging it for another. */
  ghost predicate Kills(p: Proc, t: Token) {
    || (p.request == Logout(t) && p.stage.Dropping?)
    || (p.request.LogoutAll? && p.stage.Revoking? && t in p.stage.tokens)
    || (p.request == Refresh(t) && p.stage.Exchanging? && p.stage.ttl > 0 && p.stage.to != t)
  }

  lemma KillingKills(s: State, p: nat, t: Token, lifetime: nat)
    requires p in s.procs && Kills(s.procs[p], t)
    ensures !Live(Moved(s, p, lifetime).store, t, s.now)
  {
  }

  // ---- Rotation ----

  /** The exchange of a refresh, in any state: the old token dies if and only if the new
      one was issued with other times, in whole seconds; the new one belongs to the same
      user; and the number of sessions of every user stays if and only if the old token
      is still live and the new one is not another live session, or neither. */
  lemma ExchangeInRun(s: State, p: nat, lifetime: nat, user: UserId)
    requires Good(s, lifetime) && p in s.procs && s.procs[p].request.Refresh? && s.procs[p].stage.Exchanging?
    ensures var from := s.procs[p].request.token; var to := s.procs[p].stage.to; var s' := Moved(s, p, lifetime);
            && (!Live(s'.store, from, s'.now) <==> to != from)
            && to in Sessions(s'.store, from.user, s'.now)
            && (|Sessions(s'.store, user, s'.now)| == |Sessions(s.store, user, s.now)|
                <==> user != from.user || (Live(s.store, from, s.now) <==> to == from || !Live(s.store, to, s.now)))
  {
    var from, to, ttl := s.procs[p].request.token, s.procs[p].stage.to, s.procs[p].stage.ttl;
    assert ProcFits(s.procs[p], s.now, lifetime);
    ExchangeKillsOld(s.store, s.now, from.user, from, to, ttl);
    ExchangeConserves(s.store, s.now, from, to, ttl, user);
    ExchangeSessions(s.store, s.now, from, to, ttl, from.user);
  }

  /** So a refresh that was past its lookup when its token was killed still yields a
      session: one token, rotated by two refreshes at once, becomes two. */
  lemma LateExchangeAddsSession(s: State, p: nat, lifetime: nat)
    requires Good(s, lifetime) && p in s.procs && s.procs[p].request.Refresh? && s.procs[p].stage.Exchanging?
    requires !Live(s.store, s.procs[p].request.token, s.now) && !Live(s.store, s.procs[p].stage.to, s.now)
    ensures var user := s.procs[p].request.token.user; var s' := Moved(s, p, lifetime);
            |Sessions(s'.store, user, s'.now)| == |Sessions(s.store, user, s.now)| + 1
  {
    var from, to, ttl := s.procs[p].request.token, s.procs[p].stage.to, s.procs[p].stage.ttl;
    assert ProcFits(s.procs[p], s.now, lifetime);
    ExchangeSessions(s.store, s.now, from, to, ttl, from.user);
    var before := Sessions(s.store, from.user, s.now);
    assert from !in before && to !in before;
    assert before - {from} == before;
  }

  // ---- A refresh on its own ----

  /** An uninterrupted refresh succeeds if and only if its token is live still at the
      rotation's lookup, neither its own expiry nor the remaining time the store
      reported has passed when looked at, and a lifetime has not gone by before the
      time to live is computed. It then exchanges the token for the one it answers. */
  lemma RefreshSucceedsIff(s: Store, now: Time, t: Token, d: seq<nat>, lifetime: nat)
    requires |d| == 9
    ensures var c := Alone(Config(s, Begun), now, Refresh(t), d, lifetime);
            var t3 := now + d[0] + d[1] + d[2]; var t6 := t3 + d[3] + d[4] + d[5]; var t8 := t6 + d[6] + d[7];
            var to := Issue(t.user, t.username, t.email, t3 + d[3] + d[4], t6 + lifetime);
            && c.stage.Finished?
            && (c.stage.answer.Ok?
                <==> && Live(s, t, t6 + d[6])
                     && t3 <= Until(s, t, now + d[0] + d[1])
                     && t3 + d[3] < t.expiresAt * SECOND
                     && t8 < t3 + lifetime)
            && (c.stage.answer.Ok? ==>
                  && c.stage.answer.value == Some(to)
                  && c.store == Exchange(s, t8 + d[8], s.keys[t].user, t, to, t3 + lifetime - t8))
  {
    var t3 := now + d[0] + d[1] + d[2];
    var looked := LookupSucceedsIff(s, now, t, d, lifetime);
    var signed := SigningSucceedsIff(looked, t3, t, d[3..], lifetime);
    RotationSucceedsIff(signed, t3 + d[3] + d[4] + d[5], t, d[3..][3..], lifetime);
  }

  /** One that fails changes nothing and says which of these it was. */
  lemma RefreshFailsWith(s: Store, now: Time, t: Token, d: seq<nat>, lifetime: nat)
    requires |d| == 9
    ensures var c := Alone(Config(s, Begun), now, Refresh(t), d, lifetime);
            var t3 := now + d[0] + d[1] + d[2];
            Failed(c) ==>
              c == Config(s, Finished(Err(if !Live(s, t, now + d[0]) then InvalidToken
                                          else if Until(s, t, now + d[0] + d[1]) < t3 then TokenExpired
                                          else if t.expiresAt * SECOND <= t3 + d[3] then InvalidToken
                                          else if !Live(s, t, t3 + d[3] + d[4] + d[5] + d[6]) then NotFound
                                          else BadRequest)))
  {
    var t3 := now + d[0] + d[1] + d[2];
    var looked := LookupSucceedsIff(s, now, t, d, lifetime);
    var signed := SigningSucceedsIff(looked, t3, t, d[3..], lifetime);
    RotationSucceedsIff(signed, t3 + d[3] + d[4] + d[5], t, d[3..][3..], lifetime);
  }

  predicate Failed(c: Config) {
    c.stage.Finished? && c.stage.answer.Err?
  }

  lemma LookupSucceedsIff(s: Store, now: Time, t: Token, d: seq<nat>, lifetime: nat) returns (c: Config)
    requires |d| >= 3
    ensures var t3 := now + d[0] + d[1] + d[2];
            && Alone(Config(s, Begun), now, Refresh(t), d, lifetime) == Alone(c, t3, Refresh(t), d[3..], lifetime)
            && c.store == s && (c.stage == Checked(t3 + lifetime) || Failed(c))
            && (c.stage.Checked? <==> Live(s, t, now + d[0]) && t3 <= Until(s, t, now + d[0] + d[1]))
            && (Failed(c) ==> c.stage.answer.error == if Live(s, t, now + d[0]) then TokenExpired else InvalidToken)
  {
    var c1, c2, c3 := ThreeSteps(Config(s, Begun), now, Refresh(t), d, lifetime);
    c := c3;
  }

  lemma SigningSucceedsIff(c: Config, now: Time, t: Token, d: seq<nat>, lifetime: nat) returns (e: Config)
    requires |d| >= 3 && (c.stage.Checked? || Failed(c))
    ensures var t3 := now + d[0] + d[1] + d[2];
            && Alone(c, now, Refresh(t), d, lifetime) == Alone(e, t3, Refresh(t), d[3..], lifetime)
            && e.store == c.store && (e.stage.Renewed? || Failed(e))
            && (e.stage.Renewed? <==> c.stage.Checked? && now + d[0] < t.expiresAt * SECOND)
            && (Failed(e) ==> if Failed(c) then e == c else e.stage.answer == Err(InvalidToken))
            && (e.stage.Renewed? ==>
                  e.stage == Renewed(Issue(t.user, t.username, t.email, now + d[0] + d[1], t3 + lifetime),
                                     c.stage.expiresAt))
  {
    var c1, c2, c3 := ThreeSteps(c, now, Refresh(t), d, lifetime);
    e := c3;
  }

  lemma RotationSucceedsIff(c: Config, now: Time, t: Token, d: seq<nat>, lifetime: nat)
    requires |d| == 3 && (c.stage.Renewed? || Failed(c))
    ensures var e := Alone(c, now, Refresh(t), d, lifetime); var t2 := now + d[0] + d[1];
            && e.stage.Finished?
            && (e.stage.answer.Ok? <==> c.stage.Renewed? && Live(c.store, t, now + d[0]) && t2 < c.stage.expiresAt)
            && (e.stage.answer.Ok? ==>
                  && e.stage.answer.value == Some(c.stage.to)
                  && e.store == Exchange(c.store, t2 + d[2], c.store.keys[t].user, t, c.stage.to,
                                         c.stage.expiresAt - t2))
            && (Failed(e) ==>
                  if Failed(c) then e == c
                  else
                    e == Config(c.store, Finished(Err(if Live(c.store, t, now + d[0]) then BadRequest else NotFound))))
  {
    var c1, c2, c3 := ThreeSteps(c, now, Refresh(t), d, lifetime);
  }
}
