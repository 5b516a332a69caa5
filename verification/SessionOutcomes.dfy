/** What each call of the auth service, when nothing interrupts it, leaves of every token
    and every user's set, and what it answers. */
module SessionOutcomes {
  import opened Common
  import opened Tokens
  import opened AuthCalls
  import opened SessionRuns

  // ---- The store, key by key and set by set ----

  /** This token is in this user's set, and the set has not run out. */
  ghost predicate Holds(s: Store, user: UserId, t: Token, at: Time) {
    user in s.index && at < s.index[user].expiry && t in s.index[user].members
  }

  ghost predicate HoldsAny(s: Store, user: UserId, at: Time) {
    exists k :: Holds(s, user, k, at)
  }

  ghost predicate OtherKeysStay(x: Store, y: Store, except: set<Token>) {
    forall k :: k !in except ==> (k in y.keys <==> k in x.keys) && (k in x.keys ==> y.keys[k] == x.keys[k])
  }

  ghost predicate OtherSetsStay(x: Store, y: Store, except: UserId) {
    forall u :: u != except ==> (u in y.index <==> u in x.index) && (u in x.index ==> y.index[u] == x.index[u])
  }

  /** What EXPIRE makes of a time to live in milliseconds: its whole seconds, at least
      one. */
  ghost predicate Whole(kept: Time, ttl: Time) {
    kept % 1000 == 0 && (kept <= ttl < kept + 1000 || (kept == 1000 && 0 < ttl < 1000))
  }

  /** A token put for a user: its key lives for the time to live; the user's set has it
      and the members of before but those taken out, and lives for the whole seconds. */
  ghost predicate Saved(x: Store, y: Store, user: UserId, t: Token, at: Time, ttl: Time, out: set<Token>) {
    && t in y.keys && y.keys[t].user == user && y.keys[t].expiry == at + ttl
    && OtherKeysStay(x, y, out + {t}) && (forall k :: k in out && k != t ==> k !in y.keys)
    && user in y.index && Whole(y.index[user].expiry - at, ttl)
    && (forall k :: k in y.index[user].members <==> k == t || (Holds(x, user, k, at) && k !in out))
    && OtherSetsStay(x, y, user)
  }

  /** A token dropped: its key is gone, no set of its owner that has not run out has it,
      and nothing else has changed. */
  ghost predicate Dropped(x: Store, y: Store, owner: UserId, t: Token, at: Time) {
    && t !in y.keys && OtherKeysStay(x, y, {t})
    && (forall k, when :: at <= when ==> (Holds(y, owner, k, when) <==> Holds(x, owner, k, when) && k != t))
    && (owner in y.index ==> owner in x.index && y.index[owner].expiry == x.index[owner].expiry)
    && OtherSetsStay(x, y, owner)
  }

  /** All tokens of a user's set deleted, and the set. */
  ghost predicate Emptied(x: Store, y: Store, user: UserId, at: Time) {
    && (forall k :: Holds(x, user, k, at) ==> k !in y.keys)
    && (forall k :: !Holds(x, user, k, at) ==>
                      (k in y.keys <==> k in x.keys) && (k in x.keys ==> y.keys[k] == x.keys[k]))
    && user !in y.index && OtherSetsStay(x, y, user)
  }

  lemma PutSaves(s: Store, at: Time, user: UserId, t: Token, ttl: Time)
    requires ttl > 0
    ensures Saved(s, Put(s, at, user, t, ttl), user, t, at, ttl, {})
  {
  }

  lemma DropDrops(s: Store, at: Time, owner: UserId, t: Token)
    ensures Dropped(s, Drop(s, at, owner, t), owner, t, at)
  {
  }

  lemma ExchangeSaves(s: Store, at: Time, user: UserId, from: Token, to: Token, ttl: Time)
    requires ttl > 0
    ensures Saved(s, Exchange(s, at, user, from, to, ttl), user, to, at, ttl, {from})
  {
    DropDrops(s, at, user, from);
    PutSaves(Drop(s, at, user, from), at, user, to, ttl);
  }

  // ---- The calls ----

  /** The token a login or a refresh answers: for whom it is, and its times in whole
      seconds. */
  ghost predicate Issued(t: Token, user: UserId, username: string, email: string, issued: Time, expiring: Time) {
    && t.user == user && t.username == username && t.email == email
    && t.issuedAt * 1000 <= issued < t.issuedAt * 1000 + 1000
    && t.expiresAt * 1000 <= expiring < t.expiresAt * 1000 + 1000
  }

  lemma IssueIssues(user: UserId, username: string, email: string, issued: Time, expiring: Time)
    ensures Issued(Issue(user, username, email, issued, expiring), user, username, email, issued, expiring)
  {
  }

  /** A login succeeds unless a lifetime goes by between the reading that its record's
      expiry comes from and that of its time to live. It answers a token of the caller
      and saves it, for as long as was left at that reading. */
  lemma LoginOutcome(s: Store, now: Time, user: UserId, username: string, email: string, d: seq<nat>, lifetime: nat)
    requires |d| == 5
    ensures var c := Alone(Config(s, Begun), now, Login(user, username, email), d, lifetime);
            var at := now + d[0] + d[1] + d[2] + d[3] + d[4];
            && c.stage.Finished?
            && (c.stage.answer.Ok? <==> d[3] < lifetime)
            && (c.stage.answer.Err? ==> c.stage.answer.error == BadRequest && c.store == s)
            && (c.stage.answer.Ok? ==>
                  && c.stage.answer.value.Some?
                  && var t := c.stage.answer.value.value;
                     && Issued(t, user, username, email, now + d[0], now + d[0] + d[1] + lifetime)
                     && Saved(s, c.store, user, t, at, lifetime - d[3], {}))
  {
    var request := Login(user, username, email);
    var c1, c2 := TwoSteps(Config(s, Begun), now, request, d, lifetime);
    var c3, c4, c5 := ThreeSteps(c2, now + d[0] + d[1], request, d[2..], lifetime);
    IssueIssues(user, username, email, now + d[0], now + d[0] + d[1] + lifetime);
    if d[3] < lifetime {
      PutSaves(s, now + d[0] + d[1] + d[2] + d[3] + d[4], user, c2.stage.t, lifetime - d[3]);
    }
  }

  /** A refresh succeeds if and only if the token's key is still there at the rotation,
      the time that was left of it, rounded to the second, had not passed at the next
      reading, nor had its own expiry, and a lifetime had not passed at the last. It then
      answers a new token of the same user and claims, takes the old one out and saves
      the new one. A refresh that fails changes nothing. */
  lemma RefreshOutcome(s: Store, now: Time, t: Token, d: seq<nat>, lifetime: nat)
    requires |d| == 9
    ensures var c := Alone(Config(s, Begun), now, Refresh(t), d, lifetime);
            var t3 := now + d[0] + d[1] + d[2]; var t6 := t3 + d[3] + d[4] + d[5]; var t8 := t6 + d[6] + d[7];
            && c.stage.Finished?
            && (c.stage.answer.Ok?
                <==> && t in s.keys && t6 + d[6] < s.keys[t].expiry
                     && d[2] <= (s.keys[t].expiry - (now + d[0] + d[1]) + 500) / 1000 * 1000
                     && t3 + d[3] < t.expiresAt * 1000
                     && t8 < t3 + lifetime)
            && (c.stage.answer.Err? ==> c.store == s)
            && (c.stage.answer.Ok? ==>
                  && c.stage.answer.value.Some?
                  && var to := c.stage.answer.value.value;
                     && Issued(to, t.user, t.username, t.email, t3 + d[3] + d[4], t6 + lifetime)
                     && Saved(s, c.store, s.keys[t].user, to, t8 + d[8], t3 + lifetime - t8, {t}))
  {
    RefreshSucceedsIff(s, now, t, d, lifetime);
    RefreshFailsWith(s, now, t, d, lifetime);
    var t3 := now + d[0] + d[1] + d[2];
    var t6 := t3 + d[3] + d[4] + d[5];
    var t8 := t6 + d[6] + d[7];
    var to := Issue(t.user, t.username, t.email, t3 + d[3] + d[4], t6 + lifetime);
    IssueIssues(t.user, t.username, t.email, t3 + d[3] + d[4], t6 + lifetime);
    if Live(s, t, t6 + d[6]) && t8 < t3 + lifetime {
      ExchangeSaves(s, t8 + d[8], s.keys[t].user, t, to, t3 + lifetime - t8);
    }
  }

  /** A logout of a token that is live when looked up leaves it dead and in no set of its
      owner, and every other key, member and set as it was; of any other token it leaves
      the store as it was. Either way it answers success. */
  lemma LogoutOutcome(s: Store, now: Time, t: Token, d: seq<nat>, lifetime: nat)
    requires |d| == 2
    ensures var c := Alone(Config(s, Begun), now, Logout(t), d, lifetime);
            && c.stage == Finished(Ok(None))
            && (if t in s.keys && now + d[0] < s.keys[t].expiry
                then Dropped(s, c.store, s.keys[t].user, t, now + d[0] + d[1])
                else c.store == s)
  {
    var c1, c2 := TwoSteps(Config(s, Begun), now, Logout(t), d, lifetime);
    if Live(s, t, now + d[0]) {
      DropDrops(s, now + d[0] + d[1], s.keys[t].user, t);
    }
  }

  /** A logout everywhere deletes every token of the user's set, if it has not run out
      and is not empty, and the set, and nothing else. */
  lemma LogoutAllOutcome(s: Store, now: Time, user: UserId, d: seq<nat>, lifetime: nat)
    requires |d| == 2
    ensures var c := Alone(Config(s, Begun), now, LogoutAll(user), d, lifetime);
            && c.stage == Finished(Ok(None))
            && (if HoldsAny(s, user, now + d[0])
                then Emptied(s, c.store, user, now + d[0])
                else c.store == s)
  {
    var c1, c2 := TwoSteps(Config(s, Begun), now, LogoutAll(user), d, lifetime);
    var tokens := Members(s, user, now + d[0]);
    forall k ensures Holds(s, user, k, now + d[0]) <==> k in tokens {
    }
    if tokens != {} {
      assert Pick(tokens) in tokens;
    }
  }

  /** So a token logged out gives no refresh, however long after. */
  lemma LoggedOutStaysOut(s: Store, now: Time, t: Token, d: seq<nat>, later: Time, e: seq<nat>, lifetime: nat)
    requires |d| == 2 && |e| == 9 && now + d[0] + d[1] <= later
    ensures var c := Alone(Config(s, Begun), now, Logout(t), d, lifetime);
            Alone(Config(c.store, Begun), later, Refresh(t), e, lifetime)
            == Config(c.store, Finished(Err(InvalidToken)))
  {
    LogoutOutcome(s, now, t, d, lifetime);
    var after := Alone(Config(s, Begun), now, Logout(t), d, lifetime).store;
    RefreshSucceedsIff(after, later, t, e, lifetime);
    RefreshFailsWith(after, later, t, e, lifetime);
  }
}
