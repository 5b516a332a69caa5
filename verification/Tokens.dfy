/** Refresh tokens: a map from each token to its user, and per user an index set with a
    time to live of its own. Times are milliseconds. */
module Tokens {
  import opened Common

  const SECOND: Time := 1000

  /** A token is its signed claims; the two times are whole seconds, and there is
      nothing else in it that would tell two of them apart. */
  datatype Token = Token(user: UserId, username: string, email: string, issuedAt: int, expiresAt: int)

  datatype Entry = Entry(user: UserId, expiry: Time)
  datatype Index = Index(members: set<Token>, expiry: Time)
  datatype Store = Store(keys: map<Token, Entry>, index: map<UserId, Index>)

  /** Keys vanish at their expiry. */
  predicate Live(s: Store, t: Token, now: Time) {
    t in s.keys && now < s.keys[t].expiry
  }

  function Members(s: Store, user: UserId, now: Time): set<Token> {
    if user in s.index && now < s.index[user].expiry then s.index[user].members else {}
  }

  ghost function Sessions(s: Store, user: UserId, now: Time): set<Token> {
    set t | t in s.keys && now < s.keys[t].expiry && s.keys[t].user == user
  }

  // ---- The three pipelines, each one transaction ----

  /** SET takes its time to live in milliseconds; EXPIRE takes whole seconds, and at
      least one. */
  function KeptSeconds(ttl: Time): (kept: Time)
    requires ttl > 0
    ensures ttl - SECOND < kept && (kept <= ttl || kept == SECOND)
    ensures kept > 0
  {
    if ttl < SECOND then SECOND else ttl / SECOND * SECOND
  }

  function Put(s: Store, now: Time, user: UserId, t: Token, ttl: Time): Store
    requires ttl > 0
  {
    Store(s.keys[t := Entry(user, now + ttl)],
          s.index[user := Index(Members(s, user, now) + {t}, now + KeptSeconds(ttl))])
  }

  /** Removing the last member removes the set. */
  function WithoutMember(index: map<UserId, Index>, user: UserId, t: Token, now: Time): map<UserId, Index> {
    if user !in index || index[user].expiry <= now || t !in index[user].members then index
    else if index[user].members == {t} then index - {user}
    else index[user := Index(index[user].members - {t}, index[user].expiry)]
  }

  function Drop(s: Store, now: Time, user: UserId, t: Token): Store {
    Store(s.keys - {t}, WithoutMember(s.index, user, t, now))
  }

  function Revoke(s: Store, user: UserId, tokens: set<Token>): Store {
    Store(s.keys - tokens, s.index - {user})
  }

  /** Rotation drops the old token and puts the new one. */
  function Exchange(s: Store, now: Time, user: UserId, from: Token, to: Token, ttl: Time): Store
    requires ttl > 0
  {
    Put(Drop(s, now, user, from), now, user, to, ttl)
  }

  // ---- The index agrees with the map ----

  /** A token that lives for more than `slack` yet is in its user's live set, and the set
      dies at most `slack` before it. */
  ghost predicate Covered(s: Store, t: Token, now: Time, slack: nat)
    requires t in s.keys
  {
    var e := s.keys[t];
    || e.expiry <= now + slack
    || (t in Members(s, e.user, now) && e.expiry <= s.index[e.user].expiry + slack)
  }

  /** Map and index agree up to `slack`. Without slack: every live token is in its
      user's live set, and the set outlives it. */
  ghost predicate Indexed(s: Store, now: Time, slack: nat) {
    forall t :: Live(s, t, now) ==> Covered(s, t, now, slack)
  }

  lemma IndexedWithoutSlack(s: Store, now: Time)
    ensures Indexed(s, now, 0)
            <==> forall t :: Live(s, t, now) ==>
                               t in Members(s, s.keys[t].user, now)
                               && s.keys[t].expiry <= s.index[s.keys[t].user].expiry
  {
    if Indexed(s, now, 0) {
      forall t | Live(s, t, now)
        ensures t in Members(s, s.keys[t].user, now) && s.keys[t].expiry <= s.index[s.keys[t].user].expiry
      {
        assert Covered(s, t, now, 0);
      }
    }
  }

  /** Keys and index name the user a token was issued to. */
  ghost predicate Owned(s: Store) {
    && (forall t :: t in s.keys ==> s.keys[t].user == t.user)
    && (forall u :: u in s.index ==> forall t :: t in s.index[u].members ==> t.user == u)
  }

  /** No session of the user, other than `except`, outlives the given time. */
  ghost predicate NoneOutlives(s: Store, user: UserId, now: Time, expiry: Time, except: set<Token>) {
    forall t :: Live(s, t, now) && s.keys[t].user == user && t !in except ==> s.keys[t].expiry <= expiry
  }

  /** What putting a token must find so as to keep the agreement. */
  ghost predicate PutFits(s: Store, now: Time, t: Token, ttl: Time, slack: nat)
    requires ttl > 0
  {
    && ttl <= KeptSeconds(ttl) + slack
    && NoneOutlives(s, t.user, now, now + KeptSeconds(ttl) + slack, {t})
  }

  /** Putting a token keeps the agreement if and only if the set, with its new time to
      live, covers that token and every other session of the user. */
  lemma PutKeepsIndexed(s: Store, now: Time, t: Token, ttl: Time, slack: nat)
    requires Indexed(s, now, slack) && Owned(s) && ttl > 0
    ensures Indexed(Put(s, now, t.user, t, ttl), now, slack) <==> PutFits(s, now, t, ttl, slack)
    ensures Owned(Put(s, now, t.user, t, ttl))
  {
    var s' := Put(s, now, t.user, t, ttl);
    if Indexed(s', now, slack) {
      assert Live(s', t, now) && Covered(s', t, now, slack);
      forall x | Live(s, x, now) && s.keys[x].user == t.user && x !in {t}
        ensures s.keys[x].expiry <= now + KeptSeconds(ttl) + slack
      {
        assert Live(s', x, now) && Covered(s', x, now, slack);
      }
    }
    if PutFits(s, now, t, ttl, slack) {
      forall x | Live(s', x, now) ensures Covered(s', x, now, slack) {
        if x != t {
          assert Live(s, x, now) && Covered(s, x, now, slack);
        }
      }
    }
  }

  /** A slack of a second less a millisecond is what the two units make of the token
      itself; without slack its time to live must be whole seconds or less than one. */
  lemma OwnGap(ttl: Time)
    requires ttl > 0
    ensures ttl <= KeptSeconds(ttl) + 999
    ensures ttl >= SECOND ==> ttl - KeptSeconds(ttl) == ttl % SECOND
    ensures ttl <= KeptSeconds(ttl) <==> ttl % SECOND == 0 || ttl < SECOND
  {
  }

  lemma DropKeepsIndexed(s: Store, now: Time, t: Token, slack: nat)
    requires Indexed(s, now, slack) && Owned(s)
    ensures Indexed(Drop(s, now, t.user, t), now, slack) && Owned(Drop(s, now, t.user, t))
  {
    var s' := Drop(s, now, t.user, t);
    forall x | Live(s', x, now) ensures Covered(s', x, now, slack) {
      assert Live(s, x, now) && Covered(s, x, now, slack);
    }
  }

  /** So rotation keeps the agreement under the same condition, the old token aside. */
  lemma ExchangeKeepsIndexed(s: Store, now: Time, from: Token, to: Token, ttl: Time, slack: nat)
    requires Indexed(s, now, slack) && Owned(s) && ttl > 0 && from.user == to.user
    ensures Indexed(Exchange(s, now, from.user, from, to, ttl), now, slack)
            <==> PutFits(Drop(s, now, from.user, from), now, to, ttl, slack)
    ensures Owned(Exchange(s, now, from.user, from, to, ttl))
  {
    DropKeepsIndexed(s, now, from, slack);
    PutKeepsIndexed(Drop(s, now, from.user, from), now, to, ttl, slack);
  }

  /** Deleting some tokens of a user and the whole set keeps the agreement if and only if
      every other session of the user is about to end. */
  lemma RevokeKeepsIndexed(s: Store, now: Time, user: UserId, tokens: set<Token>, slack: nat)
    requires Indexed(s, now, slack) && Owned(s) && forall t :: t in tokens ==> t.user == user
    ensures Indexed(Revoke(s, user, tokens), now, slack) <==> NoneOutlives(s, user, now, now + slack, tokens)
    ensures Owned(Revoke(s, user, tokens))
  {
    var s' := Revoke(s, user, tokens);
    if Indexed(s', now, slack) {
      forall t | Live(s, t, now) && s.keys[t].user == user && t !in tokens ensures s.keys[t].expiry <= now + slack {
        assert Live(s', t, now) && Covered(s', t, now, slack);
      }
    }
    if NoneOutlives(s, user, now, now + slack, tokens) {
      forall t | Live(s', t, now) ensures Covered(s', t, now, slack) {
        assert Live(s, t, now) && Covered(s, t, now, slack);
      }
    }
  }

  lemma TimeKeepsIndexed(s: Store, now: Time, later: Time, slack: nat)
    requires Indexed(s, now, slack) && now <= later
    ensures Indexed(s, later, slack)
  {
    forall t | Live(s, t, later) ensures Covered(s, t, later, slack) {
      assert Live(s, t, now) && Covered(s, t, now, slack);
    }
  }

  // ---- Revoking ----

  /** Other users' sessions are untouched, and what is left of the user's own is exactly
      what the set did not hold. */
  lemma RevokeLeaves(s: Store, now: Time, user: UserId, tokens: set<Token>, other: UserId)
    requires Owned(s) && forall t :: t in tokens ==> t.user == user
    ensures Sessions(Revoke(s, user, tokens), user, now) == Sessions(s, user, now) - tokens
    ensures other != user ==> Sessions(Revoke(s, user, tokens), other, now) == Sessions(s, other, now)
  {
  }

  /** So no session survives if and only if the set held them all. */
  lemma RevokeComplete(s: Store, now: Time, user: UserId, tokens: set<Token>)
    requires Owned(s) && forall t :: t in tokens ==> t.user == user
    ensures Sessions(Revoke(s, user, tokens), user, now) == {} <==> Sessions(s, user, now) <= tokens
  {
    RevokeLeaves(s, now, user, tokens, user);
    if Sessions(s, user, now) - tokens == {} {
      forall t | t in Sessions(s, user, now) ensures t in tokens {
        assert t !in Sessions(s, user, now) - tokens;
      }
    }
  }

  // ---- Rotation ----

  /** One token of the owner is taken out and another put in; nobody else's change. */
  lemma ExchangeSessions(s: Store, now: Time, from: Token, to: Token, ttl: Time, user: UserId)
    requires Owned(s) && from.user == to.user && ttl > 0
    ensures var after := Sessions(Exchange(s, now, from.user, from, to, ttl), user, now);
            after == if user == from.user then Sessions(s, user, now) - {from} + {to} else Sessions(s, user, now)
  {
  }

  lemma ExchangeSize(before: set<Token>, from: Token, to: Token)
    ensures |before - {from} + {to}| == |before| <==> (from in before <==> to == from || to !in before)
  {
    var rest := before - {from};
    assert |rest| == |before| - if from in before then 1 else 0;
    if to in rest {
      assert rest + {to} == rest;
    }
  }

  /** The number of sessions of a user stays the same if and only if the old token is
      live and the new one is not another live session, or neither holds. */
  lemma ExchangeConserves(s: Store, now: Time, from: Token, to: Token, ttl: Time, user: UserId)
    requires Owned(s) && from.user == to.user && ttl > 0
    ensures |Sessions(Exchange(s, now, from.user, from, to, ttl), user, now)| == |Sessions(s, user, now)|
            <==> user != from.user || (Live(s, from, now) <==> to == from || !Live(s, to, now))
  {
    ExchangeSessions(s, now, from, to, ttl, user);
    if user == from.user {
      ExchangeSize(Sessions(s, user, now), from, to);
      assert from in Sessions(s, user, now) <==> Live(s, from, now);
      assert to in Sessions(s, user, now) <==> Live(s, to, now);
    }
  }

  /** The old token is dead after rotation exactly when the new one is a different one. */
  lemma ExchangeKillsOld(s: Store, now: Time, user: UserId, from: Token, to: Token, ttl: Time)
    requires ttl > 0
    ensures !Live(Exchange(s, now, user, from, to, ttl), from, now) <==> to != from
  {
  }
}
