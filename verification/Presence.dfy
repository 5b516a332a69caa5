/** The presence keys, which live for a fixed time after the last write, and the ticks
    of a connection that keep its user's key alive. */
module Presence {
  import opened Common

  /** Seconds: how often a connection pings, and the default life of a key. */
  const PING_PERIOD: Time := 30
  const DEFAULT_TTL: Time := 35

  /** From a user to the instant at which its key expires. */
  type Keys = map<UserId, Time>

  predicate Live(keys: Keys, user: UserId, now: Time) {
    user in keys && now < keys[user]
  }

  datatype Op = Online(user: UserId, at: Time) | Offline(user: UserId, at: Time)

  function Applied(keys: Keys, op: Op, ttl: Time): Keys {
    match op
    case Online(user, at) => keys[user := at + ttl]
    case Offline(user, _) => keys - {user}
  }

  class Store {
    const ttl: Time
    var keys: Keys

    constructor (ttl: Time)
      ensures this.ttl == ttl && keys == map[]
    {
      this.ttl := ttl;
      keys := map[];
    }

    method SetOnline(user: UserId, now: Time)
      modifies this
      ensures keys == Applied(old(keys), Online(user, now), ttl)
    {
      keys := keys[user := now + ttl];
    }

    method SetOffline(user: UserId, now: Time)
      modifies this
      ensures keys == Applied(old(keys), Offline(user, now), ttl)
    {
      keys := keys - {user};
    }

    method IsOnline(user: UserId, now: Time) returns (online: bool)
      ensures online <==> Live(keys, user, now)
    {
      online := user in keys && now < keys[user];
    }

    /** Whether each of several keys is there, in one request. */
    method MultiGet(names: array<UserId>, now: Time) returns (values: seq<bool>)
      ensures |values| == names.Length
      ensures forall i :: 0 <= i < names.Length ==> (values[i] <==> Live(keys, names[i], now))
    {
      values := [];
      for i := 0 to names.Length
        invariant |values| == i
        invariant forall k :: 0 <= k < i ==> (values[k] <==> Live(keys, names[k], now))
      {
        values := values + [names[i] in keys && now < keys[names[i]]];
      }
    }

    /** Answers for exactly the users asked about, each once however often it is named. */
    method AreOnline(users: seq<UserId>, now: Time) returns (online: map<UserId, bool>)
      ensures forall u :: u in online <==> u in users
      ensures forall u :: u in online ==> (online[u] <==> Live(keys, u, now))
    {
      if |users| == 0 {
        return map[];
      }
      var names := new UserId[|users|];
      for i := 0 to |users|
        invariant forall k :: 0 <= k < i ==> names[k] == users[k]
      {
        names[i] := users[i];
      }
      var values := MultiGet(names, now);
      online := map[];
      for i := 0 to |users|
        invariant forall u :: u in online <==> u in users[..i]
        invariant forall u :: u in online ==> (online[u] <==> Live(keys, u, now))
      {
        online := online[users[i] := values[i]];
        assert users[..i + 1] == users[..i] + [users[i]];
      }
      assert users[..|users|] == users;
    }
  }

  // ---- What a history of writes leaves ----

  function Played(ops: seq<Op>, ttl: Time): Keys {
    if ops == [] then map[] else Applied(Played(ops[..|ops| - 1], ttl), ops[|ops| - 1], ttl)
  }

  ghost predicate InOrder(ops: seq<Op>) {
    forall i, j :: 0 <= i < j < |ops| ==> ops[i].at <= ops[j].at
  }

  /** No write from position `i` on takes the user's key away. */
  ghost predicate Undisturbed(ops: seq<Op>, i: nat, user: UserId) {
    forall j :: i <= j < |ops| ==> !(ops[j].Offline? && ops[j].user == user)
  }

  /** The write at position `i` still keeps the user online. */
  ghost predicate Keeps(ops: seq<Op>, i: nat, user: UserId, now: Time, ttl: Time) {
    && i < |ops| && ops[i].Online? && ops[i].user == user
    && Undisturbed(ops, i, user)
    && now < ops[i].at + ttl
  }

  /** A user is online if and only if some SetOnline less than a TTL ago has not been
      undone since. */
  lemma {:induction false} OnlineIff(ops: seq<Op>, ttl: Time, user: UserId, now: Time)
    requires InOrder(ops)
    ensures Live(Played(ops, ttl), user, now) <==> exists i :: Keeps(ops, i, user, now, ttl)
  {
    if ops != [] {
      var before, last := ops[..|ops| - 1], ops[|ops| - 1];
      OnlineIff(before, ttl, user, now);
      if last.user != user {
        forall i ensures Keeps(ops, i, user, now, ttl) <==> Keeps(before, i, user, now, ttl) {
          KeepsPrefix(before, last, i, user, now, ttl);
        }
      } else if last.Online? {
        assert Live(Played(ops, ttl), user, now) ==> Keeps(ops, |before|, user, now, ttl);
      } else {
        assert last == ops[|before|];
        forall i ensures !Keeps(ops, i, user, now, ttl) {
        }
      }
    }
  }

  lemma KeepsPrefix(before: seq<Op>, last: Op, i: nat, user: UserId, now: Time, ttl: Time)
    requires last.user != user
    ensures Keeps(before + [last], i, user, now, ttl) <==> Keeps(before, i, user, now, ttl)
  {
    var ops := before + [last];
    assert forall j :: 0 <= j < |before| ==> ops[j] == before[j];
    if Undisturbed(before, i, user) {
      assert forall j :: i <= j < |ops| && j < |before| ==> !(ops[j].Offline? && ops[j].user == user);
    }
  }

  // ---- A running connection ----

  /** The instant of the n-th tick of a pump that started at `start`. */
  function TickAt(start: Time, period: Time, n: nat): Time {
    if n == 0 then start else TickAt(start, period, n - 1) + period
  }

  /** The connection calls SetOnline when it opens and then at each tick of the pump it
      starts later; other writes may come between. */
  ghost predicate Runs(ops: seq<Op>, user: UserId, since: Time, start: Time, period: Time, now: Time) {
    && InOrder(ops)
    && since <= start && 0 < period
    && Online(user, since) in ops
    && forall n: nat :: n > 0 && TickAt(start, period, n) <= now ==> Online(user, TickAt(start, period, n)) in ops
  }

  lemma {:induction false} LastTick(start: Time, period: Time, now: Time, from: nat) returns (n: nat)
    requires 0 < period && TickAt(start, period, from) <= now
    ensures n >= from && TickAt(start, period, n) <= now < TickAt(start, period, n) + period
    decreases now - TickAt(start, period, from)
  {
    if now < TickAt(start, period, from) + period {
      n := from;
    } else {
      n := LastTick(start, period, now, from + 1);
    }
  }

  /** The last SetOnline of a running connection is recent. */
  lemma LastRefresh(ops: seq<Op>, user: UserId, since: Time, start: Time, period: Time, now: Time) returns (at: Time)
    requires Runs(ops, user, since, start, period, now) && since <= now
    ensures Online(user, at) in ops && since <= at <= now
    ensures now < at + (start - since) + period
    ensures start + period <= now ==> now < at + period
  {
    if start + period <= now {
      assert TickAt(start, period, 1) == start + period;
      var n := LastTick(start, period, now, 1);
      at := TickAt(start, period, n);
      TicksAscend(start, period, 1, n);
    } else {
      at := since;
    }
  }

  lemma {:induction false} TicksAscend(start: Time, period: Time, m: nat, n: nat)
    requires 0 < period && m <= n
    ensures TickAt(start, period, m) <= TickAt(start, period, n)
  {
    if m < n {
      TicksAscend(start, period, m, n - 1);
    }
  }

  /** With set-up time and one period within the TTL, a running connection's key never
      lapses unless a SetOffline comes after the connection has opened. */
  lemma NeverLapses(ops: seq<Op>, ttl: Time, user: UserId, since: Time, start: Time, period: Time, now: Time, i: nat)
    requires Runs(ops, user, since, start, period, now) && since <= now
    requires (start - since) + period <= ttl
    requires i < |ops| && ops[i] == Online(user, since) && Undisturbed(ops, i, user)
    ensures Live(Played(ops, ttl), user, now)
  {
    var at := LastRefresh(ops, user, since, start, period, now);
    var j :| 0 <= j < |ops| && ops[j] == Online(user, at);
    var k := if at == since then i else j;
    assert Keeps(ops, k, user, now, ttl);
    OnlineIff(ops, ttl, user, now);
  }

  /** A SetOffline that comes late, from an older connection of the same user, is made
      good by the next tick: a period after it the key is back, and stays. */
  lemma LateOfflineHeals(ops: seq<Op>, ttl: Time, user: UserId, since: Time, start: Time, period: Time, now: Time,
                         x: nat)
    requires Runs(ops, user, since, start, period, now) && period <= ttl
    requires x < |ops| && ops[x].Offline? && ops[x].user == user && Undisturbed(ops, x + 1, user)
    requires since <= ops[x].at && ops[x].at + period <= now && start + period <= now
    ensures Live(Played(ops, ttl), user, now)
  {
    var at := LastRefresh(ops, user, since, start, period, now);
    var j :| 0 <= j < |ops| && ops[j] == Online(user, at);
    assert Keeps(ops, j, user, now, ttl);
    OnlineIff(ops, ttl, user, now);
  }

  /** Once a TTL has passed since a user's last SetOnline its key is gone. */
  lemma GoneAfterTtl(ops: seq<Op>, ttl: Time, user: UserId, last: Time, now: Time)
    requires InOrder(ops)
    requires forall i :: 0 <= i < |ops| && ops[i].Online? && ops[i].user == user ==> ops[i].at <= last
    requires last + ttl <= now
    ensures !Live(Played(ops, ttl), user, now)
  {
    OnlineIff(ops, ttl, user, now);
  }

  // ---- The condition is exact ----

  /** The writes of a connection alone, up to its n-th tick. */
  function Alone(user: UserId, since: Time, start: Time, period: Time, n: nat): seq<Op> {
    if n == 0 then [Online(user, since)]
    else Alone(user, since, start, period, n - 1) + [Online(user, TickAt(start, period, n))]
  }

  lemma {:induction false} AloneExpiry(user: UserId, since: Time, start: Time, period: Time, n: nat, ttl: Time)
    ensures Played(Alone(user, since, start, period, n), ttl)
            == map[user := (if n == 0 then since else TickAt(start, period, n)) + ttl]
  {
    var ops := Alone(user, since, start, period, n);
    if n > 0 {
      AloneExpiry(user, since, start, period, n - 1, ttl);
      assert ops[..|ops| - 1] == Alone(user, since, start, period, n - 1);
    } else {
      assert ops[..0] == [];
    }
  }

  /** The instants between the n-th write and the next. */
  predicate Between(since: Time, start: Time, period: Time, n: nat, now: Time) {
    (if n == 0 then since else TickAt(start, period, n)) <= now < TickAt(start, period, n) + period
  }

  /** A connection on its own is online at every instant of its run if and only if its
      set-up time and one period fit in the TTL. */
  lemma NeverLapsesIff(user: UserId, since: Time, start: Time, period: Time, ttl: Time)
    requires since <= start && 0 < period
    ensures (forall n: nat, now :: Between(since, start, period, n, now) ==>
                                     Live(Played(Alone(user, since, start, period, n), ttl), user, now))
            <==> (start - since) + period <= ttl
  {
    forall n: nat, now | Between(since, start, period, n, now) && (start - since) + period <= ttl
      ensures Live(Played(Alone(user, since, start, period, n), ttl), user, now)
    {
      AloneExpiry(user, since, start, period, n, ttl);
    }
    AloneExpiry(user, since, start, period, 0, ttl);
    assert Between(since, start, period, 0, start + period - 1);
  }

  /** With the shipped constants the set-up may take five seconds. */
  lemma DefaultsAllowFiveSeconds(user: UserId, since: Time, start: Time)
    requires since <= start
    ensures (forall n: nat, now :: Between(since, start, PING_PERIOD, n, now) ==>
                                     Live(Played(Alone(user, since, start, PING_PERIOD, n), DEFAULT_TTL), user, now))
            <==> start - since <= 5
  {
    NeverLapsesIff(user, since, start, PING_PERIOD, DEFAULT_TTL);
  }
}
