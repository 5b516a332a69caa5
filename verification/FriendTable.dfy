/** The friends table: one row for an unordered pair, an upsert that requests or
    accepts, and the lists read through the union of the table's two halves. */
module FriendTable {
  import opened Common

  datatype Status = Pending | Accepted

  datatype Friendship = Friendship(requester: UserId, status: Status, createdAt: Time, updatedAt: Time)

  type Table = map<Pair, Friendship>

  /** The table's constraints. */
  predicate Legal(pair: Pair, requester: UserId) {
    pair.low < pair.high && (requester == pair.low || requester == pair.high)
  }

  ghost predicate LegalTable(t: Table) {
    forall p :: p in t ==> Legal(p, t[p].requester)
  }

  /** A table after a statement, and the row the statement returned. */
  datatype Upserted = Upserted(table: Table, row: Result<Friendship>)

  function Upsert(t: Table, pair: Pair, requester: UserId, now: Time): Upserted {
    if !Legal(pair, requester) then Upserted(t, Err(Database))
    else if pair !in t then
      var row := Friendship(requester, Pending, now, now);
      Upserted(t[pair := row], Ok(row))
    else if t[pair].status == Pending && t[pair].requester != requester then
      var row := t[pair].(status := Accepted, updatedAt := now);
      Upserted(t[pair := row], Ok(row))
    else Upserted(t, Err(NoRows))
  }

  /** The user an upsert's result names: the one of the pair who did not ask. */
  function NamedBy(pair: Pair, row: Friendship): UserId {
    if row.requester == pair.low then pair.high else pair.low
  }

  /** So an accepting caller gets its own name back, not that of its new friend. */
  lemma AcceptNamesCaller(t: Table, pair: Pair, requester: UserId, now: Time)
    requires LegalTable(t)
    ensures var u := Upsert(t, pair, requester, now);
            u.row.Ok? ==> (NamedBy(pair, u.row.value) == requester <==> u.row.value.status == Accepted)
  {
  }

  // ---- Mutual consent: any interleaving of statements is a log of them ----

  datatype Op = UpsertOp(pair: Pair, user: UserId, at: Time) | DeleteOp(pair: Pair)

  function Execute(t: Table, op: Op): Table {
    match op
    case UpsertOp(pair, user, at) => Upsert(t, pair, user, at).table
    case DeleteOp(pair) => t - {pair}
  }

  function Replay(log: seq<Op>): Table {
    if log == [] then map[] else Execute(Replay(log[..|log| - 1]), log[|log| - 1])
  }

  /** Who has asked for this pair since its row was last deleted, in order. */
  function Asked(log: seq<Op>, pair: Pair): seq<UserId> {
    if log == [] then []
    else
      var before := Asked(log[..|log| - 1], pair);
      match log[|log| - 1]
      case UpsertOp(p, user, _) => if p == pair && Legal(pair, user) then before + [user] else before
      case DeleteOp(p) => if p == pair then [] else before
  }

  ghost predicate Consistent(t: Table, pair: Pair, asked: seq<UserId>) {
    && (pair in t <==> asked != [])
    && (pair in t ==>
          && t[pair].requester == asked[0]
          && (t[pair].status == Accepted <==> exists i :: 0 <= i < |asked| && asked[i] != asked[0]))
    && (forall i :: 0 <= i < |asked| ==> Legal(pair, asked[i]))
  }

  lemma UpsertConsistent(t: Table, pair: Pair, asked: seq<UserId>, user: UserId, at: Time)
    requires Consistent(t, pair, asked) && Legal(pair, user)
    ensures Consistent(Upsert(t, pair, user, at).table, pair, asked + [user])
  {
    var t', asked' := Upsert(t, pair, user, at).table, asked + [user];
    if pair in t {
      assert asked'[0] == asked[0];
      if exists i :: 0 <= i < |asked| && asked[i] != asked[0] {
        var i :| 0 <= i < |asked| && asked[i] != asked[0];
        assert asked'[i] == asked[i];
      }
      assert asked'[|asked|] == user;
    }
  }

  /** After any log of statements the table says exactly who asked: there is a row if
      someone did, its requester is the first who did, and it is accepted exactly when
      a second, different user did too. */
  lemma {:induction false} TableReflectsLog(log: seq<Op>, pair: Pair)
    ensures Consistent(Replay(log), pair, Asked(log, pair))
  {
    if log != [] {
      var before, op := log[..|log| - 1], log[|log| - 1];
      TableReflectsLog(before, pair);
      if op.UpsertOp? && op.pair == pair && Legal(pair, op.user) {
        UpsertConsistent(Replay(before), pair, Asked(before, pair), op.user, op.at);
      }
    }
  }

  /** Mutual consent: under every interleaving, a pair are friends if and only if each
      of the two has asked since the row was last deleted. */
  lemma MutualConsent(log: seq<Op>, pair: Pair)
    ensures pair in Replay(log) && Replay(log)[pair].status == Accepted
            <==> pair.low in Asked(log, pair) && pair.high in Asked(log, pair) && pair.low < pair.high
  {
    TableReflectsLog(log, pair);
    var asked := Asked(log, pair);
    if pair.low in asked && pair.high in asked && pair.low < pair.high {
      var i :| 0 <= i < |asked| && asked[i] == pair.low;
      var j :| 0 <= j < |asked| && asked[j] == pair.high;
      assert asked[i] != asked[0] || asked[j] != asked[0];
    }
    if pair in Replay(log) && Replay(log)[pair].status == Accepted {
      var i :| 0 <= i < |asked| && asked[i] != asked[0];
      assert Legal(pair, asked[0]) && Legal(pair, asked[i]);
    }
  }

  /** Within the life of a row the requester and the creation time never change, and
      the status only goes from pending to accepted. */
  lemma {:induction false} RowLife(log: seq<Op>, more: seq<Op>, pair: Pair)
    requires pair in Replay(log)
    requires forall i :: 0 <= i < |more| ==> more[i] != DeleteOp(pair)
    ensures pair in Replay(log + more)
    ensures Replay(log + more)[pair].requester == Replay(log)[pair].requester
    ensures Replay(log + more)[pair].createdAt == Replay(log)[pair].createdAt
    ensures Replay(log)[pair].status == Accepted ==> Replay(log + more)[pair] == Replay(log)[pair]
  {
    if more == [] {
      assert log + more == log;
    } else {
      var front := more[..|more| - 1];
      RowLife(log, front, pair);
      var all := log + more;
      assert all[..|all| - 1] == log + front && all[|all| - 1] == more[|more| - 1];
    }
  }

  lemma {:induction false} ReplayLegal(log: seq<Op>)
    ensures LegalTable(Replay(log))
  {
    if log != [] {
      ReplayLegal(log[..|log| - 1]);
    }
  }

  // ---- What one user sees of another ----

  datatype View = Stranger | Friend | PendingSent | PendingReceived

  function ViewOf(t: Table, user: UserId, target: UserId): View {
    var pair := Canonical(user, target);
    if pair !in t then Stranger
    else if t[pair].status == Accepted then Friend
    else if t[pair].requester == user then PendingSent
    else PendingReceived
  }

  function Opposite(v: View): View {
    match v
    case PendingSent => PendingReceived
    case PendingReceived => PendingSent
    case _ => v
  }

  /** The two users of a pair see it from opposite sides. */
  lemma ViewsSymmetric(t: Table, a: UserId, b: UserId)
    requires LegalTable(t) && a != b
    ensures ViewOf(t, b, a) == Opposite(ViewOf(t, a, b))
  {
  }

  // ---- A call's check and its statement, with other statements in between ----

  /** A deletion makes the table forget who asked before it; nothing else does. */
  lemma {:induction false} AskedAppend(log: seq<Op>, more: seq<Op>, pair: Pair)
    ensures Asked(log + more, pair)
            == if DeleteOp(pair) in more then Asked(more, pair) else Asked(log, pair) + Asked(more, pair)
  {
    if more == [] {
      assert log + more == log;
    } else {
      var front, last := more[..|more| - 1], more[|more| - 1];
      AskedAppend(log, front, pair);
      var all := log + more;
      assert all[..|all| - 1] == log + front && all[|all| - 1] == last;
      assert more == front + [last];
    }
  }

  /** What one user sees of another says who has asked. */
  lemma ViewOfLog(log: seq<Op>, user: UserId, target: UserId)
    requires user != target
    ensures var view := ViewOf(Replay(log), user, target); var asked := Asked(log, Canonical(user, target));
            && (view == Friend <==> user in asked && target in asked)
            && (view == PendingSent <==> user in asked && target !in asked)
            && (view == PendingReceived <==> user !in asked && target in asked)
            && (view == Stranger <==> user !in asked && target !in asked)
  {
    var pair := Canonical(user, target);
    MutualConsent(log, pair);
    TableReflectsLog(log, pair);
    var asked := Asked(log, pair);
    forall u | u in asked ensures u == user || u == target {
      var i :| 0 <= i < |asked| && asked[i] == u;
      assert Legal(pair, asked[i]);
    }
    if asked != [] { assert asked[0] in asked; }
  }

  /** An accept that found a request and executes its upsert after other statements. It
      answers success if and only if the caller has not asked meanwhile, and the two are
      friends then if and only if the request was not deleted meanwhile, or has been
      made again since. Otherwise the accept has made a request of its own. */
  lemma LateAccept(log: seq<Op>, more: seq<Op>, user: UserId, target: UserId, now: Time)
    requires user != target && ViewOf(Replay(log), user, target) == PendingReceived
    ensures var pair := Canonical(user, target);
            var u := Upsert(Replay(log + more), pair, user, now);
            && (u.row.Ok? <==> user !in Asked(more, pair))
            && (u.row.Ok? ==>
                  ViewOf(u.table, user, target)
                  == if DeleteOp(pair) !in more || target in Asked(more, pair) then Friend else PendingSent)
  {
    var pair, t := Canonical(user, target), Replay(log + more);
    ViewOfLog(log, user, target);
    ViewOfLog(log + more, user, target);
    AskedAppend(log, more, pair);
    if pair in t { TableReflectsLog(log + more, pair); }
  }

  /** A cancel that found the caller's own request, or a decline that found the other
      user's, and executes its deletion after other statements. It ends a friendship if
      and only if the other side of that request has asked meanwhile, or, if the request
      was deleted meanwhile, both sides have asked since. */
  lemma LateDeletion(log: seq<Op>, more: seq<Op>, user: UserId, target: UserId)
    requires user != target
    requires ViewOf(Replay(log), user, target) == PendingSent || ViewOf(Replay(log), user, target) == PendingReceived
    ensures var pair := Canonical(user, target);
            var answerer := if ViewOf(Replay(log), user, target) == PendingSent then target else user;
            && (ViewOf(Replay(log + more), user, target) == Friend
                <==> if DeleteOp(pair) in more then user in Asked(more, pair) && target in Asked(more, pair)
                     else answerer in Asked(more, pair))
            && ViewOf(Execute(Replay(log + more), DeleteOp(pair)), user, target) == Stranger
  {
    ViewOfLog(log, user, target);
    ViewOfLog(log + more, user, target);
    AskedAppend(log, more, Canonical(user, target));
  }

  lemma ReplayOne(op: Op)
    ensures Replay([op]) == Execute(map[], op)
  {
    assert [op][..0] == [];
    assert Replay([op][..0]) == map[];
  }

  lemma ReplayTwo(first: Op, second: Op)
    ensures Replay([first] + [second]) == Execute(Execute(map[], first), second)
  {
    ReplayOne(first);
    assert ([first] + [second])[..1] == [first];
  }

  /** User 1 asks user 2 and takes it back while user 2 accepts: the accept answers
      success, and all there is is a request of user 2. */
  lemma AcceptWithoutFriendship()
    ensures var ask := UpsertOp(Pair(1, 2), 1, 0); var withdraw := DeleteOp(Pair(1, 2));
            var u := Upsert(Replay([ask] + [withdraw]), Pair(1, 2), 2, 0);
            && ViewOf(Replay([ask]), 2, 1) == PendingReceived
            && u.row.Ok? && ViewOf(u.table, 2, 1) == PendingSent
  {
    ReplayOne(UpsertOp(Pair(1, 2), 1, 0));
    ReplayTwo(UpsertOp(Pair(1, 2), 1, 0), DeleteOp(Pair(1, 2)));
  }

  /** User 1 asks user 2, who accepts while a cancel of user 1, or a decline of user 2
      itself, has found the request pending: its deletion ends the friendship. */
  lemma CancelEndsFriendship()
    ensures var ask := UpsertOp(Pair(1, 2), 1, 0); var accept := UpsertOp(Pair(1, 2), 2, 0);
            var t := Replay([ask] + [accept]);
            && ViewOf(Replay([ask]), 1, 2) == PendingSent && ViewOf(Replay([ask]), 2, 1) == PendingReceived
            && ViewOf(t, 1, 2) == Friend
            && ViewOf(Execute(t, DeleteOp(Pair(1, 2))), 1, 2) == Stranger
  {
    ReplayOne(UpsertOp(Pair(1, 2), 1, 0));
    ReplayTwo(UpsertOp(Pair(1, 2), 1, 0), UpsertOp(Pair(1, 2), 2, 0));
  }

  // ---- The lists: UNION ALL of the half where the user is low and the half where it is high ----

  /** An order in which the rows of the table may be scanned. */
  ghost predicate IsScan(t: Table, scan: seq<Pair>) {
    NoDuplicates(scan) && forall p :: p in scan <==> p in t
  }

  function LowHalf(t: Table, scan: seq<Pair>, user: UserId, status: Status): seq<UserId> {
    if scan == [] then []
    else
      var p := scan[0];
      (if p in t && p.low == user && t[p].status == status then [p.high] else []) + LowHalf(t, scan[1..], user, status)
  }

  function HighHalf(t: Table, scan: seq<Pair>, user: UserId, status: Status): seq<UserId> {
    if scan == [] then []
    else
      var p := scan[0];
      (if p in t && p.high == user && t[p].status == status then [p.low] else []) + HighHalf(t, scan[1..], user, status)
  }

  function UnionAll(t: Table, scan: seq<Pair>, user: UserId, status: Status): seq<UserId> {
    LowHalf(t, scan, user, status) + HighHalf(t, scan, user, status)
  }

  /** The users with whom `user` has a row of this status, by the rows themselves. */
  function Partners(t: Table, user: UserId, status: Status): set<UserId> {
    (set p | p in t && p.low == user && t[p].status == status :: p.high)
    + (set p | p in t && p.high == user && t[p].status == status :: p.low)
  }

  lemma {:induction false} LowHalfElements(t: Table, scan: seq<Pair>, user: UserId, status: Status, v: UserId)
    ensures v in LowHalf(t, scan, user, status)
            <==> Pair(user, v) in scan && Pair(user, v) in t && t[Pair(user, v)].status == status
  {
    if scan != [] {
      LowHalfElements(t, scan[1..], user, status, v);
      assert scan == [scan[0]] + scan[1..];
    }
  }

  lemma {:induction false} HighHalfElements(t: Table, scan: seq<Pair>, user: UserId, status: Status, v: UserId)
    ensures v in HighHalf(t, scan, user, status)
            <==> Pair(v, user) in scan && Pair(v, user) in t && t[Pair(v, user)].status == status
  {
    if scan != [] {
      HighHalfElements(t, scan[1..], user, status, v);
      assert scan == [scan[0]] + scan[1..];
    }
  }

  lemma PrependDistinct<T>(x: T, q: seq<T>)
    requires NoDuplicates(q) && x !in q
    ensures NoDuplicates([x] + q)
  {
  }

  lemma {:induction false} LowHalfDistinct(t: Table, scan: seq<Pair>, user: UserId, status: Status)
    requires NoDuplicates(scan)
    ensures NoDuplicates(LowHalf(t, scan, user, status))
  {
    if scan != [] {
      var p, rest := scan[0], LowHalf(t, scan[1..], user, status);
      LowHalfDistinct(t, scan[1..], user, status);
      if p in t && p.low == user && t[p].status == status {
        LowHalfElements(t, scan[1..], user, status, p.high);
        assert p !in scan[1..];
        PrependDistinct(p.high, rest);
      } else {
        assert LowHalf(t, scan, user, status) == rest;
      }
    }
  }

  lemma {:induction false} HighHalfDistinct(t: Table, scan: seq<Pair>, user: UserId, status: Status)
    requires NoDuplicates(scan)
    ensures NoDuplicates(HighHalf(t, scan, user, status))
  {
    if scan != [] {
      var p, rest := scan[0], HighHalf(t, scan[1..], user, status);
      HighHalfDistinct(t, scan[1..], user, status);
      if p in t && p.high == user && t[p].status == status {
        HighHalfElements(t, scan[1..], user, status, p.low);
        assert p !in scan[1..];
        PrependDistinct(p.low, rest);
      } else {
        assert HighHalf(t, scan, user, status) == rest;
      }
    }
  }

  lemma ConcatDistinct<T>(a: seq<T>, b: seq<T>)
    requires NoDuplicates(a) && NoDuplicates(b)
    requires forall x :: x in a ==> x !in b
    ensures NoDuplicates(a + b)
  {
    var q := a + b;
    forall i, j | 0 <= i < j < |q| ensures q[i] != q[j] {
      if i < |a| <= j {
        assert a[i] in a && b[j - |a|] in b;
      }
    }
  }

  /** The status a row must have for one user to see the other so. */
  predicate Shows(v: View, status: Status) {
    if status == Accepted then v == Friend else v == PendingSent || v == PendingReceived
  }

  lemma PartnersAreViewed(t: Table, user: UserId, status: Status, v: UserId)
    requires LegalTable(t)
    ensures v in Partners(t, user, status) <==> v != user && Shows(ViewOf(t, user, v), status)
  {
  }

  /** For every scan order the union lists each user exactly once, and lists exactly
      those whom the single-user lookup classifies accordingly. */
  lemma UnionAllExact(t: Table, scan: seq<Pair>, user: UserId, status: Status)
    requires LegalTable(t) && IsScan(t, scan)
    ensures NoDuplicates(UnionAll(t, scan, user, status))
    ensures forall v :: v in UnionAll(t, scan, user, status) <==> v in Partners(t, user, status)
    ensures forall v :: v in UnionAll(t, scan, user, status) <==> v != user && Shows(ViewOf(t, user, v), status)
  {
    var low, high := LowHalf(t, scan, user, status), HighHalf(t, scan, user, status);
    LowHalfDistinct(t, scan, user, status);
    HighHalfDistinct(t, scan, user, status);
    forall v ensures v in low <==> Pair(user, v) in t && t[Pair(user, v)].status == status {
      LowHalfElements(t, scan, user, status, v);
    }
    forall v ensures v in high <==> Pair(v, user) in t && t[Pair(v, user)].status == status {
      HighHalfElements(t, scan, user, status, v);
    }
    forall v | v in low ensures v !in high {
      assert Legal(Pair(user, v), t[Pair(user, v)].requester);
      assert Pair(v, user) in t ==> Legal(Pair(v, user), t[Pair(v, user)].requester);
    }
    ConcatDistinct(low, high);
    forall v ensures v in low + high <==> v in Partners(t, user, status) {
      UnionElement(t, user, status, v, v in low, v in high);
    }
    forall v ensures v in Partners(t, user, status) <==> v != user && Shows(ViewOf(t, user, v), status) {
      PartnersAreViewed(t, user, status, v);
    }
  }

  lemma UnionElement(t: Table, user: UserId, status: Status, v: UserId, low: bool, high: bool)
    requires low <==> Pair(user, v) in t && t[Pair(user, v)].status == status
    requires high <==> Pair(v, user) in t && t[Pair(v, user)].status == status
    ensures low || high <==> v in Partners(t, user, status)
  {
  }

  /** Friends and requests never overlap. */
  lemma ListsDisjoint(t: Table, user: UserId, v: UserId)
    requires LegalTable(t)
    ensures !(v in Partners(t, user, Accepted) && v in Partners(t, user, Pending))
  {
  }
}
