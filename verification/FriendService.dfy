/** The friend repository and service: requests, answers, and the paged lists. */
module FriendService {
  import opened Common
  import opened Paging
  import opened FriendTable

  const DEFAULT_LIMIT := 20

  function LimitOf(limit: int): (n: nat)
    ensures n > 0
    ensures n == limit || (limit <= 0 && n == DEFAULT_LIMIT)
  {
    if limit <= 0 then DEFAULT_LIMIT else limit
  }

  /** What an upsert returns: its row, joined with the user it names. */
  datatype Record = Record(named: UserId, row: Friendship)

  /** A row of a list, joined with the user it is about. */
  datatype Listed = Listed(user: UserId, createdAt: Time, sent: bool)

  /** The users of a list that a search text leaves. */
  function Matching(users: seq<UserId>, matches: set<UserId>): seq<UserId> {
    if users == [] then []
    else (if users[0] in matches then [users[0]] else []) + Matching(users[1..], matches)
  }

  lemma {:induction false} MatchingElements(users: seq<UserId>, matches: set<UserId>, u: UserId)
    ensures u in Matching(users, matches) <==> u in users && u in matches
  {
    if users != [] {
      MatchingElements(users[1..], matches, u);
      assert users == [users[0]] + users[1..];
    }
  }

  lemma {:induction false} MatchingDistinct(users: seq<UserId>, matches: set<UserId>)
    requires NoDuplicates(users)
    ensures NoDuplicates(Matching(users, matches))
  {
    if users != [] {
      var rest := Matching(users[1..], matches);
      MatchingDistinct(users[1..], matches);
      MatchingElements(users[1..], matches, users[0]);
      assert users[0] !in users[1..];
      if users[0] in matches {
        PrependDistinct(users[0], rest);
      } else {
        assert Matching(users, matches) == rest;
      }
    }
  }

  class FriendRepository {
    var rows: Table
    var users: set<UserId>

    /** The constraints of the table, the foreign keys among them. */
    ghost predicate Valid()
      reads this
    {
      LegalTable(rows) && forall p :: p in rows ==> {p.low, p.high} <= users
    }

    constructor (users: set<UserId>)
      ensures Valid() && rows == map[] && this.users == users
    {
      rows := map[];
      this.users := users;
    }

    method FindByPair(pair: Pair) returns (row: Option<Friendship>)
      ensures row == if pair in rows then Some(rows[pair]) else None
    {
      if pair in rows {
        row := Some(rows[pair]);
      } else {
        row := None;
      }
    }

    method UpsertFriend(pair: Pair, requester: UserId, now: Time) returns (r: Result<Record>)
      requires Valid()
      modifies this`rows
      ensures Valid()
      ensures r.Ok? <==> && Legal(pair, requester) && {pair.low, pair.high} <= users
                         && (pair in old(rows) ==>
                               old(rows)[pair].status == Pending && old(rows)[pair].requester != requester)
      ensures r.Ok? ==>
                && rows == old(rows)[pair := r.value.row]
                && r.value.row == (if pair in old(rows)
                                   then Friendship(old(rows)[pair].requester, Accepted, old(rows)[pair].createdAt, now)
                                   else Friendship(requester, Pending, now, now))
                && {r.value.named, r.value.row.requester} == {pair.low, pair.high}
      ensures r.Err? ==> rows == old(rows)
      ensures !({pair.low, pair.high} <= users) ==> r == Err(Database) && rows == old(rows)
      ensures {pair.low, pair.high} <= users ==>
                && rows == Upsert(old(rows), pair, requester, now).table
                && r == match Upsert(old(rows), pair, requester, now).row
                        case Ok(row) => Ok(Record(NamedBy(pair, row), row))
                        case Err(e) => Err(e)
    {
      if !Legal(pair, requester) || !({pair.low, pair.high} <= users) {
        return Err(Database);
      }
      if pair !in rows {
        rows := rows[pair := Friendship(requester, Pending, now, now)];
      } else if rows[pair].status == Pending && rows[pair].requester != requester {
        rows := rows[pair := rows[pair].(status := Accepted, updatedAt := now)];
      } else {
        return Err(NoRows);
      }
      var named := if rows[pair].requester == pair.low then pair.high else pair.low;
      r := Ok(Record(named, rows[pair]));
    }

    method DeleteByPair(pair: Pair)
      requires Valid()
      modifies this`rows
      ensures Valid() && rows == old(rows) - {pair}
    {
      rows := rows - {pair};
    }

    /** Some order in which to scan the table. */
    method Scan() returns (scan: seq<Pair>)
      ensures IsScan(rows, scan)
    {
      var rest := rows.Keys;
      scan := [];
      while rest != {}
        invariant rest <= rows.Keys
        invariant NoDuplicates(scan)
        invariant forall p :: p in scan <==> p in rows && p !in rest
        decreases |rest|
      {
        var p :| p in rest;
        scan := scan + [p];
        rest := rest - {p};
      }
    }

    /** The union of the two half-tables, those that match, past the cursor, in order of
        user id. */
    method List(user: UserId, status: Status, matches: set<UserId>, cursor: Option<UserId>, limit: nat)
      returns (found: seq<UserId>)
      requires Valid()
      ensures found == Query(Ascending, Partners(rows, user, status) * matches, cursor, limit)
    {
      var scan := Scan();
      var all := UnionAll(rows, scan, user, status);
      UnionAllExact(rows, scan, user, status);
      MatchingDistinct(all, matches);
      forall u ensures u in Matching(all, matches) <==> u in Partners(rows, user, status) * matches {
        MatchingElements(all, matches, u);
      }
      QueryRowsDistinct(Ascending, Matching(all, matches), Partners(rows, user, status) * matches, cursor, limit);
      found := QueryRows(Ascending, Matching(all, matches), cursor, limit);
    }
  }

  // ---- What each call does, as a function of the table ----

  datatype Call =
    | Add(user: UserId, target: UserId)
    | AcceptRequest(user: UserId, target: UserId)
    | Cancel(user: UserId, target: UserId)
    | Decline(user: UserId, target: UserId)
    | Unfriend(user: UserId, target: UserId)

  function ConflictIfNoRows(r: Result<Record>): Result<Record> {
    if r == Err(NoRows) then Err(Conflict) else r
  }

  /** The answer of a call that may not go ahead, or None. */
  function Refusal(t: Table, users: set<UserId>, blocks: set<Block>, c: Call): Option<Error> {
    if c.user == c.target then Some(BadRequest)
    else
      var view := ViewOf(t, c.user, c.target);
      match c
      case Add(user, target) =>
        if target !in users then Some(NotFound)
        else if BlockedEitherWay(blocks, user, target) then Some(Forbidden)
        else if view == Friend || view == PendingSent then Some(Conflict)
        else None
      case AcceptRequest(_, _) =>
        if view == Stranger then Some(NotFound)
        else if view == Friend then Some(Conflict)
        else if view == PendingSent then Some(Forbidden)
        else None
      case Cancel(_, _) =>
        if view == Stranger then Some(NotFound)
        else if view == Friend then Some(Conflict)
        else if view == PendingReceived then Some(Forbidden)
        else None
      case Decline(_, _) =>
        if view == Stranger || view == Friend then Some(NotFound)
        else if view == PendingSent then Some(Forbidden)
        else None
      case Unfriend(_, _) => if view != Friend then Some(NotFound) else None
  }

  /** A call that goes ahead executes one statement. */
  function StatementOf(c: Call, now: Time): Op {
    if c.Add? || c.AcceptRequest? then UpsertOp(Canonical(c.user, c.target), c.user, now)
    else DeleteOp(Canonical(c.user, c.target))
  }

  function TableAfter(t: Table, users: set<UserId>, blocks: set<Block>, c: Call, now: Time): Table {
    if Refusal(t, users, blocks, c).Some? then t else Execute(t, StatementOf(c, now))
  }

  /** How a call that is in place changes what the caller sees of the other user. */
  function Expected(v: View, c: Call): Option<View> {
    match c
    case Add(_, _) =>
      (match v
       case Stranger => Some(PendingSent)
       case PendingReceived => Some(Friend)
       case _ => None)
    case AcceptRequest(_, _) => if v == PendingReceived then Some(Friend) else None
    case Cancel(_, _) => if v == PendingSent then Some(Stranger) else None
    case Decline(_, _) => if v == PendingReceived then Some(Stranger) else None
    case Unfriend(_, _) => if v == Friend then Some(Stranger) else None
  }

  /** A call goes ahead if and only if it is in place for what the caller sees, and for
      a request also if the other user exists and there is no block. It then changes
      what the two see of each other as expected, and nothing for anyone else. */
  lemma CallsFollowViews(t: Table, users: set<UserId>, blocks: set<Block>, c: Call, now: Time)
    requires LegalTable(t)
    ensures Refusal(t, users, blocks, c).None?
            <==> && c.user != c.target && Expected(ViewOf(t, c.user, c.target), c).Some?
                 && (c.Add? ==> c.target in users && !BlockedEitherWay(blocks, c.user, c.target))
    ensures var after := TableAfter(t, users, blocks, c, now);
            && LegalTable(after)
            && ViewOf(after, c.user, c.target)
               == (if Refusal(t, users, blocks, c).None? then Expected(ViewOf(t, c.user, c.target), c).value
                   else ViewOf(t, c.user, c.target))
            && forall x, y :: Canonical(x, y) != Canonical(c.user, c.target) ==> ViewOf(after, x, y) == ViewOf(t, x, y)
  {
    var pair := Canonical(c.user, c.target);
    if pair in t { assert Legal(pair, t[pair].requester); }
  }

  /** The row of a call that goes ahead: a request is the caller's, made now; an
      acceptance leaves it the other user's, from when it was made; the others leave no
      row. Rows of other pairs stay, and a call that is refused leaves all as it was. */
  lemma CallsWriteRow(t: Table, users: set<UserId>, blocks: set<Block>, c: Call, now: Time)
    requires LegalTable(t)
    ensures var pair := Canonical(c.user, c.target); var after := TableAfter(t, users, blocks, c, now);
            if Refusal(t, users, blocks, c).Some? then after == t
            else if c.Cancel? || c.Decline? || c.Unfriend? then pair in t && after == t - {pair}
            else if pair in t then
              after == t[pair := Friendship(c.target, Accepted, t[pair].createdAt, now)]
            else
              c.Add? && after == t[pair := Friendship(c.user, Pending, now, now)]
  {
    var pair := Canonical(c.user, c.target);
    if pair in t { assert Legal(pair, t[pair].requester); }
  }

  /** Why a call is refused: of oneself; for a request, of an unknown user, across a
      block, or made already; for the others, what the caller sees is not what the call
      is for. */
  lemma RefusalsSaid(t: Table, users: set<UserId>, blocks: set<Block>, c: Call)
    ensures var refusal := Refusal(t, users, blocks, c); var view := ViewOf(t, c.user, c.target);
            && (refusal == Some(BadRequest) <==> c.user == c.target)
            && (refusal == Some(Conflict)
                <==> && c.user != c.target
                     && ((c.Add? && c.target in users && Block(c.user, c.target) !in blocks
                          && Block(c.target, c.user) !in blocks && (view == Friend || view == PendingSent))
                         || ((c.AcceptRequest? || c.Cancel?) && view == Friend)))
            && (refusal == Some(Forbidden)
                <==> && c.user != c.target
                     && ((c.Add? && c.target in users
                          && (Block(c.user, c.target) in blocks || Block(c.target, c.user) in blocks))
                         || ((c.AcceptRequest? || c.Decline?) && view == PendingSent)
                         || (c.Cancel? && view == PendingReceived)))
            && (refusal == Some(NotFound)
                <==> && c.user != c.target
                     && ((c.Add? && c.target !in users) || (!c.Add? && view == Stranger)
                         || (c.Decline? && view == Friend) || (c.Unfriend? && view != Friend)))
  {
  }

  /** Whom an upsert's record names. */
  lemma UpsertNames(t: Table, user: UserId, target: UserId, now: Time)
    requires LegalTable(t) && user != target
    ensures var pair := Canonical(user, target); var u := Upsert(t, pair, user, now);
            u.row.Ok? ==> NamedBy(pair, u.row.value) == if ViewOf(t, user, target) == Stranger then target else user
  {
    var pair := Canonical(user, target);
    if pair in t { assert Legal(pair, t[pair].requester); }
  }

  /** Every partner is a known user. */
  lemma PartnersAreKnown(t: Table, users: set<UserId>, user: UserId, status: Status)
    requires forall p :: p in t ==> {p.low, p.high} <= users
    ensures Partners(t, user, status) * users == Partners(t, user, status)
  {
    forall v | v in Partners(t, user, status) ensures v in users {
      var p :| p in t && (p.low == v || p.high == v);
      assert v in {p.low, p.high};
    }
  }

  /** Each entry has the creation time and the direction of the row of its pair. */
  ghost predicate Lists(t: Table, user: UserId, users: seq<UserId>, listed: seq<Listed>) {
    && |listed| == |users|
    && forall i :: 0 <= i < |users| ==>
                     && Canonical(user, users[i]) in t
                     && var row := t[Canonical(user, users[i])];
                        listed[i] == Listed(users[i], row.createdAt, row.requester == user)
  }

  class FriendService {
    const repository: FriendRepository

    constructor (repository: FriendRepository)
      ensures this.repository == repository
    {
      this.repository := repository;
    }

    /** Asks for a friendship or, when the other user has asked, accepts it: the row
        that results tells which. A request names the user asked; an acceptance names
        the caller. */
    method AddFriend(user: UserId, target: UserId, blocks: set<Block>, now: Time) returns (r: Result<Record>)
      requires repository.Valid() && user in repository.users
      modifies repository`rows
      ensures repository.Valid()
      ensures repository.rows == TableAfter(old(repository.rows), repository.users, blocks, Add(user, target), now)
      ensures var refusal := Refusal(old(repository.rows), repository.users, blocks, Add(user, target));
              var asks := old(ViewOf(repository.rows, user, target)) == Stranger;
              && (refusal.Some? ==> r == Err(refusal.value))
              && (refusal.None? ==>
                    && r == Ok(Record(if asks then target else user, repository.rows[Canonical(user, target)]))
                    && ViewOf(repository.rows, user, target) == if asks then PendingSent else Friend)
    {
      if user == target {
        return Err(BadRequest);
      }
      if target !in repository.users {
        return Err(NotFound);
      }
      if BlockedEitherWay(blocks, user, target) {
        return Err(Forbidden);
      }
      var pair := Canonical(user, target);
      assert {pair.low, pair.high} == {user, target};
      UpsertNames(repository.rows, user, target, now);
      r := repository.UpsertFriend(pair, user, now);
      r := ConflictIfNoRows(r);
    }

    method AcceptFriendRequest(user: UserId, target: UserId, now: Time) returns (r: Result<Record>)
      requires repository.Valid()
      modifies repository`rows
      ensures repository.Valid()
      ensures repository.rows == TableAfter(old(repository.rows), {}, {}, AcceptRequest(user, target), now)
      ensures var refusal := Refusal(old(repository.rows), {}, {}, AcceptRequest(user, target));
              && (refusal.Some? ==> r == Err(refusal.value))
              && (refusal.None? ==>
                    && r == Ok(Record(user, repository.rows[Canonical(user, target)]))
                    && ViewOf(repository.rows, user, target) == Friend)
    {
      if user == target {
        return Err(BadRequest);
      }
      var pair := Canonical(user, target);
      var row := repository.FindByPair(pair);
      if row.None? {
        return Err(NotFound);
      }
      if row.value.status == Accepted {
        return Err(Conflict);
      }
      if row.value.requester == user {
        return Err(Forbidden);
      }
      UpsertNames(repository.rows, user, target, now);
      r := repository.UpsertFriend(pair, user, now);
      r := ConflictIfNoRows(r);
    }

    method CancelFriendRequest(user: UserId, target: UserId) returns (r: Result<()>)
      requires repository.Valid()
      modifies repository`rows
      ensures repository.Valid()
      ensures repository.rows == TableAfter(old(repository.rows), {}, {}, Cancel(user, target), 0)
      ensures var refusal := Refusal(old(repository.rows), {}, {}, Cancel(user, target));
              r == if refusal.Some? then Err(refusal.value) else Ok(())
    {
      if user == target {
        return Err(BadRequest);
      }
      var pair := Canonical(user, target);
      var row := repository.FindByPair(pair);
      if row.None? {
        return Err(NotFound);
      }
      if row.value.status == Accepted {
        return Err(Conflict);
      }
      if row.value.requester != user {
        return Err(Forbidden);
      }
      repository.DeleteByPair(pair);
      r := Ok(());
    }

    method DeclineFriendRequest(user: UserId, target: UserId) returns (r: Result<()>)
      requires repository.Valid()
      modifies repository`rows
      ensures repository.Valid()
      ensures repository.rows == TableAfter(old(repository.rows), {}, {}, Decline(user, target), 0)
      ensures var refusal := Refusal(old(repository.rows), {}, {}, Decline(user, target));
              r == if refusal.Some? then Err(refusal.value) else Ok(())
    {
      if user == target {
        return Err(BadRequest);
      }
      var pair := Canonical(user, target);
      var row := repository.FindByPair(pair);
      if row.None? || row.value.status != Pending {
        return Err(NotFound);
      }
      if row.value.requester == user {
        return Err(Forbidden);
      }
      repository.DeleteByPair(pair);
      r := Ok(());
    }

    method Unfriend(user: UserId, target: UserId) returns (r: Result<()>)
      requires repository.Valid()
      modifies repository`rows
      ensures repository.Valid()
      ensures repository.rows == TableAfter(old(repository.rows), {}, {}, Call.Unfriend(user, target), 0)
      ensures var refusal := Refusal(old(repository.rows), {}, {}, Call.Unfriend(user, target));
              r == if refusal.Some? then Err(refusal.value) else Ok(())
    {
      if user == target {
        return Err(BadRequest);
      }
      var pair := Canonical(user, target);
      var row := repository.FindByPair(pair);
      if row.None? || row.value.status != Accepted {
        return Err(NotFound);
      }
      repository.DeleteByPair(pair);
      r := Ok(());
    }

    method FindOne(user: UserId, target: UserId) returns (view: View)
      ensures view == ViewOf(repository.rows, user, target)
    {
      var row := repository.FindByPair(Canonical(user, target));
      if row.None? {
        view := Stranger;
      } else if row.value.status == Accepted {
        view := Friend;
      } else if row.value.requester == user {
        view := PendingSent;
      } else {
        view := PendingReceived;
      }
    }

    /** A page of the friends that match a search text, each with its row's creation
        time. */
    method FindAll(user: UserId, matches: set<UserId>, cursor: Option<UserId>, limit: int)
      returns (page: Page, listed: seq<Listed>)
      requires repository.Valid()
      ensures page == PageOf(Ascending, Partners(repository.rows, user, Accepted) * matches, cursor, LimitOf(limit))
      ensures SmallestFirst(page, Partners(repository.rows, user, Accepted) * matches, cursor, LimitOf(limit))
      ensures Lists(repository.rows, user, page.ids, listed)
    {
      page := FetchPage(user, Accepted, matches, cursor, LimitOf(limit));
      PageInside(user, Accepted, matches, cursor, LimitOf(limit));
      listed := Join(user, Accepted, page.ids);
    }

    /** Fetches one more than the page keeps, to know whether there are more. */
    method FetchPage(user: UserId, status: Status, matches: set<UserId>, cursor: Option<UserId>, n: nat)
      returns (page: Page)
      requires repository.Valid() && n > 0
      ensures page == PageOf(Ascending, Partners(repository.rows, user, status) * matches, cursor, n)
      ensures SmallestFirst(page, Partners(repository.rows, user, status) * matches, cursor, n)
    {
      AscendingIsSmallest(Partners(repository.rows, user, status) * matches, cursor, n);
      var users := repository.List(user, status, matches, cursor, n + 1);
      var next := None;
      if |users| > n {
        users := users[..n];
        next := Some(users[|users| - 1]);
      }
      page := Page(users, next);
    }

    /** A page of pending requests, each with its direction: every one, because every
        user in the table is a known user. */
    method FindAllRequests(user: UserId, cursor: Option<UserId>, limit: int) returns (page: Page, listed: seq<Listed>)
      requires repository.Valid()
      ensures page == PageOf(Ascending, Partners(repository.rows, user, Pending), cursor, LimitOf(limit))
      ensures SmallestFirst(page, Partners(repository.rows, user, Pending), cursor, LimitOf(limit))
      ensures Lists(repository.rows, user, page.ids, listed)
      ensures forall i :: 0 <= i < |listed| ==>
                            ViewOf(repository.rows, user, listed[i].user)
                            == if listed[i].sent then PendingSent else PendingReceived
    {
      PartnersAreKnown(repository.rows, repository.users, user, Pending);
      page := FetchPage(user, Pending, repository.users, cursor, LimitOf(limit));
      PageInside(user, Pending, repository.users, cursor, LimitOf(limit));
      listed := Join(user, Pending, page.ids);
      forall i | 0 <= i < |listed|
        ensures ViewOf(repository.rows, user, listed[i].user) == if listed[i].sent then PendingSent else PendingReceived
      {
        PartnersAreViewed(repository.rows, user, Pending, listed[i].user);
      }
    }

    lemma PageInside(user: UserId, status: Status, matches: set<UserId>, cursor: Option<UserId>, n: nat)
      requires n > 0
      ensures var ids := PageOf(Ascending, Partners(repository.rows, user, status) * matches, cursor, n).ids;
              forall i :: 0 <= i < |ids| ==> ids[i] in Partners(repository.rows, user, status)
    {
      var table := Partners(repository.rows, user, status) * matches;
      var ids := PageOf(Ascending, table, cursor, n).ids;
      PageOrdered(Ascending, table, cursor, n);
      forall i | 0 <= i < |ids| ensures ids[i] in Partners(repository.rows, user, status) {
        assert ids[i] in ids;
        assert ids[i] in table;
      }
    }

    method Join(user: UserId, status: Status, users: seq<UserId>) returns (listed: seq<Listed>)
      requires repository.Valid()
      requires forall i :: 0 <= i < |users| ==> users[i] in Partners(repository.rows, user, status)
      ensures Lists(repository.rows, user, users, listed)
    {
      listed := [];
      for i := 0 to |users|
        invariant Lists(repository.rows, user, users[..i], listed)
      {
        PartnersAreViewed(repository.rows, user, status, users[i]);
        var row := repository.rows[Canonical(user, users[i])];
        listed := listed + [Listed(users[i], row.createdAt, row.requester == user)];
        assert users[..i + 1] == users[..i] + [users[i]];
      }
      assert users[..|users|] == users;
    }
  }

  // ---- Walks ----

  lemma {:induction false} FixedIsStill(dir: Direction, table: set<int>, n: nat, cursor: Option<int>, limit: nat)
    requires limit > 0
    ensures StillBehind(dir, seq(n, _ => table), cursor, limit)
    decreases n
  {
    if n > 1 {
      assert seq(n, _ => table)[1..] == seq(n - 1, _ => table);
      FixedIsStill(dir, table, n - 1, PageOf(dir, table, cursor, limit).next, limit);
    }
  }

  /** A client that follows the cursors over a fixed table collects exactly the users
      the single-user lookup calls friends, in order and once each, in as many requests
      as they need. */
  lemma FriendWalkExact(t: Table, user: UserId, limit: nat, requests: nat)
    requires LegalTable(t) && limit > 0
    requires requests >= PagesNeeded(|Partners(t, user, Accepted)|, limit)
    ensures var friends := Partners(t, user, Accepted);
            var w := Follow(Ascending, seq(requests, _ => friends), None, limit);
            && w == Walk(Listing(Ascending, friends), PagesNeeded(|friends|, limit), true)
            && NoDuplicates(w.ids)
            && forall v :: v in w.ids <==> v != user && ViewOf(t, user, v) == Friend
  {
    var friends := Partners(t, user, Accepted);
    FixedWalk(friends, limit, requests);
    ListingOrdered(Ascending, friends);
    OrderedHasNoDuplicates(Ascending, Listing(Ascending, friends));
    ListingElements(Ascending, friends);
    forall v ensures v in friends <==> v != user && ViewOf(t, user, v) == Friend {
      PartnersAreViewed(t, user, Accepted, v);
    }
  }

  lemma FixedWalk(table: set<int>, limit: nat, requests: nat)
    requires limit > 0 && requests >= PagesNeeded(|table|, limit)
    ensures Follow(Ascending, seq(requests, _ => table), None, limit)
            == Walk(Listing(Ascending, table), PagesNeeded(|table|, limit), true)
  {
    var tables := seq(requests, _ => table);
    FixedIsStill(Ascending, table, requests, None, limit);
    assert Remaining(Ascending, tables[0], None) == table;
    WalkTerminates(Ascending, tables, None, limit, |table|);
  }

  function ExecuteAll(t: Table, log: seq<Op>): Table
    decreases |log|
  {
    if log == [] then t else ExecuteAll(Execute(t, log[0]), log[1..])
  }

  lemma {:induction false} ExecuteAllLegal(t: Table, log: seq<Op>)
    requires LegalTable(t)
    ensures LegalTable(ExecuteAll(t, log))
    decreases |log|
  {
    if log != [] {
      ExecuteAllLegal(Execute(t, log[0]), log[1..]);
    }
  }

  /** The table at each of a client's requests; `batches[i]` are the statements between
      the i-th and the next. */
  function TablesAt(t: Table, batches: seq<seq<Op>>): (tables: seq<Table>)
    ensures |tables| == |batches| + 1
    decreases |batches|
  {
    [t] + if batches == [] then [] else TablesAt(ExecuteAll(t, batches[0]), batches[1..])
  }

  lemma {:induction false} TablesAtLegal(t: Table, batches: seq<seq<Op>>, i: nat)
    requires LegalTable(t) && i <= |batches|
    ensures LegalTable(TablesAt(t, batches)[i])
    decreases |batches|
  {
    if i > 0 {
      ExecuteAllLegal(t, batches[0]);
      TablesAtLegal(ExecuteAll(t, batches[0]), batches[1..], i - 1);
    }
  }

  function FriendsAt(t: Table, batches: seq<seq<Op>>, user: UserId): (friends: seq<set<UserId>>)
    ensures |friends| == |batches| + 1
  {
    seq(|batches| + 1, i requires 0 <= i <= |batches| => Partners(TablesAt(t, batches)[i], user, Accepted))
  }

  /** While requests are made, accepted and undone between the pages: the client sees
      users in order and none twice, each of them a friend at some request; when it
      reaches the end it has seen everyone who was a friend at all of its requests; and
      it reaches the end within the requests that everyone would need. */
  lemma FriendWalkWhileChanging(t: Table, batches: seq<seq<Op>>, user: UserId, limit: nat,
                                everyone: set<UserId>, v: UserId)
    requires LegalTable(t) && limit > 0
    requires forall i :: 0 <= i <= |batches| ==> FriendsAt(t, batches, user)[i] <= everyone
    ensures var w := Follow(Ascending, FriendsAt(t, batches, user), None, limit);
            && (forall i, j :: 0 <= i < j < |w.ids| ==> w.ids[i] < w.ids[j]) && NoDuplicates(w.ids)
            && (v in w.ids ==> exists i :: 0 <= i <= |batches| && ViewOf(TablesAt(t, batches)[i], user, v) == Friend)
            && (&& w.done && v != user
                && (forall i :: 0 <= i <= |batches| ==> ViewOf(TablesAt(t, batches)[i], user, v) == Friend)
                ==> v in w.ids)
            && (|batches| + 1 >= PagesNeeded(|everyone|, limit) ==> w.done && w.pages <= PagesNeeded(|everyone|, limit))
  {
    var tables := FriendsAt(t, batches, user);
    var w := Follow(Ascending, tables, None, limit);
    forall i | 0 <= i <= |batches|
      ensures v in tables[i] <==> v != user && ViewOf(TablesAt(t, batches)[i], user, v) == Friend
    {
      TablesAtLegal(t, batches, i);
      PartnersAreViewed(TablesAt(t, batches)[i], user, Accepted, v);
    }
    WalkOrdered(Ascending, tables, None, limit);
    OrderedHasNoDuplicates(Ascending, w.ids);
    assert forall i, j :: 0 <= i < j < |w.ids| ==> Before(Ascending, w.ids[i], w.ids[j]);
    if v in w.ids {
      WalkSound(Ascending, tables, None, limit, v);
      var i :| 0 <= i < |tables| && v in tables[i];
      assert ViewOf(TablesAt(t, batches)[i], user, v) == Friend;
    }
    if w.done && forall i :: 0 <= i <= |batches| ==> v in tables[i] {
      WalkComplete(Ascending, tables, None, limit, v);
    }
    if |batches| + 1 >= PagesNeeded(|everyone|, limit) {
      assert Remaining(Ascending, everyone, None) == everyone;
      WalkBounded(Ascending, tables, everyone, None, limit);
    }
  }
}
