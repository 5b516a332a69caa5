/** A client that pages back through a conversation while requests go on. */
module ChatWalk {
  import opened Common
  import opened MessageTable
  import opened Paging
  import opened ChatMachine

  /** The ids of a conversation at each of the client's requests; `batches[i]` is what
      happens between the i-th and the next. */
  function Snapshots(s: State, batches: seq<seq<Event>>, conversation: ConversationId): (tables: seq<set<MessageId>>)
    ensures |tables| == |batches| + 1
    ensures tables[0] == IdsOf(s.db.rows, conversation)
    decreases |batches|
  {
    [IdsOf(s.db.rows, conversation)]
    + if batches == [] then [] else Snapshots(Run(s, batches[0]), batches[1..], conversation)
  }

  lemma IdsStay(a: Rows, b: Rows, conversation: ConversationId)
    requires RowsEvolve(a, b)
    ensures IdsOf(a, conversation) <= IdsOf(b, conversation)
  {
    forall m | m in IdsOf(a, conversation) ensures m in IdsOf(b, conversation) {
      assert m in b && RowEvolves(a[m], b[m]);
    }
  }

  /** No event takes a message out of a conversation. */
  lemma {:induction false} SnapshotsGrow(s: State, batches: seq<seq<Event>>, conversation: ConversationId, i: nat)
    requires i < |Snapshots(s, batches, conversation)|
    ensures IdsOf(s.db.rows, conversation) <= Snapshots(s, batches, conversation)[i]
    decreases |batches|
  {
    if i > 0 {
      var next := Run(s, batches[0]);
      RunEvolves(s, batches[0]);
      IdsStay(s.db.rows, next.db.rows, conversation);
      SnapshotsGrow(next, batches[1..], conversation, i - 1);
    }
  }

  /** Whatever is sent, edited, deleted and read meanwhile, a client that follows the
      cursors sees strictly descending ids, none twice; and when it reaches the end it
      has seen every message that was there at its first request. */
  lemma ClientSeesEverything(s: State, batches: seq<seq<Event>>, conversation: ConversationId, limit: nat, m: MessageId)
    requires limit > 0
    ensures var w := Follow(Descending, Snapshots(s, batches, conversation), None, limit);
            && (forall i, j :: 0 <= i < j < |w.ids| ==> w.ids[i] > w.ids[j]) && NoDuplicates(w.ids)
            && (w.done && m in IdsOf(s.db.rows, conversation) ==> m in w.ids)
  {
    var tables := Snapshots(s, batches, conversation);
    WalkOrdered(Descending, tables, None, limit);
    var ids := Follow(Descending, tables, None, limit).ids;
    OrderedHasNoDuplicates(Descending, ids);
    assert forall i, j :: 0 <= i < j < |ids| ==> Before(Descending, ids[i], ids[j]);
    if Follow(Descending, tables, None, limit).done && m in IdsOf(s.db.rows, conversation) {
      forall i | 0 <= i < |tables| ensures m in tables[i] {
        SnapshotsGrow(s, batches, conversation, i);
      }
      WalkComplete(Descending, tables, None, limit, m);
    }
  }

  lemma {:induction false} SnapshotsInLast(s: State, batches: seq<seq<Event>>, conversation: ConversationId, i: nat)
    requires i <= |batches|
    ensures Snapshots(s, batches, conversation)[i] <= Snapshots(s, batches, conversation)[|batches|]
    decreases |batches|
  {
    if i > 0 {
      SnapshotsInLast(Run(s, batches[0]), batches[1..], conversation, i - 1);
    } else {
      SnapshotsGrow(s, batches, conversation, |batches|);
    }
  }

  /** The walk always ends: no matter where the ids of new messages fall, it takes no
      more requests than the messages there are in the end would. */
  lemma ClientEnds(s: State, batches: seq<seq<Event>>, conversation: ConversationId, limit: nat)
    requires limit > 0
    requires |batches| + 1 >= PagesNeeded(|Snapshots(s, batches, conversation)[|batches|]|, limit)
    ensures var w := Follow(Descending, Snapshots(s, batches, conversation), None, limit);
            w.done && w.pages <= PagesNeeded(|Snapshots(s, batches, conversation)[|batches|]|, limit)
  {
    var tables := Snapshots(s, batches, conversation);
    forall i | 0 <= i < |tables| ensures tables[i] <= tables[|batches|] {
      SnapshotsInLast(s, batches, conversation, i);
    }
    assert Remaining(Descending, tables[|batches|], None) == tables[|batches|];
    WalkBounded(Descending, tables, tables[|batches|], None, limit);
  }

  /** No message comes in below the cursor the client has at the time. Above it, also
      among the pages it has seen, any may. */
  ghost predicate NothingBehind(s: State, batches: seq<seq<Event>>, conversation: ConversationId,
                                cursor: Option<MessageId>, limit: nat)
    requires limit > 0
    decreases |batches|
  {
    batches != [] ==>
      var ids, later := IdsOf(s.db.rows, conversation), Run(s, batches[0]);
      var next := PageOf(Descending, ids, cursor, limit).next;
      next.Some? ==>
        && (forall m :: m in IdsOf(later.db.rows, conversation) && m < next.value ==> m in ids)
        && NothingBehind(later, batches[1..], conversation, next, limit)
  }

  lemma {:induction false} NothingBehindIsStill(s: State, batches: seq<seq<Event>>, conversation: ConversationId,
                                                cursor: Option<MessageId>, limit: nat)
    requires limit > 0 && NothingBehind(s, batches, conversation, cursor, limit)
    ensures StillBehind(Descending, Snapshots(s, batches, conversation), cursor, limit)
    decreases |batches|
  {
    if batches != [] {
      var ids, later := IdsOf(s.db.rows, conversation), Run(s, batches[0]);
      var next := PageOf(Descending, ids, cursor, limit).next;
      RunEvolves(s, batches[0]);
      IdsStay(s.db.rows, later.db.rows, conversation);
      if next.Some? {
        assert Remaining(Descending, IdsOf(later.db.rows, conversation), next) == Remaining(Descending, ids, next);
        NothingBehindIsStill(later, batches[1..], conversation, next, limit);
      }
      assert Snapshots(s, batches, conversation)[1..] == Snapshots(later, batches[1..], conversation);
    }
  }

  /** If nothing comes in below the cursor, a conversation of n messages takes exactly
      max(1, ceil(n / limit)) requests, however many messages arrive meanwhile, and the
      client has then seen exactly those n, newest first. */
  lemma ClientFinishes(s: State, batches: seq<seq<Event>>, conversation: ConversationId, limit: nat)
    requires limit > 0 && NothingBehind(s, batches, conversation, None, limit)
    requires |batches| + 1 >= PagesNeeded(|IdsOf(s.db.rows, conversation)|, limit)
    ensures var ids := IdsOf(s.db.rows, conversation);
            Follow(Descending, Snapshots(s, batches, conversation), None, limit)
            == Walk(Listing(Descending, ids), PagesNeeded(|ids|, limit), true)
  {
    var ids := IdsOf(s.db.rows, conversation);
    NothingBehindIsStill(s, batches, conversation, None, limit);
    assert Remaining(Descending, Snapshots(s, batches, conversation)[0], None) == ids;
    WalkTerminates(Descending, Snapshots(s, batches, conversation), None, limit, |ids|);
  }

  // ---- Ids that grow with time ----

  /** Every id of `b` that `a` lacks is above every id of `a`. */
  ghost predicate Above(a: set<MessageId>, b: set<MessageId>) {
    a <= b && forall x, y :: x in b && x !in a && y in a ==> y < x
  }

  /** Between requests ids only come in above those there are. Version 7 UUIDs (section
      5.7 of RFC 9562) are drawn in that order; two concurrent sends may insert theirs
      in the other, which this excludes and the condition above does not. */
  ghost predicate InsertedInOrder(s: State, batches: seq<seq<Event>>, conversation: ConversationId)
    decreases |batches|
  {
    batches != [] ==>
      && Above(IdsOf(s.db.rows, conversation), IdsOf(Run(s, batches[0]).db.rows, conversation))
      && InsertedInOrder(Run(s, batches[0]), batches[1..], conversation)
  }

  lemma {:induction false} OrderLeavesNothingBehind(s: State, batches: seq<seq<Event>>, conversation: ConversationId,
                                                    cursor: Option<MessageId>, limit: nat)
    requires limit > 0 && InsertedInOrder(s, batches, conversation)
    ensures NothingBehind(s, batches, conversation, cursor, limit)
    decreases |batches|
  {
    if batches != [] {
      var ids, later := IdsOf(s.db.rows, conversation), Run(s, batches[0]);
      var p := PageOf(Descending, ids, cursor, limit);
      if p.next.Some? {
        PageSplitsListing(Descending, ids, cursor, limit);
        PageOrdered(Descending, ids, cursor, limit);
        assert p.next.value in p.ids;
        forall m | m in IdsOf(later.db.rows, conversation) && m < p.next.value ensures m in ids {
          assert p.next.value in ids;
        }
        OrderLeavesNothingBehind(later, batches[1..], conversation, p.next, limit);
      }
    }
  }
}
