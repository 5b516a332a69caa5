/** Stored files: a message that is not deleted never loses its object, and no object
    is removed twice. */
module ChatObjects {
  import opened Common
  import opened Metadata
  import opened MessageTable
  import opened Mime
  import opened Chat
  import opened ChatMachine
  import opened ChatRows
  import opened ChatOwnership
  import opened ChatEffects

  /** The object key a stored document names. */
  function KeyIn(metadata: Json): string {
    GetString(Decode(metadata), "object_key")
  }

  lemma KeyOfCarried(originals: map<string, Original>, rows: Rows, m: MessageId)
    requires forall a :: a in originals ==> Genuine(a, originals[a])
    requires Documented(originals, rows) && m in rows && rows[m].metadata.Some?
    ensures AttachmentOf(rows[m].metadata).Some?
    ensures KeyIn(rows[m].metadata.value) == ObjectKey(AttachmentOf(rows[m].metadata).value)
  {
    CarriedIsTracked(originals, rows, m);
    var a := AttachmentOf(rows[m].metadata).value;
    assert Genuine(a, originals[a]);
    DescribeRoundTrip(a, originals[a].record);
  }

  /** Two messages never name the same object. */
  lemma KeysDiffer(s: State, m: MessageId, n: MessageId)
    requires OwnershipInvariant(s)
    requires m in s.db.rows && n in s.db.rows && m != n
    requires s.db.rows[m].metadata.Some? && s.db.rows[n].metadata.Some?
    ensures KeyIn(s.db.rows[m].metadata.value) != KeyIn(s.db.rows[n].metadata.value)
  {
    KeyOfCarried(s.originals, s.db.rows, m);
    KeyOfCarried(s.originals, s.db.rows, n);
    assert CarriedBy(s.db.rows)[m] != CarriedBy(s.db.rows)[n];
    ObjectKeyInjective(AttachmentOf(s.db.rows[m].metadata).value, AttachmentOf(s.db.rows[n].metadata).value);
  }

  // ---- No object is missing ----

  /** A deleted message carried it. */
  ghost predicate Disposed(rows: Rows, a: string) {
    exists m :: m in rows && Carries(rows[m], a) && rows[m].deletedAt.Some?
  }

  ghost predicate InStore(objects: map<string, seq<Byte>>, a: string, bytes: seq<Byte>) {
    ObjectKey(a) in objects && objects[ObjectKey(a)] == bytes
  }

  ghost predicate ObjectsInvariant(s: State) {
    forall a :: a in s.originals ==> InStore(s.db.objects, a, s.originals[a].bytes) || Disposed(s.db.rows, a)
  }

  lemma DisposedStays(x: Rows, y: Rows, a: string)
    requires RowsEvolve(x, y) && Disposed(x, a)
    ensures Disposed(y, a)
  {
  }

  lemma UploadAddsObject(s: State, p: nat, u: UploadCall)
    requires ObjectsInvariant(s) && u.attachment !in s.originals
    ensures ObjectsInvariant(WithOriginal(Replaced(s, p, StoreObject(s.db, u)), u))
  {
    var s' := WithOriginal(Replaced(s, p, StoreObject(s.db, u)), u);
    forall a | a in s'.originals ensures InStore(s'.db.objects, a, s'.originals[a].bytes) || Disposed(s'.db.rows, a) {
      ObjectKeyInjective(a, u.attachment);
    }
  }

  /** A deletion under way has its row marked deleted already. */
  lemma DeletingIsMarked(s: State, p: nat)
    requires EffectsInvariant(s) && p in s.procs && Deleting(s.procs[p])
    ensures var d := s.procs[p];
            d.id in s.db.rows && d.row.metadata == s.db.rows[d.id].metadata && s.db.rows[d.id].deletedAt.Some?
  {
  }

  /** Removing the object of a deleted message takes it from no other upload. */
  lemma CleanUpDisposes(s: State, m: MessageId, removed: bool)
    requires OwnershipInvariant(s) && ObjectsInvariant(s)
    requires m in s.db.rows && s.db.rows[m].deletedAt.Some?
    ensures forall a :: a in s.originals ==>
                          InStore(CleanUp(s.db, s.db.rows[m].metadata, removed).objects, a, s.originals[a].bytes)
                          || Disposed(s.db.rows, a)
  {
    if s.db.rows[m].metadata.Some? {
      KeyOfCarried(s.originals, s.db.rows, m);
      var gone := AttachmentOf(s.db.rows[m].metadata).value;
      assert Carries(s.db.rows[m], gone);
      forall a | a in s.originals
        ensures InStore(CleanUp(s.db, s.db.rows[m].metadata, removed).objects, a, s.originals[a].bytes)
                || Disposed(s.db.rows, a)
      {
        ObjectKeyInjective(a, gone);
      }
    }
  }

  lemma ObjectsElsewhere(s: State, p: nat, i: Input)
    requires Enabled(s, p) && !s.procs[p].Uploading? && !Deleting(s.procs[p])
    ensures var s' := Moved(s, p, i);
            s'.db.objects == s.db.objects && s'.db.removals == s.db.removals && s'.originals == s.originals
  {
    if Looking(s.procs[p]) { MovedLooking(s, p, i); }
  }

  lemma ObjectsStep(s: State, e: Event)
    requires OwnershipInvariant(s) && EffectsInvariant(s) && ObjectsInvariant(s)
    ensures ObjectsInvariant(Step(s, e))
  {
    if e.Move? && Enabled(s, e.p) {
      var before := s.procs[e.p];
      if before.Uploading? {
        MovedUploading(s, e.p, e.input);
        UploadAddsObject(s, e.p, before.upload);
      } else if Deleting(before) {
        MovedDeleting(s, e.p, e.input);
        DeletingIsMarked(s, e.p);
        CleanUpDisposes(s, before.id, e.input.removed);
      } else {
        ObjectsElsewhere(s, e.p, e.input);
        StepEvolves(s, e);
        forall a | a in s.originals && Disposed(s.db.rows, a) ensures Disposed(Moved(s, e.p, e.input).db.rows, a) {
          DisposedStays(s.db.rows, Moved(s, e.p, e.input).db.rows, a);
        }
      }
    }
  }

  // ---- No object is removed twice ----

  ghost predicate RemovedFor(rows: Rows, key: string) {
    exists m :: m in rows && rows[m].metadata.Some? && rows[m].deletedAt.Some? && KeyIn(rows[m].metadata.value) == key
  }

  ghost predicate NotRemovedBy(p: Proc, removals: seq<string>) {
    Deleting(p) && p.row.metadata.Some? ==> KeyIn(p.row.metadata.value) !in removals
  }

  ghost predicate RemovalsInvariant(s: State) {
    && NoDuplicates(s.db.removals)
    && (forall k :: k in s.db.removals ==> RemovedFor(s.db.rows, k))
    && (forall p :: p in s.procs ==> NotRemovedBy(s.procs[p], s.db.removals))
  }

  lemma RemovedForStays(x: Rows, y: Rows, k: string)
    requires RowsEvolve(x, y) && RemovedFor(x, k)
    ensures RemovedFor(y, k)
  {
  }

  /** The object of a message that is not deleted has not been removed. */
  lemma LiveNotRemoved(s: State, m: MessageId)
    requires OwnershipInvariant(s) && RemovalsInvariant(s)
    requires m in s.db.rows && s.db.rows[m].metadata.Some? && s.db.rows[m].deletedAt.None?
    ensures KeyIn(s.db.rows[m].metadata.value) !in s.db.removals
  {
    var k := KeyIn(s.db.rows[m].metadata.value);
    if k in s.db.removals {
      assert RemovedFor(s.db.rows, k);
      var n :| && n in s.db.rows && s.db.rows[n].metadata.Some? && s.db.rows[n].deletedAt.Some?
               && KeyIn(s.db.rows[n].metadata.value) == k;
      KeysDiffer(s, m, n);
    }
  }

  lemma ApplyNotRemoved(s: State, t: Target, a: Action, other: UserId, snapshot: Row, i: Input)
    requires OwnershipInvariant(s) && RemovalsInvariant(s) && Stale(s.db.rows, t, snapshot)
    ensures NotRemovedBy(Apply(s.db, t, a, other, snapshot, i).proc, s.db.removals)
  {
    var after := Apply(s.db, t, a, other, snapshot, i).proc;
    if Deleting(after) && after.row.metadata.Some? {
      LiveNotRemoved(s, t.message);
    }
  }

  lemma AppendNew(removals: seq<string>, key: string)
    requires NoDuplicates(removals) && key !in removals
    ensures NoDuplicates(removals + [key])
  {
  }

  /** Another deletion under way is of another message, hence of another object. */
  lemma OtherDeletion(s: State, p: nat, q: nat)
    requires OwnershipInvariant(s) && EffectsInvariant(s)
    requires p in s.procs && q in s.procs && p != q && Deleting(s.procs[p]) && Deleting(s.procs[q])
    requires s.procs[p].row.metadata.Some? && s.procs[q].row.metadata.Some?
    ensures KeyIn(s.procs[p].row.metadata.value) != KeyIn(s.procs[q].row.metadata.value)
  {
    DeletingIsMarked(s, p);
    DeletingIsMarked(s, q);
    assert Won(s.procs[p]) == Some(Claim(MessageDeleted, s.procs[p].id));
    assert Won(s.procs[q]) == Some(Claim(MessageDeleted, s.procs[q].id));
    KeysDiffer(s, s.procs[p].id, s.procs[q].id);
  }

  /** The key that a deletion removes was not removed before, ... */
  lemma RemovalIsFirst(s: State, p: nat)
    requires EffectsInvariant(s) && RemovalsInvariant(s)
    requires p in s.procs && Deleting(s.procs[p]) && s.procs[p].row.metadata.Some?
    ensures var key := KeyIn(s.procs[p].row.metadata.value);
            NoDuplicates(s.db.removals + [key]) && RemovedFor(s.db.rows, key)
  {
    assert NotRemovedBy(s.procs[p], s.db.removals);
    AppendNew(s.db.removals, KeyIn(s.procs[p].row.metadata.value));
    DeletingIsMarked(s, p);
  }

  /** ... and no other deletion under way is about to remove it. */
  lemma RemovalIsNobodyElses(s: State, p: nat, q: nat)
    requires OwnershipInvariant(s) && EffectsInvariant(s)
    requires p in s.procs && Deleting(s.procs[p]) && s.procs[p].row.metadata.Some?
    requires q in s.procs && q != p && NotRemovedBy(s.procs[q], s.db.removals)
    ensures NotRemovedBy(s.procs[q], s.db.removals + [KeyIn(s.procs[p].row.metadata.value)])
  {
    if Deleting(s.procs[q]) && s.procs[q].row.metadata.Some? {
      OtherDeletion(s, p, q);
    }
  }

  lemma RemovalRecorded(s: State, p: nat, c: Config, key: string)
    requires RemovalsInvariant(s) && p in s.procs
    requires !Deleting(c.proc) && c.db.rows == s.db.rows && c.db.removals == s.db.removals + [key]
    requires NoDuplicates(c.db.removals) && RemovedFor(s.db.rows, key)
    requires forall q :: q in s.procs && q != p ==> NotRemovedBy(s.procs[q], c.db.removals)
    ensures RemovalsInvariant(Replaced(s, p, c))
  {
    assert Replaced(s, p, c).db == c.db && Replaced(s, p, c).procs == s.procs[p := c.proc];
  }

  lemma DeletingRemoves(s: State, p: nat, i: Input)
    requires OwnershipInvariant(s) && EffectsInvariant(s) && RemovalsInvariant(s)
    requires Enabled(s, p) && Deleting(s.procs[p])
    ensures RemovalsInvariant(Moved(s, p, i))
  {
    var d := s.procs[p];
    MovedDeleting(s, p, i);
    var c := Config(CleanUp(s.db, d.row.metadata, i.removed), Cleaned(d.request, d.other, d.id, d.row));
    if c.db.removals != s.db.removals {
      RemovalIsFirst(s, p);
      forall q | q in s.procs && q != p ensures NotRemovedBy(s.procs[q], c.db.removals) {
        RemovalIsNobodyElses(s, p, q);
      }
      RemovalRecorded(s, p, c, KeyIn(d.row.metadata.value));
    }
  }

  /** What a move starts deleting, if it is not deleting yet. */
  lemma NotStartingToDelete(s: State, p: nat, i: Input)
    requires Enabled(s, p) && !s.procs[p].Fetched? && !Deleting(s.procs[p])
    ensures !Deleting(Moved(s, p, i).procs[p])
    ensures forall q :: q in s.procs && q != p ==> Moved(s, p, i).procs[q] == s.procs[q]
  {
  }

  lemma MoveKeepsRemovals(s: State, p: nat, i: Input)
    requires RowsInvariant(s) && OwnershipInvariant(s) && RemovalsInvariant(s)
    requires Enabled(s, p) && !Deleting(s.procs[p])
    ensures RemovalsInvariant(Moved(s, p, i))
  {
    var before := s.procs[p];
    if before.Fetched? {
      MovedFetched(s, p, i);
      assert Established(s.env, s.db.rows, before);
      ApplyNotRemoved(s, before.target, before.action, before.other, before.snapshot, i);
    } else {
      NotStartingToDelete(s, p, i);
    }
    RemovalsUnchanged(s, p, i);
  }

  lemma RemovalsStep(s: State, e: Event)
    requires RowsInvariant(s) && OwnershipInvariant(s) && EffectsInvariant(s) && RemovalsInvariant(s)
    ensures RemovalsInvariant(Step(s, e))
  {
    if e.Move? && Enabled(s, e.p) {
      if Deleting(s.procs[e.p]) {
        DeletingRemoves(s, e.p, e.input);
      } else {
        MoveKeepsRemovals(s, e.p, e.input);
      }
    }
  }

  lemma RemovalsElsewhere(s: State, p: nat, i: Input)
    requires Enabled(s, p) && !Deleting(s.procs[p])
    ensures Moved(s, p, i).db.removals == s.db.removals
    ensures Moved(s, p, i).procs == s.procs[p := Moved(s, p, i).procs[p]]
  {
    if Looking(s.procs[p]) { MovedLooking(s, p, i); }
  }

  lemma RemovalsUnchanged(s: State, p: nat, i: Input)
    requires RemovalsInvariant(s) && Enabled(s, p) && !Deleting(s.procs[p])
    requires NotRemovedBy(Moved(s, p, i).procs[p], s.db.removals)
    ensures RemovalsInvariant(Moved(s, p, i))
  {
    var s' := Moved(s, p, i);
    MovedEvolves(s, p, i);
    RemovalsElsewhere(s, p, i);
    forall k | k in s'.db.removals ensures RemovedFor(s'.db.rows, k) {
      RemovedForStays(s.db.rows, s'.db.rows, k);
    }
  }

  ghost predicate ChatInvariant(s: State) {
    RowsInvariant(s) && OwnershipInvariant(s) && EffectsInvariant(s) && ObjectsInvariant(s) && RemovalsInvariant(s)
  }

  lemma ChatInvariantStep(s: State, e: Event)
    requires ChatInvariant(s)
    ensures ChatInvariant(Step(s, e))
  {
    RowsInvariantStep(s, e);
    OwnershipStep(s, e);
    EffectsStep(s, e);
    ObjectsStep(s, e);
    RemovalsStep(s, e);
  }

  lemma {:induction false} ReachableChat(s: State, events: seq<Event>)
    requires ChatInvariant(s)
    ensures ChatInvariant(Run(s, events))
    decreases |events|
  {
    if events != [] {
      ChatInvariantStep(s, events[0]);
      ReachableChat(Step(s, events[0]), events[1..]);
    }
  }

  lemma AlwaysGood(s: State, events: seq<Event>)
    requires s == INITIAL
    ensures ChatInvariant(Run(s, events))
  {
    ReachableChat(s, events);
  }

  // ---- The results ----

  /** In every reachable state a message that is not deleted and has metadata names an
      object that is in the store with the very bytes that were uploaded. */
  lemma NoDanglingObject(events: seq<Event>, m: MessageId)
    requires var rows := Run(INITIAL, events).db.rows;
             m in rows && rows[m].deletedAt.None? && rows[m].metadata.Some?
    ensures var s := Run(INITIAL, events); var key := KeyIn(s.db.rows[m].metadata.value);
            && key in s.db.objects
            && exists a :: a in s.originals && Carries(s.db.rows[m], a) && s.db.objects[key] == s.originals[a].bytes
  {
    AlwaysGood(INITIAL, events);
    var s := Run(INITIAL, events);
    LiveObject(s, m);
    var a := AttachmentOf(s.db.rows[m].metadata).value;
    assert a in s.originals && Carries(s.db.rows[m], a);
  }

  lemma CarriedOnce(s: State, m: MessageId, n: MessageId, a: string)
    requires OwnershipInvariant(s)
    requires m in s.db.rows && n in s.db.rows && Carries(s.db.rows[m], a) && Carries(s.db.rows[n], a)
    ensures m == n
  {
    assert CarriedBy(s.db.rows)[m] == Some(a) && CarriedBy(s.db.rows)[n] == Some(a);
  }

  lemma LiveObject(s: State, m: MessageId)
    requires OwnershipInvariant(s) && ObjectsInvariant(s)
    requires m in s.db.rows && s.db.rows[m].deletedAt.None? && s.db.rows[m].metadata.Some?
    ensures AttachmentOf(s.db.rows[m].metadata).Some?
    ensures var a := AttachmentOf(s.db.rows[m].metadata).value;
            && a in s.originals && InStore(s.db.objects, a, s.originals[a].bytes)
            && KeyIn(s.db.rows[m].metadata.value) == ObjectKey(a)
  {
    KeyOfCarried(s.originals, s.db.rows, m);
    CarriedIsTracked(s.originals, s.db.rows, m);
    var a := AttachmentOf(s.db.rows[m].metadata).value;
    forall n | n in s.db.rows && Carries(s.db.rows[n], a) ensures n == m {
      CarriedOnce(s, m, n, a);
    }
  }

  /** The delete call is made at most once for any object, and only for the object of
      a message that is deleted. */
  lemma OneRemovalEach(events: seq<Event>)
    ensures var db := Run(INITIAL, events).db;
            NoDuplicates(db.removals) && forall k :: k in db.removals ==> RemovedFor(db.rows, k)
  {
    AlwaysGood(INITIAL, events);
  }
}
