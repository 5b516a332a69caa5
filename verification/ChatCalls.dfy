/** Whole calls: what a request does when nothing interrupts it, written as the
    services write it, and the proof that the machine's steps add up to that. */
module ChatCalls {
  import opened Common
  import opened Metadata
  import opened MessageTable
  import opened Chat

  function InsertAndPublish(env: Env, db: Db, s: SendCall, other: UserId, metadata: Option<Json>, i: Input): Config {
    var c := Insert(db, s, other, metadata, i);
    if c.proc.Applied? then Publish(env, c.db, Send(s), other, c.proc.id, c.proc.row) else c
  }

  function ConsumeAndInsert(env: Env, db: Db, s: SendCall, other: UserId, i: Input): Config {
    var c := Consume(env, db, s, other);
    if c.proc.Ready? then InsertAndPublish(env, c.db, s, other, c.proc.metadata, i) else c
  }

  function SendChecked(env: Env, db: Db, s: SendCall, other: UserId, i: Input): Config {
    var c := CheckReply(db, s, other);
    if c.proc.Verified? then ConsumeAndInsert(env, db, s, other, i) else c
  }

  function SendJoined(env: Env, db: Db, s: SendCall, other: UserId, i: Input): Config {
    var c := CheckBlock(env, db, Send(s), other);
    if c.proc.Unblocked? then SendChecked(env, db, s, other, i) else c
  }

  function SendWhole(env: Env, db: Db, s: SendCall, i: Input): Config {
    var c := Join(env, db, Send(s));
    if c.proc.Joined? then SendJoined(env, db, s, c.proc.other, i) else c
  }

  function ApplyAndPublish(env: Env, db: Db, t: Target, a: Action, other: UserId, snapshot: Row, i: Input): Config {
    var c := Apply(db, t, a, other, snapshot, i);
    if !c.proc.Applied? then c
    else
      var cleaned := if a.Delete? then CleanUp(c.db, c.proc.row.metadata, i.removed) else c.db;
      Publish(env, cleaned, Act(t, a), other, t.message, c.proc.row)
  }

  function FetchAndApply(env: Env, db: Db, t: Target, a: Action, other: UserId, i: Input): Config {
    var c := Fetch(db, t, a, other, i);
    if c.proc.Fetched? then ApplyAndPublish(env, db, t, a, other, c.proc.snapshot, i) else c
  }

  function ActJoined(env: Env, db: Db, t: Target, a: Action, other: UserId, i: Input): Config {
    if !a.Read? then FetchAndApply(env, db, t, a, other, i)
    else
      var c := CheckBlock(env, db, Act(t, a), other);
      if c.proc.Unblocked? then FetchAndApply(env, db, t, a, other, i) else c
  }

  function ActWhole(env: Env, db: Db, t: Target, a: Action, i: Input): Config {
    var c := Join(env, db, Act(t, a));
    if c.proc.Joined? then ActJoined(env, db, t, a, c.proc.other, i) else c
  }

  function UploadWhole(env: Env, db: Db, u: UploadCall, i: Input): Config {
    var c := StoreObject(db, u);
    if c.proc.Stored? then SaveRecord(env, c.db, u, c.proc.record, i.saved) else c
  }

  // ---- The steps add up ----

  lemma SoloDone(env: Env, c: Config, i: Input)
    requires StepsLeft(c.proc) == 0
    ensures Solo(env, c, i) == c
  {
  }

  lemma SoloStep(env: Env, c: Config, i: Input, d: Config)
    requires StepsLeft(c.proc) > 0 && d == Advance(env, c, i)
    ensures Solo(env, c, i) == Solo(env, d, i)
  {
  }

  lemma SoloApplied(env: Env, db: Db, r: Request, other: UserId, id: MessageId, row: Row, i: Input)
    ensures Solo(env, Config(db, Applied(r, other, id, row)), i)
            == Publish(env, if r.Kind() == MessageDeleted then CleanUp(db, row.metadata, i.removed) else db,
                       r, other, id, row)
  {
    var c := Config(db, Applied(r, other, id, row));
    if r.Kind() == MessageDeleted {
      var d := Config(CleanUp(db, row.metadata, i.removed), Cleaned(r, other, id, row));
      SoloStep(env, c, i, d);
      SoloStep(env, d, i, Publish(env, d.db, r, other, id, row));
    } else {
      SoloStep(env, c, i, Publish(env, db, r, other, id, row));
    }
  }

  lemma SoloReady(env: Env, db: Db, s: SendCall, other: UserId, metadata: Option<Json>, i: Input)
    ensures Solo(env, Config(db, Ready(s, other, metadata)), i) == InsertAndPublish(env, db, s, other, metadata, i)
  {
    var c := Insert(db, s, other, metadata, i);
    SoloStep(env, Config(db, Ready(s, other, metadata)), i, c);
    if c.proc.Applied? {
      SoloApplied(env, c.db, Send(s), other, c.proc.id, c.proc.row, i);
    } else {
      SoloDone(env, c, i);
    }
  }

  lemma SoloVerified(env: Env, db: Db, s: SendCall, other: UserId, i: Input)
    ensures Solo(env, Config(db, Verified(s, other)), i) == ConsumeAndInsert(env, db, s, other, i)
  {
    var c := Consume(env, db, s, other);
    SoloStep(env, Config(db, Verified(s, other)), i, c);
    if c.proc.Ready? {
      SoloReady(env, c.db, s, other, c.proc.metadata, i);
    } else {
      SoloDone(env, c, i);
    }
  }

  lemma SoloUnblockedSend(env: Env, db: Db, s: SendCall, other: UserId, i: Input)
    ensures Solo(env, Config(db, Unblocked(Send(s), other)), i) == SendChecked(env, db, s, other, i)
  {
    var c := CheckReply(db, s, other);
    SoloStep(env, Config(db, Unblocked(Send(s), other)), i, c);
    if c.proc.Verified? {
      SoloVerified(env, db, s, other, i);
    } else {
      SoloDone(env, c, i);
    }
  }

  lemma SoloJoinedSend(env: Env, db: Db, s: SendCall, other: UserId, i: Input)
    ensures Solo(env, Config(db, Joined(Send(s), other)), i) == SendJoined(env, db, s, other, i)
  {
    var c := CheckBlock(env, db, Send(s), other);
    SoloStep(env, Config(db, Joined(Send(s), other)), i, c);
    if c.proc.Unblocked? {
      SoloUnblockedSend(env, db, s, other, i);
    } else {
      SoloDone(env, c, i);
    }
  }

  /** Sending, from the first statement to the fan-out. */
  lemma SoloSend(env: Env, db: Db, s: SendCall, i: Input)
    ensures Solo(env, Config(db, Starting(Send(s))), i) == SendWhole(env, db, s, i)
    ensures SendWhole(env, db, s, i).proc.Finished?
  {
    var c := Join(env, db, Send(s));
    SoloStep(env, Config(db, Starting(Send(s))), i, c);
    if c.proc.Joined? {
      SoloJoinedSend(env, db, s, c.proc.other, i);
    } else {
      SoloDone(env, c, i);
    }
  }

  lemma SoloFetched(env: Env, db: Db, t: Target, a: Action, other: UserId, snapshot: Row, i: Input)
    ensures Solo(env, Config(db, Fetched(t, a, other, snapshot)), i)
            == ApplyAndPublish(env, db, t, a, other, snapshot, i)
  {
    var c := Apply(db, t, a, other, snapshot, i);
    SoloStep(env, Config(db, Fetched(t, a, other, snapshot)), i, c);
    if c.proc.Applied? {
      SoloApplied(env, c.db, Act(t, a), other, t.message, c.proc.row, i);
    } else {
      SoloDone(env, c, i);
    }
  }

  lemma SoloFetch(env: Env, db: Db, t: Target, a: Action, other: UserId, i: Input)
    ensures Solo(env, Fetch(db, t, a, other, i), i) == FetchAndApply(env, db, t, a, other, i)
  {
    var d := Fetch(db, t, a, other, i);
    if d.proc.Fetched? {
      SoloFetched(env, db, t, a, other, d.proc.snapshot, i);
    } else {
      SoloDone(env, d, i);
    }
  }

  lemma SoloFetching(env: Env, c: Config, t: Target, a: Action, other: UserId, i: Input)
    requires c.proc == Unblocked(Act(t, a), other) || (c.proc == Joined(Act(t, a), other) && !a.Read?)
    ensures Solo(env, c, i) == FetchAndApply(env, c.db, t, a, other, i)
  {
    var d := Fetch(c.db, t, a, other, i);
    SoloStep(env, c, i, d);
    SoloFetch(env, c.db, t, a, other, i);
  }

  lemma SoloJoinedAct(env: Env, db: Db, t: Target, a: Action, other: UserId, i: Input)
    ensures Solo(env, Config(db, Joined(Act(t, a), other)), i) == ActJoined(env, db, t, a, other, i)
  {
    var c := Config(db, Joined(Act(t, a), other));
    if a.Read? {
      var d := CheckBlock(env, db, Act(t, a), other);
      SoloStep(env, c, i, d);
      if d.proc.Unblocked? {
        SoloFetching(env, d, t, a, other, i);
      } else {
        SoloDone(env, d, i);
      }
    } else {
      SoloFetching(env, c, t, a, other, i);
    }
  }

  /** Editing, deleting and reading, from the first statement to the fan-out. */
  lemma SoloAct(env: Env, db: Db, t: Target, a: Action, i: Input)
    ensures Solo(env, Config(db, Starting(Act(t, a))), i) == ActWhole(env, db, t, a, i)
    ensures ActWhole(env, db, t, a, i).proc.Finished?
  {
    var c := Join(env, db, Act(t, a));
    SoloStep(env, Config(db, Starting(Act(t, a))), i, c);
    if c.proc.Joined? {
      SoloJoinedAct(env, db, t, a, c.proc.other, i);
    } else {
      SoloDone(env, c, i);
    }
  }

  /** Uploading: the object first, then its record. */
  lemma SoloUpload(env: Env, db: Db, u: UploadCall, i: Input)
    ensures Solo(env, Config(db, Uploading(u)), i) == UploadWhole(env, db, u, i)
    ensures UploadWhole(env, db, u, i).proc.Uploaded?
  {
    var c := StoreObject(db, u);
    SoloStep(env, Config(db, Uploading(u)), i, c);
    if c.proc.Stored? {
      var d := SaveRecord(env, c.db, u, c.proc.record, i.saved);
      SoloStep(env, c, i, d);
      SoloDone(env, d, i);
    } else {
      SoloDone(env, c, i);
    }
  }
}
