/** A request that the machine runs with nothing in between is the whole call. */
module ChatAlone {
  import opened Chat
  import opened ChatCalls
  import opened ChatMachine

  /** One request moved again and again. */
  function Moves(p: nat, i: Input, n: nat): seq<Event> {
    if n == 0 then [] else [Move(p, i)] + Moves(p, i, n - 1)
  }

  lemma RunOn(s: State, e: Event, events: seq<Event>, s': State)
    requires s' == Step(s, e)
    ensures Run(s, [e] + events) == Run(s', events)
  {
    assert ([e] + events)[1..] == events;
  }

  lemma AdvanceGoesOn(env: Env, c: Config, i: Input)
    ensures !Advance(env, c, i).proc.Uploading?
    ensures StepsLeft(c.proc) == 0 ==> Advance(env, c, i) == c
  {
  }

  /** Only this request and the stores have gone on, to here. */
  ghost predicate EndsAt(s: State, t: State, p: nat, c: Config) {
    t.env == s.env && t.db == c.db && t.procs == s.procs[p := c.proc]
  }

  lemma {:induction false} MovesAreSolo(s: State, p: nat, i: Input, n: nat)
    requires Enabled(s, p) && n >= StepsLeft(s.procs[p])
    ensures EndsAt(s, Run(s, Moves(p, i, n)), p, Solo(s.env, Config(s.db, s.procs[p]), i))
    decreases n
  {
    if n > 0 {
      var c := Config(s.db, s.procs[p]);
      var d := Advance(s.env, c, i);
      var s' := Moved(s, p, i);
      MovedIsAdvance(s, p, i);
      AdvanceGoesOn(s.env, c, i);
      if StepsLeft(c.proc) > 0 {
        AdvanceTerminates(s.env, c, i);
        SoloStep(s.env, c, i, d);
      }
      RunOn(s, Move(p, i), Moves(p, i, n - 1), s');
      MovesAreSolo(s', p, i, n - 1);
    }
  }

  /** Begun in any state and then moved without a pause. */
  function Alone(s: State, p: nat, proc: Proc, i: Input): State {
    Run(s, [Begin(p, proc)] + Moves(p, i, StepsLeft(proc)))
  }

  lemma AloneIsSolo(s: State, p: nat, proc: Proc, i: Input)
    requires p !in s.procs && (proc.Starting? || (proc.Uploading? && proc.upload.attachment !in s.originals))
    ensures EndsAt(s, Alone(s, p, proc, i), p, Solo(s.env, Config(s.db, proc), i))
  {
    var s' := s.(procs := s.procs[p := proc]);
    RunOn(s, Begin(p, proc), Moves(p, i, StepsLeft(proc)), s');
    MovesAreSolo(s', p, i, StepsLeft(proc));
  }

  /** So in the midst of any other requests, which stay where they are, a send that is
      not interrupted does what the service's method does. */
  lemma SendAlone(s: State, p: nat, call: SendCall, i: Input)
    requires p !in s.procs
    ensures EndsAt(s, Alone(s, p, Starting(Send(call)), i), p, SendWhole(s.env, s.db, call, i))
  {
    AloneIsSolo(s, p, Starting(Send(call)), i);
    SoloSend(s.env, s.db, call, i);
  }

  /** And so does an edit, a deletion or a read. */
  lemma ActAlone(s: State, p: nat, target: Target, action: Action, i: Input)
    requires p !in s.procs
    ensures EndsAt(s, Alone(s, p, Starting(Act(target, action)), i), p, ActWhole(s.env, s.db, target, action, i))
  {
    AloneIsSolo(s, p, Starting(Act(target, action)), i);
    SoloAct(s.env, s.db, target, action, i);
  }

  /** And an upload under a new id. */
  lemma UploadAlone(s: State, p: nat, upload: UploadCall, i: Input)
    requires p !in s.procs && upload.attachment !in s.originals
    ensures EndsAt(s, Alone(s, p, Uploading(upload), i), p, UploadWhole(s.env, s.db, upload, i))
  {
    AloneIsSolo(s, p, Uploading(upload), i);
    SoloUpload(s.env, s.db, upload, i);
  }
}
