/** A client's bounded outbound queue, together with the history of what was sent to it
    and what left it. */
module Channel {
  import opened Common
  import Chat

  const QUEUE_CAPACITY := 256

  /** Something a user did, on its way to another user. */
  datatype Event = Event(origin: UserId, kind: EventType)
  datatype EventType = OfMessage(kind: Chat.EventKind) | PresenceOnline | PresenceOffline

  /** Sending never blocks: a full queue drops the event. */
  function Offer(queue: seq<Event>, e: Event): seq<Event> {
    if |queue| < QUEUE_CAPACITY then queue + [e] else queue
  }

  datatype Channel = Channel(sent: seq<Event>, queue: seq<Event>, delivered: seq<Event>, lost: nat)

  const EMPTY := Channel([], [], [], 0)

  function Sent(c: Channel, e: Event): Channel {
    Channel(c.sent + [e], Offer(c.queue, e), c.delivered, if |c.queue| < QUEUE_CAPACITY then c.lost else c.lost + 1)
  }

  function Taken(c: Channel): Channel {
    if c.queue == [] then c else c.(queue := c.queue[1..], delivered := c.delivered + [c.queue[0]])
  }

  /** What the queue has taken in, whether delivered yet or not. */
  function Accepted(c: Channel): seq<Event> {
    c.delivered + c.queue
  }

  /** A send is taken in at the end if fewer than 256 wait, and otherwise lost; nothing
      taken in is dropped. */
  lemma SendAccepts(c: Channel, e: Event)
    ensures var c' := Sent(c, e);
            && c'.sent == c.sent + [e]
            && (|c.queue| < 256 ==> Accepted(c') == Accepted(c) + [e] && c'.queue == c.queue + [e] && c'.lost == c.lost)
            && (|c.queue| >= 256 ==>
                  Accepted(c') == Accepted(c) && c'.queue == c.queue && c'.lost == c.lost + 1)
  {
  }

  /** The oldest event waiting is delivered next. */
  lemma TakeDelivers(c: Channel)
    ensures Accepted(Taken(c)) == Accepted(c) && Taken(c).sent == c.sent && Taken(c).lost == c.lost
    ensures |Taken(c).delivered| == |c.delivered| + if c.queue != [] then 1 else 0
  {
  }

  /** The positions in `b` at which `a` is found, in order. */
  ghost predicate Embeds(at: seq<nat>, a: seq<Event>, b: seq<Event>) {
    && |at| == |a|
    && (forall i :: 0 <= i < |at| ==> at[i] < |b| && a[i] == b[at[i]])
    && (forall i, j :: 0 <= i < j < |at| ==> at[i] < at[j])
  }

  ghost predicate Subsequence(a: seq<Event>, b: seq<Event>) {
    exists at :: Embeds(at, a, b)
  }

  lemma EmbedMore(at: seq<nat>, a: seq<Event>, b: seq<Event>, e: Event)
    requires Embeds(at, a, b)
    ensures Embeds(at, a, b + [e])
    ensures Embeds(at + [|b|], a + [e], b + [e])
  {
  }

  ghost predicate Faithful(c: Channel) {
    && |c.queue| <= QUEUE_CAPACITY
    && |c.sent| == |c.delivered| + |c.queue| + c.lost
    && Subsequence(c.delivered + c.queue, c.sent)
  }

  lemma EmptyFaithful()
    ensures Faithful(EMPTY)
  {
    assert Embeds([], EMPTY.delivered + EMPTY.queue, EMPTY.sent);
  }

  lemma SendFaithful(c: Channel, e: Event)
    requires Faithful(c)
    ensures Faithful(Sent(c, e))
  {
    var at :| Embeds(at, c.delivered + c.queue, c.sent);
    EmbedMore(at, c.delivered + c.queue, c.sent, e);
    assert c.delivered + (c.queue + [e]) == (c.delivered + c.queue) + [e];
  }

  lemma TakeFaithful(c: Channel)
    requires Faithful(c)
    ensures Faithful(Taken(c))
  {
    if c.queue != [] {
      assert Taken(c).delivered + Taken(c).queue == c.delivered + c.queue;
    }
  }

  lemma {:induction false} IncreasingIsIdentity(at: seq<nat>, n: nat, i: nat)
    requires |at| == n && i < n
    requires forall k :: 0 <= k < n ==> at[k] < n
    requires forall k, l :: 0 <= k < l < n ==> at[k] < at[l]
    ensures i <= at[i]
    decreases i
  {
    if i > 0 {
      IncreasingIsIdentity(at, n, i - 1);
    }
  }

  lemma {:induction false} IncreasingFromEnd(at: seq<nat>, n: nat, i: nat)
    requires |at| == n && i < n
    requires forall k :: 0 <= k < n ==> at[k] < n
    requires forall k, l :: 0 <= k < l < n ==> at[k] < at[l]
    ensures at[i] <= i
    decreases n - i
  {
    if i < n - 1 {
      IncreasingFromEnd(at, n, i + 1);
    }
  }

  /** If nothing was dropped, what was delivered and what is queued is all that was
      sent, in order; and only then. */
  lemma NothingLost(c: Channel)
    requires Faithful(c)
    ensures c.lost == 0 <==> c.delivered + c.queue == c.sent
  {
    var a := c.delivered + c.queue;
    if c.lost == 0 {
      var at :| Embeds(at, a, c.sent);
      forall i | 0 <= i < |a| ensures a[i] == c.sent[i] {
        IncreasingIsIdentity(at, |a|, i);
        IncreasingFromEnd(at, |a|, i);
      }
      assert a == c.sent;
    }
  }
}
