/** The stores beside the messages table: conversations, upload records, objects, and
    the publisher through which events reach the hub. */
module Stores {
  import opened Common
  import opened Metadata
  import opened Mime
  import opened Chat
  import opened Paging

  /** The constraints of the conversations table: two different known users, in order,
      who have no conversation yet. */
  predicate Acceptable(rows: map<ConversationId, Pair>, users: set<UserId>, pair: Pair) {
    pair.low < pair.high && {pair.low, pair.high} <= users && forall c :: c in rows ==> !Connects(rows, c, pair)
  }

  predicate Connects(rows: map<ConversationId, Pair>, c: ConversationId, pair: Pair) {
    c in rows && rows[c] == pair
  }

  class ConversationRepository {
    var rows: map<ConversationId, Pair>

    /** Canonical order, and one conversation for a pair. */
    ghost predicate Valid()
      reads this
    {
      && (forall c :: c in rows ==> rows[c].low < rows[c].high)
      && (forall c, d :: c in rows && d in rows && rows[c] == rows[d] ==> c == d)
    }

    constructor ()
      ensures Valid() && rows == map[]
    {
      rows := map[];
    }

    method GetParticipants(conversation: ConversationId) returns (r: Result<Pair>)
      ensures r == if conversation in rows then Ok(rows[conversation]) else Err(NotFound)
    {
      if conversation in rows {
        r := Ok(rows[conversation]);
      } else {
        r := Err(NotFound);
      }
    }

    method FindByPair(pair: Pair) returns (conversation: Option<ConversationId>)
      ensures conversation.Some? ==> Connects(rows, conversation.value, pair)
      ensures conversation.None? ==> forall c :: c in rows ==> !Connects(rows, c, pair)
    {
      var rest := rows.Keys;
      while rest != {}
        invariant rest <= rows.Keys
        invariant forall c :: c in rows && c !in rest ==> !Connects(rows, c, pair)
        decreases |rest|
      {
        var c := First(Ascending, rest);
        if rows[c] == pair {
          return Some(c);
        }
        rest := rest - {c};
      }
      conversation := None;
    }

    /** Inserts a row under a new id; the table's constraints may refuse it. */
    method Create(pair: Pair, id: ConversationId, users: set<UserId>) returns (r: Result<ConversationId>)
      requires Valid() && id !in rows
      modifies this
      ensures Valid()
      ensures r.Ok? <==> Acceptable(old(rows), users, pair)
      ensures r.Ok? ==> r.value == id && rows == old(rows)[id := pair]
      ensures r.Err? ==> r.error == Database && rows == old(rows)
    {
      if Acceptable(rows, users, pair) {
        rows := rows[id := pair];
        r := Ok(id);
      } else {
        r := Err(Database);
      }
    }

    /** The other user of each conversation of `user`: every partner once, never the
        user itself. */
    method GetConversationsPartner(user: UserId) returns (partners: seq<UserId>)
      requires Valid()
      ensures NoDuplicates(partners)
      ensures forall v :: v in partners <==> v != user && exists c :: c in rows && rows[c] == Canonical(user, v)
    {
      var rest := rows.Keys;
      partners := [];
      while rest != {}
        invariant rest <= rows.Keys
        invariant NoDuplicates(partners)
        invariant forall v :: v in partners <==>
                                v != user && exists c :: c in rows && c !in rest && rows[c] == Canonical(user, v)
        decreases |rest|
      {
        var c := First(Ascending, rest);
        var pair := rows[c];
        if pair.low == user || pair.high == user {
          var partner := if pair.low == user then pair.high else pair.low;
          assert pair == Canonical(user, partner);
          assert partner !in partners;
          partners := partners + [partner];
        }
        rest := rest - {c};
      }
    }
  }

  class UploadStore {
    var records: map<string, Timed>

    constructor ()
      ensures records == map[]
    {
      records := map[];
    }

    method SaveUploadRecord(attachment: string, record: UploadRecord, now: Time)
      modifies this
      ensures records == old(records)[attachment := Timed(record, now + UPLOAD_RECORD_TTL)]
    {
      records := records[attachment := Timed(record, now + UPLOAD_RECORD_TTL)];
    }

    /** Fetches and deletes in one transaction: whatever it answers, the key is gone. */
    method PopUploadRecord(attachment: string, now: Time) returns (r: Result<UploadRecord>)
      modifies this
      ensures records == old(records) - {attachment}
      ensures r.Ok? <==> attachment in old(records) && now < old(records)[attachment].expiry
      ensures r.Ok? ==> r.value == old(records)[attachment].record
      ensures r.Err? ==> r.error == NotFound
    {
      r := Err(NotFound);
      if attachment in records {
        if now < records[attachment].expiry {
          r := Ok(records[attachment].record);
        }
        records := records - {attachment};
      }
    }
  }

  class ObjectStore {
    var objects: map<string, seq<Byte>>
    var removals: seq<string>

    constructor ()
      ensures objects == map[] && removals == []
    {
      objects := map[];
      removals := [];
    }

    /** Stores `size` bytes of a stream that starts with `header` and goes on with what
        the reader still has; refuses a stream that breaks or ends before that. */
    method PutObject(key: string, header: seq<Byte>, rest: Reader, size: nat) returns (r: Result<()>)
      requires rest.Valid() && header == rest.file.data[..rest.pos]
      modifies this
      ensures removals == old(removals)
      ensures r == if Stream(size, rest.file).Ok? then Ok(()) else Err(InputOutput)
      ensures objects == if r.Ok? then old(objects)[key := Stream(size, rest.file).value] else old(objects)
    {
      var stream := header + rest.file.data[rest.pos..];
      assert stream == rest.file.data;
      if rest.file.FailsBefore(size) || |stream| < size {
        return Err(InputOutput);
      }
      objects := objects[key := stream[..size]];
      r := Ok(());
    }

    method GetObject(key: string) returns (r: Result<seq<Byte>>)
      ensures r == if key in objects then Ok(objects[key]) else Err(NotFound)
    {
      if key in objects {
        r := Ok(objects[key]);
      } else {
        r := Err(NotFound);
      }
    }

    method DeleteObject(key: string, succeeds: bool) returns (r: Result<()>)
      modifies this
      ensures removals == old(removals) + [key]
      ensures objects == if succeeds then old(objects) - {key} else old(objects)
      ensures r == if succeeds then Ok(()) else Err(InputOutput)
    {
      removals := removals + [key];
      if succeeds {
        objects := objects - {key};
        r := Ok(());
      } else {
        r := Err(InputOutput);
      }
    }
  }

  /** The hub, as the message service sees it. */
  class Publisher {
    var fanouts: seq<Fanout>

    constructor ()
      ensures fanouts == []
    {
      fanouts := [];
    }

    method FanOutToConversation(origin: UserId, recipient: UserId, kind: EventKind, payload: Response,
                                blocks: set<Block>)
      modifies this
      ensures fanouts
              == old(fanouts) + [Fanout(kind, payload, origin, recipient, !BlockedEitherWay(blocks, origin, recipient))]
    {
      fanouts := fanouts + [Fanout(kind, payload, origin, recipient, !BlockedEitherWay(blocks, origin, recipient))];
    }
  }
}
