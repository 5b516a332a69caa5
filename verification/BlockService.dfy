/** Blocking: a transaction over the friends and the blocks table. */
module BlockService {
  import opened Common
  import opened FriendTable
  import opened FriendService

  /** The constraints of the blocks table. */
  predicate Insertable(blocks: set<Block>, users: set<UserId>, b: Block) {
    b.blocker != b.blocked && {b.blocker, b.blocked} <= users && b !in blocks
  }

  /** Both tables after a call to block, and its answer. */
  datatype Blocked = Blocked(friends: Table, blocks: set<Block>, answer: Result<Block>)

  function BlockCall(friends: Table, blocks: set<Block>, users: set<UserId>, b: Block): Blocked {
    if b.blocker == b.blocked then Blocked(friends, blocks, Err(BadRequest))
    else if Insertable(blocks, users, b)
    then Blocked(friends - {Canonical(b.blocker, b.blocked)}, blocks + {b}, Ok(b))
    else Blocked(friends, blocks, Err(Database))
  }

  function UnblockCall(blocks: set<Block>, b: Block): set<Block> {
    blocks - {b}
  }

  /** A block succeeds if and only if the two differ, both are known, and the caller has
      not blocked the other yet, whatever the other has done. It then stands from the
      caller to the other, and the two have no friends row. */
  lemma BlockOutcome(friends: Table, blocks: set<Block>, users: set<UserId>, caller: UserId, target: UserId)
    requires LegalTable(friends)
    ensures var after := BlockCall(friends, blocks, users, Block(caller, target));
            && (after.answer.Ok?
                <==> caller != target && caller in users && target in users && Block(caller, target) !in blocks)
            && (after.answer.Ok? ==>
                  && after.answer.value == Block(caller, target)
                  && after.blocks == blocks + {Block(caller, target)}
                  && (forall p :: p in after.friends <==> p in friends && {p.low, p.high} != {caller, target})
                  && forall p :: p in after.friends ==> after.friends[p] == friends[p])
            && (after.answer.Err? ==>
                  && after.answer.error == (if caller == target then BadRequest else Database)
                  && after.friends == friends && after.blocks == blocks)
  {
    forall p | p in friends ensures p == Canonical(caller, target) <==> {p.low, p.high} == {caller, target} {
      assert Legal(p, friends[p].requester);
    }
  }

  /** A new block and then the caller's own unblock leave the blocks as they were, also
      those of the other user against the caller; the friendship stays ended. */
  lemma BlockRoundTrip(friends: Table, blocks: set<Block>, users: set<UserId>, caller: UserId, target: UserId)
    requires Block(caller, target) !in blocks
    ensures var after := BlockCall(friends, blocks, users, Block(caller, target));
            && UnblockCall(after.blocks, Block(caller, target)) == blocks
            && (Block(target, caller) in UnblockCall(after.blocks, Block(caller, target))
                <==> Block(target, caller) in blocks)
            && (after.answer.Ok? ==>
                  Block(caller, target) in after.blocks && ViewOf(after.friends, caller, target) == Stranger)
  {
  }

  class BlockRepository {
    const friends: FriendRepository
    var blocks: set<Block>

    constructor (friends: FriendRepository)
      ensures this.friends == friends && blocks == {}
    {
      this.friends := friends;
      blocks := {};
    }

    /** Deletes the friendship and inserts the block. If the insert is refused the
        deletion is rolled back with it. */
    method BlockUserAtomic(b: Block, pair: Pair) returns (r: Result<Block>)
      requires friends.Valid()
      modifies this, friends`rows
      ensures friends.Valid()
      ensures r == if Insertable(old(blocks), friends.users, b) then Ok(b) else Err(Database)
      ensures r.Ok? ==> friends.rows == old(friends.rows) - {pair} && blocks == old(blocks) + {b}
      ensures r.Err? ==> friends.rows == old(friends.rows) && blocks == old(blocks)
    {
      var before := friends.rows;
      friends.DeleteByPair(pair);
      if !Insertable(blocks, friends.users, b) {
        friends.rows := before;
        return Err(Database);
      }
      blocks := blocks + {b};
      r := Ok(b);
    }

    method UnblockUser(b: Block)
      modifies this
      ensures blocks == old(blocks) - {b}
    {
      blocks := blocks - {b};
    }

    method IsBlockedEitherWay(x: UserId, y: UserId) returns (blocked: bool)
      ensures blocked <==> BlockedEitherWay(blocks, x, y)
    {
      blocked := Block(x, y) in blocks || Block(y, x) in blocks;
    }
  }

  class BlockService {
    const repository: BlockRepository

    constructor (repository: BlockRepository)
      ensures this.repository == repository
    {
      this.repository := repository;
    }

    /** The caller is the blocker of the request. */
    method BlockUser(b: Block) returns (r: Result<Block>)
      requires repository.friends.Valid()
      modifies repository, repository.friends`rows
      ensures repository.friends.Valid()
      ensures Blocked(repository.friends.rows, repository.blocks, r)
              == BlockCall(old(repository.friends.rows), old(repository.blocks), repository.friends.users, b)
      ensures r.Ok? <==> && b.blocker != b.blocked && b !in old(repository.blocks)
                         && b.blocker in repository.friends.users && b.blocked in repository.friends.users
      ensures r.Ok? ==>
                && r.value.blocker == b.blocker && r.value.blocked == b.blocked
                && repository.blocks == old(repository.blocks) + {Block(b.blocker, b.blocked)}
                && repository.friends.rows == old(repository.friends.rows) - {Canonical(b.blocker, b.blocked)}
      ensures r.Err? ==>
                && r.error == (if b.blocker == b.blocked then BadRequest else Database)
                && repository.blocks == old(repository.blocks)
                && repository.friends.rows == old(repository.friends.rows)
      ensures r.Ok? ==> ViewOf(repository.friends.rows, b.blocker, b.blocked) == Stranger
    {
      if b.blocker == b.blocked {
        return Err(BadRequest);
      }
      r := repository.BlockUserAtomic(b, Canonical(b.blocker, b.blocked));
    }

    /** Undoes the caller's own block only, and succeeds even if there was none. */
    method UnblockUser(b: Block) returns (r: Result<()>)
      modifies repository
      ensures r == if b.blocker == b.blocked then Err(BadRequest) else Ok(())
      ensures repository.blocks == if r.Ok? then UnblockCall(old(repository.blocks), b) else old(repository.blocks)
      ensures r.Ok? ==> repository.blocks == old(repository.blocks) - {Block(b.blocker, b.blocked)}
      ensures r.Ok? ==> (BlockedEitherWay(repository.blocks, b.blocker, b.blocked)
                         <==> Block(b.blocked, b.blocker) in old(repository.blocks))
    {
      if b.blocker == b.blocked {
        return Err(BadRequest);
      }
      repository.UnblockUser(b);
      r := Ok(());
    }
  }
}
