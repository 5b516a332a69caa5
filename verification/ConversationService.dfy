/** Finding or creating the one conversation of two users. */
module ConversationService {
  import opened Common
  import opened Stores

  /** The table after a call to create, whose new row would get this id. */
  ghost function Conversed(rows: map<ConversationId, Pair>, users: set<UserId>, blocks: set<Block>,
                           user: UserId, target: UserId, id: ConversationId): map<ConversationId, Pair>
  {
    if user != target && Acceptable(rows, users, Canonical(user, target)) && !BlockedEitherWay(blocks, user, target)
    then rows[id := Canonical(user, target)]
    else rows
  }

  class ConversationService {
    const repository: ConversationRepository

    constructor (repository: ConversationRepository)
      ensures this.repository == repository
    {
      this.repository := repository;
    }

    /** Answers the pair's conversation: the one there is, even across a block, or else
        a new one, but not across a block. */
    method CreateConversation(user: UserId, target: UserId, id: ConversationId, users: set<UserId>, blocks: set<Block>)
      returns (r: Result<ConversationId>, created: bool)
      requires repository.Valid() && id !in repository.rows
      modifies repository
      ensures repository.Valid()
      ensures repository.rows == Conversed(old(repository.rows), users, blocks, user, target, id)
      ensures r.Ok? ==> Connects(repository.rows, r.value, Canonical(user, target))
      ensures r.Ok? && created ==>
                r.value == id && repository.rows == old(repository.rows)[id := Canonical(user, target)]
      ensures !created ==> repository.rows == old(repository.rows)
      ensures created <==> r.Ok? && r.value !in old(repository.rows)
      ensures user == target ==> r == Err(BadRequest)
      ensures user != target ==>
                var known := exists c :: Connects(old(repository.rows), c, Canonical(user, target));
                && (r.Ok? <==> known || (!BlockedEitherWay(blocks, user, target) && {user, target} <= users))
                && (r.Err? ==> r.error == if BlockedEitherWay(blocks, user, target) then NotFound else Database)
    {
      created := false;
      if user == target {
        return Err(BadRequest), false;
      }
      var pair := Canonical(user, target);
      var conversation := repository.FindByPair(pair);
      if conversation.Some? {
        return Ok(conversation.value), false;
      }
      if BlockedEitherWay(blocks, pair.low, pair.high) {
        return Err(NotFound), false;
      }
      assert {pair.low, pair.high} == {user, target};
      r := repository.Create(pair, id, users);
      created := r.Ok?;
    }
  }
}
