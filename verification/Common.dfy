/** Identifiers, optional values and error results shared by every component. */
module Common {

  type UserId = int
  type ConversationId = int
  type MessageId = int

  /** Instants and durations. Each module says which unit it counts. */
  type Time = int

  datatype Option<+T> = None | Some(value: T)

  /** The errors the services hand to their callers. `Database` stands for a
      failed constraint, which the source passes on as the driver's own error, and
      `NoRows` for a statement that returned none. */
  datatype Error =
    | NotFound
    | BadRequest
    | Forbidden
    | Conflict
    | FileTooLarge
    | UnsupportedMime
    | InvalidToken
    | TokenExpired
    | InputOutput
    | Database
    | NoRows

  datatype Result<+T> = Ok(value: T) | Err(error: Error)

  /** The conversation, friend and block tables store an unordered pair of users
      with the smaller id first. */
  datatype Pair = Pair(low: UserId, high: UserId)

  function Canonical(a: UserId, b: UserId): (p: Pair)
    ensures a != b ==> p.low < p.high
    ensures {p.low, p.high} == {a, b}
  {
    if a < b then Pair(a, b) else Pair(b, a)
  }

  /** Swapping the two users is the only way two calls can meet in one key. */
  lemma CanonicalInjective(a: UserId, b: UserId, c: UserId, d: UserId)
    ensures Canonical(a, b) == Canonical(c, d) <==> (a == c && b == d) || (a == d && b == c)
  {
  }

  datatype Block = Block(blocker: UserId, blocked: UserId)

  predicate BlockedEitherWay(blocks: set<Block>, a: UserId, b: UserId) {
    Block(a, b) in blocks || Block(b, a) in blocks
  }

  ghost predicate NoDuplicates<T>(q: seq<T>) {
    forall i, j :: 0 <= i < j < |q| ==> q[i] != q[j]
  }

  /** Some element of a set that has one. */
  ghost function Pick<T>(s: set<T>): (x: T)
    requires s != {}
    ensures x in s
  {
    var x :| x in s; x
  }

  lemma {:induction false} SubsetSize<T>(a: set<T>, b: set<T>)
    requires a <= b
    ensures |a| <= |b|
  {
    if a != {} {
      var x := Pick(a);
      SubsetSize(a - {x}, b - {x});
    }
  }
}
