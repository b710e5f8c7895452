// The records the request handlers of the cupid backend read and write,
// lifted out of the object-relational mapper: each table row is a value.

module Records {

  datatype Option<T> = None | Some(value: T)

  /** The outcome of a handler, by HTTP status class. `ServerError` stands for
      an exception that no handler catches (Django answers 500). The 200/201
      distinction is not kept. */
  datatype Reply<T> = Success(value: T) | BadRequest | Forbidden | NotFound | ServerError

  /** Carries a failed reply over to another payload type. */
  function Fail<A, B>(r: Reply<A>): (s: Reply<B>)
    requires !r.Success?
    ensures s.BadRequest? == r.BadRequest? && s.Forbidden? == r.Forbidden?
    ensures s.NotFound? == r.NotFound? && s.ServerError? == r.ServerError?
  {
    match r
    case BadRequest => BadRequest
    case Forbidden => Forbidden
    case NotFound => NotFound
    case ServerError => ServerError
  }

  /** Primary keys: the route patterns `<int:...>` only match digits. */
  type UserId = nat
  type GigId = nat
  type QuestId = nat

  /** An instant, as `make_aware(datetime.now())` yields it; handlers receive it. */
  type Time = int

  datatype Role = DaterRole | CupidRole | ManagerRole

  datatype User = User(username: string, email: string, role: Role, isStaff: bool)

  /** The gig status as the schema's integer choices declare it. */
  datatype GigStatus = Unclaimed | Claimed | Complete | Dropped

  function StatusCode(s: GigStatus): (c: nat)
    ensures c <= 3
    ensures c == 0 <==> s == Unclaimed
  {
    match s
    case Unclaimed => 0
    case Claimed => 1
    case Complete => 2
    case Dropped => 3
  }

  function StatusOfCode(c: int): (r: Option<GigStatus>)
    ensures r.Some? <==> 0 <= c <= 3
  {
    if c == 0 then Some(Unclaimed)
    else if c == 1 then Some(Claimed)
    else if c == 2 then Some(Complete)
    else if c == 3 then Some(Dropped)
    else None
  }

  /** The codes and the statuses are in one-to-one correspondence. */
  lemma StatusCodeRoundTrip(s: GigStatus, c: int)
    ensures StatusOfCode(StatusCode(s)) == Some(s)
    ensures StatusOfCode(c) == Some(s) ==> StatusCode(s) == c
  {
  }

  /** A quest: what the dater asks for. Budgets are decimals with two places. */
  datatype Quest = Quest(budget: real, itemsRequested: string, pickupLocation: string)

  /** A gig row. `dater` and `cupid` hold the user id of the profile, which is
      the profile's primary key; `cupid` is nullable. */
  datatype Gig = Gig(
    status: GigStatus,
    dater: UserId,
    quest: QuestId,
    cupid: Option<UserId>,
    requestTime: Time,
    claimTime: Option<Time>,
    completionTime: Option<Time>,
    acceptedCount: nat,
    droppedCount: nat)

  /** The running rating accumulators of a profile. */
  datatype Rating = Rating(sum: int, count: nat)

  datatype Dater = Dater(location: string, budget: real, suspended: bool, rating: Rating)

  datatype Cupid = Cupid(location: string, gigRange: int, rating: Rating)

  /** A feedback row: who rated (`owner`), who is rated (`target`), on which gig. */
  datatype Feedback = Feedback(owner: UserId, target: UserId, gig: GigId, message: string, stars: int, time: Time)

  /** A chat message row; its id is its key in the message table. */
  datatype Message = Message(owner: UserId, text: string, fromAi: bool)

  /** A framework session row: its expiry and the `_auth_user_id` its decoded data holds, if any. */
  datatype Session = Session(expireDate: Time, authUser: Option<UserId>)
}
