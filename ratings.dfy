// The rating accumulators of dater and cupid profiles: each profile keeps a
// running sum and count of the stars given to it, next to the feedback rows
// that record each rating.

module Ratings {
  import opened Records

  /** One rating of `stars` added to an accumulator. */
  function AddRating(acc: Rating, stars: int): Rating
  {
    Rating(acc.sum + stars, acc.count + 1)
  }

  function Combine(a: Rating, b: Rating): Rating
  {
    Rating(a.sum + b.sum, a.count + b.count)
  }

  /** The accumulator the feedback rows justify for `target`: the sum and
      the number of the stars of the rows that name it. */
  function Tally(ledger: seq<Feedback>, target: UserId): (r: Rating)
    ensures r.count <= |ledger|
  {
    if ledger == [] then Rating(0, 0)
    else
      var t := Tally(ledger[..|ledger| - 1], target);
      var f := ledger[|ledger| - 1];
      if f.target == target then AddRating(t, f.stars) else t
  }

  /** The tally of two stretches of feedback is the sum of their tallies. */
  lemma {:induction false} TallyAppendAll(a: seq<Feedback>, b: seq<Feedback>, target: UserId)
    ensures Tally(a + b, target) == Combine(Tally(a, target), Tally(b, target))
    decreases |b|
  {
    if b == [] {
      assert a + b == a;
    } else {
      var b' := b[..|b| - 1];
      var f := b[|b| - 1];
      assert b == b' + [f];
      assert a + b == (a + b') + [f];
      TallyAppendAll(a, b', target);
      TallyAppend(a + b', f, target);
      TallyAppend(b', f, target);
    }
  }

  /** A profile has no rating exactly when no feedback row names it. */
  lemma {:induction false} TallyZeroIff(ledger: seq<Feedback>, target: UserId)
    ensures Tally(ledger, target).count == 0 <==> forall k :: 0 <= k < |ledger| ==> ledger[k].target != target
    decreases |ledger|
  {
    if ledger != [] {
      var init := ledger[..|ledger| - 1];
      TallyZeroIff(init, target);
      assert forall k :: 0 <= k < |init| ==> init[k] == ledger[k];
    }
  }

  /** Every rating `target` received lies in `lo..hi`. */
  predicate StarsWithin(ledger: seq<Feedback>, target: UserId, lo: int, hi: int)
  {
    forall k :: 0 <= k < |ledger| && ledger[k].target == target ==> lo <= ledger[k].stars <= hi
  }

  /** Ratings within `lo..hi` keep the sum between `lo` and `hi` times the count. */
  lemma {:induction false} TallyBounds(ledger: seq<Feedback>, target: UserId, lo: int, hi: int)
    requires StarsWithin(ledger, target, lo, hi)
    ensures var t := Tally(ledger, target); lo * t.count <= t.sum <= hi * t.count
    decreases |ledger|
  {
    if ledger != [] {
      var init := ledger[..|ledger| - 1];
      assert StarsWithin(init, target, lo, hi) by {
        forall k | 0 <= k < |init| && init[k].target == target ensures lo <= init[k].stars <= hi {
          assert init[k] == ledger[k];
        }
      }
      TallyBounds(init, target, lo, hi);
      var t := Tally(init, target);
      var f := ledger[|ledger| - 1];
      if f.target == target {
        assert lo <= f.stars <= hi;
        MulStep(lo, t.count);
        MulStep(hi, t.count);
      }
    }
  }

  lemma MulStep(x: int, n: nat)
    ensures x * (n + 1) == x * n + x
  {
  }

  /** `rating_sum / rating_count` in exact arithmetic, absent where the
      division raises. */
  function Average(acc: Rating): (r: Option<real>)
    ensures r.Some? <==> acc.count > 0
    ensures r.Some? ==> r.value * acc.count as real == acc.sum as real
  {
    if acc.count == 0 then None else Some(acc.sum as real / acc.count as real)
  }

  /** With one to five stars per rating, as the handlers document, the
      average lies between 1 and 5. */
  lemma AverageWithinStars(ledger: seq<Feedback>, target: UserId)
    requires StarsWithin(ledger, target, 1, 5)
    requires Tally(ledger, target).count > 0
    ensures var a := Average(Tally(ledger, target)); a.Some? && 1.0 <= a.value <= 5.0
  {
    var t := Tally(ledger, target);
    TallyBounds(ledger, target, 1, 5);
    QuotientBounds(t.sum, t.count, 1, 5);
  }

  lemma QuotientBounds(s: int, n: nat, lo: int, hi: int)
    requires n > 0 && lo * n <= s <= hi * n
    ensures lo as real <= s as real / n as real <= hi as real
  {
    var q := s as real / n as real;
    assert q * n as real == s as real;
    assert (lo * n) as real == lo as real * n as real;
    assert (hi * n) as real == hi as real * n as real;
  }

  /** The feedback stored so far and the accumulators of a set of profiles. */
  datatype Book = Book(ledger: seq<Feedback>, accs: map<UserId, Rating>)

  /** Every accumulator is the tally of the feedback that names its profile. */
  predicate Consistent(b: Book)
  {
    forall u :: u in b.accs ==> b.accs[u] == Tally(b.ledger, u)
  }

  /** Tallying one more row changes only the tally of its target. */
  lemma TallyAppend(ledger: seq<Feedback>, f: Feedback, u: UserId)
    ensures Tally(ledger + [f], u) == if f.target == u then AddRating(Tally(ledger, u), f.stars) else Tally(ledger, u)
  {
    assert (ledger + [f])[..|ledger|] == ledger;
  }

  /** A rating saved as the handlers intend: the row is stored and the
      target's accumulator gains it; a target without an accumulator
      (a profile of the other kind) is left alone. */
  function SaveRating(b: Book, f: Feedback): (r: Book)
    ensures r.ledger == b.ledger + [f]
    ensures r.accs.Keys == b.accs.Keys
    ensures forall u :: u in b.accs && u != f.target ==> r.accs[u] == b.accs[u]
    ensures f.target in b.accs ==> r.accs[f.target] == AddRating(b.accs[f.target], f.stars)
    ensures Consistent(b) ==> Consistent(r)
  {
    var accs := if f.target in b.accs then b.accs[f.target := AddRating(b.accs[f.target], f.stars)] else b.accs;
    SaveKeepsTally(b, f, accs);
    Book(b.ledger + [f], accs)
  }

  lemma SaveKeepsTally(b: Book, f: Feedback, accs: map<UserId, Rating>)
    requires accs == if f.target in b.accs then b.accs[f.target := AddRating(b.accs[f.target], f.stars)] else b.accs
    ensures Consistent(b) ==> Consistent(Book(b.ledger + [f], accs))
  {
    if Consistent(b) {
      forall u | u in accs ensures accs[u] == Tally(b.ledger + [f], u) {
        TallyAppend(b.ledger, f, u);
      }
    }
  }

  /** The rate handlers as written: `target` is the integer from the request,
      so `target.rating_count += 1` raises once the row is saved. The row
      stays, no accumulator moves, and the caller gets a server error. */
  function SaveRatingAsWritten(b: Book, f: Feedback): (r: (Book, Reply<Feedback>))
    ensures r.0.ledger == b.ledger + [f] && r.0.accs == b.accs
    ensures r.1.ServerError?
  {
    (Book(b.ledger + [f], b.accs), ServerError)
  }

  /** Saving as written loses the rating from its target's accumulator. */
  lemma AsWrittenLosesRating(b: Book, f: Feedback)
    requires Consistent(b) && f.target in b.accs
    ensures !Consistent(SaveRatingAsWritten(b, f).0)
  {
    TallyAppend(b.ledger, f, f.target);
  }

  /** Which side of a gig a rate handler rates. */
  datatype Side = RateDater | RateCupid

  /** The user id the gig names on that side; `None` where the handler's
      attribute access raises (a gig without a cupid). */
  function RatedParty(side: Side, g: Gig): (r: Option<UserId>)
    ensures side == RateDater ==> r == Some(g.dater)
    ensures side == RateCupid ==> r == g.cupid
  {
    match side
    case RateDater => Some(g.dater)
    case RateCupid => g.cupid
  }

  /** The checks of `rate_dater` / `rate_cupid` before anything is saved: the
      gig must exist (`Gig.objects.get` raises otherwise), the rated party
      must be the gig's, and the feedback must validate. `Success(target)`
      means the row may be saved. */
  function RateCheck(side: Side, gig: Option<Gig>, target: UserId, valid: bool): (r: Reply<UserId>)
    ensures r.Success? <==> gig.Some? && RatedParty(side, gig.value) == Some(target) && valid
    ensures r.Success? ==> r.value == target
    ensures r.ServerError? <==> gig.None? || RatedParty(side, gig.value).None?
    ensures r.Forbidden? <==> gig.Some? && RatedParty(side, gig.value).Some? && RatedParty(side, gig.value) != Some(target)
    ensures r.BadRequest? <==> gig.Some? && RatedParty(side, gig.value) == Some(target) && !valid
    ensures !r.NotFound?
  {
    if gig.None? then ServerError
    else
      match RatedParty(side, gig.value)
      case None => ServerError
      case Some(u) =>
        if u != target then Forbidden
        else if !valid then BadRequest
        else Success(target)
  }

  /** `get_dater_avg_rating`: what the dater lookup resolved to, then the
      quotient, which raises for a dater nobody has rated. */
  function DaterAvgRating(resolved: Reply<Dater>): (r: Reply<real>)
    ensures r.Success? <==> resolved.Success? && resolved.value.rating.count > 0
    ensures r.Success? ==> r.value * resolved.value.rating.count as real == resolved.value.rating.sum as real
    ensures resolved.Success? && resolved.value.rating.count == 0 ==> r.ServerError?
    ensures !resolved.Success? ==> r == Fail(resolved)
  {
    if !resolved.Success? then Fail(resolved)
    else
      match Average(resolved.value.rating)
      case None => ServerError
      case Some(a) => Success(a)
  }

  /** `get_cupid_avg_rating`: the cupid lookup, then not-found when no
      feedback names the cupid, then the quotient. */
  function CupidAvgRating(resolved: Reply<(UserId, Cupid)>, ledger: seq<Feedback>): (r: Reply<real>)
    ensures r.NotFound? <==> resolved.NotFound? || (resolved.Success? && forall k :: 0 <= k < |ledger| ==> ledger[k].target != resolved.value.0)
    ensures r.Success? ==> resolved.Success? && r.value * resolved.value.1.rating.count as real == resolved.value.1.rating.sum as real
    ensures resolved.Success? && resolved.value.1.rating.count == 0 ==> !r.Success?
    ensures !resolved.Success? ==> r == Fail(resolved)
    ensures resolved.Success? && (exists k :: 0 <= k < |ledger| && ledger[k].target == resolved.value.0) ==>
              var acc := resolved.value.1.rating;
              r == if acc.count > 0 then Success(acc.sum as real / acc.count as real) else ServerError
  {
    if !resolved.Success? then Fail(resolved)
    else
      var (id, c) := resolved.value;
      if forall k :: 0 <= k < |ledger| ==> ledger[k].target != id then NotFound
      else
        match Average(c.rating)
        case None => ServerError
        case Some(a) => Success(a)
  }

  /** With a consistent accumulator the cupid average never raises: it is
      either not-found or the average of the stored ratings. */
  lemma CupidAverageOfLedger(id: UserId, c: Cupid, ledger: seq<Feedback>)
    requires c.rating == Tally(ledger, id)
    ensures var r := CupidAvgRating(Success((id, c)), ledger);
            (r.NotFound? <==> Tally(ledger, id).count == 0)
            && (r.Success? <==> Tally(ledger, id).count > 0)
            && (r.Success? ==> Some(r.value) == Average(Tally(ledger, id)))
  {
    TallyZeroIff(ledger, id);
  }

  /** The dater variant has no such guard: a consistent but never-rated
      dater makes it raise. */
  lemma UnratedDaterAverageFails(d: Dater, ledger: seq<Feedback>, id: UserId)
    requires d.rating == Tally(ledger, id)
    requires forall k :: 0 <= k < |ledger| ==> ledger[k].target != id
    ensures DaterAvgRating(Success(d)).ServerError?
  {
    TallyZeroIff(ledger, id);
  }
}
