// The tables the gig and rating handlers of `views.py` read and update,
// held in memory. Each handler is a method; the new row it writes is the
// value the pure functions of GigLifecycle and Ratings compute.

module GigStore {
  import opened Records
  import opened GigLifecycle
  import opened Matching
  import Ratings

  class Store {
    var gigs: map<GigId, Gig>
    var quests: map<QuestId, Quest>
    var daters: map<UserId, Dater>
    var cupids: map<UserId, Cupid>
    /** The feedback table in insertion order. */
    var feedback: seq<Feedback>
    /** The next primary keys the database hands out. */
    var nextGigId: nat
    var nextQuestId: nat

    /** Referential integrity: keys below the id counters, every gig names a
        stored quest and dater, and its cupid, if any, is a stored cupid. A
        user has at most one of the two profiles. */
    ghost predicate Valid()
      reads this
    {
      (forall id :: id in gigs ==> id < nextGigId)
      && (forall q :: q in quests ==> q < nextQuestId)
      && (forall id :: id in gigs ==> GigRefsKnown(gigs[id]))
      && daters.Keys !! cupids.Keys
    }

    ghost predicate GigRefsKnown(g: Gig)
      reads this
    {
      g.quest in quests && g.dater in daters && (g.cupid.Some? ==> g.cupid.value in cupids)
    }

    ghost function DaterRatings(): map<UserId, Rating>
      reads this
    {
      map u | u in daters :: daters[u].rating
    }

    ghost function CupidRatings(): map<UserId, Rating>
      reads this
    {
      map u | u in cupids :: cupids[u].rating
    }

    /** Every profile's accumulators are the tally of the feedback naming it. */
    ghost predicate LedgerConsistent()
      reads this
    {
      Ratings.Consistent(Ratings.Book(feedback, DaterRatings()))
      && Ratings.Consistent(Ratings.Book(feedback, CupidRatings()))
    }

    /** A fresh database holding the given, not yet rated, profiles. */
    constructor (ds: map<UserId, Dater>, cs: map<UserId, Cupid>)
      requires ds.Keys !! cs.Keys
      requires forall u :: u in ds ==> ds[u].rating == Rating(0, 0)
      requires forall u :: u in cs ==> cs[u].rating == Rating(0, 0)
      ensures Valid() && LedgerConsistent()
      ensures daters == ds && cupids == cs
      ensures gigs == map[] && quests == map[] && feedback == []
      ensures nextGigId == 0 && nextQuestId == 0
    {
      gigs := map[];
      quests := map[];
      daters := ds;
      cupids := cs;
      feedback := [];
      nextGigId := 0;
      nextQuestId := 0;
    }

    /** `create_gig`: the caller's dater profile must exist; the quest is saved
        first and stays saved even when the gig then fails to validate. */
    method CreateGig(caller: UserId, quest: Quest, questValid: bool, gigValid: bool, now: Time) returns (r: Reply<GigId>)
      requires Valid()
      modifies this
      ensures Valid()
      ensures daters == old(daters) && cupids == old(cupids) && feedback == old(feedback)
      ensures caller !in daters ==> r.NotFound? && gigs == old(gigs) && quests == old(quests)
      ensures caller in daters && !questValid ==> r.BadRequest? && gigs == old(gigs) && quests == old(quests)
      ensures caller in daters && questValid ==>
                quests == old(quests)[old(nextQuestId) := quest]
                && (gigValid ==> r == Success(old(nextGigId)) && gigs == old(gigs)[old(nextGigId) := NewGig(caller, old(nextQuestId), now)])
                && (!gigValid ==> r.BadRequest? && gigs == old(gigs))
      ensures r.Success? ==> r.value !in old(gigs)
      ensures nextGigId == old(nextGigId) + (if r.Success? then 1 else 0)
      ensures nextQuestId == old(nextQuestId) + (if caller in daters && questValid then 1 else 0)
      ensures LedgerConsistent() <==> old(LedgerConsistent())
    {
      if caller !in daters {
        return NotFound;
      }
      if !questValid {
        return BadRequest;
      }
      var q := nextQuestId;
      quests := quests[q := quest];
      nextQuestId := nextQuestId + 1;
      if !gigValid {
        return BadRequest;
      }
      var id := nextGigId;
      gigs := gigs[id := NewGig(caller, q, now)];
      nextGigId := nextGigId + 1;
      r := Success(id);
    }

    /** `accept_gig`: any caller may accept any stored gig, whatever its
        status. Validation of the new row includes the cupid key naming a
        stored cupid profile. */
    method AcceptGig(caller: UserId, gigId: GigId, valid: bool, now: Time) returns (r: Reply<GigId>)
      requires Valid()
      modifies this
      ensures Valid()
      ensures quests == old(quests) && daters == old(daters) && cupids == old(cupids) && feedback == old(feedback)
      ensures nextGigId == old(nextGigId) && nextQuestId == old(nextQuestId)
      ensures gigId !in old(gigs) ==> r.NotFound? && gigs == old(gigs)
      ensures gigId in old(gigs) && !(valid && caller in cupids) ==> r.BadRequest? && gigs == old(gigs)
      ensures gigId in old(gigs) && valid && caller in cupids ==>
                r == Success(gigId) && gigs == old(gigs)[gigId := Accept(old(gigs)[gigId], caller, now)]
      ensures LedgerConsistent() <==> old(LedgerConsistent())
    {
      if gigId !in gigs {
        return NotFound;
      }
      if !(valid && caller in cupids) {
        return BadRequest;
      }
      gigs := gigs[gigId := Accept(gigs[gigId], caller, now)];
      r := Success(gigId);
    }

    /** `complete_gig`: any caller, any stored gig, any prior status. */
    method CompleteGig(gigId: GigId, valid: bool, now: Time) returns (r: Reply<GigId>)
      requires Valid()
      modifies this
      ensures Valid()
      ensures quests == old(quests) && daters == old(daters) && cupids == old(cupids) && feedback == old(feedback)
      ensures nextGigId == old(nextGigId) && nextQuestId == old(nextQuestId)
      ensures gigId !in old(gigs) ==> r.NotFound? && gigs == old(gigs)
      ensures gigId in old(gigs) && !valid ==> r.BadRequest? && gigs == old(gigs)
      ensures gigId in old(gigs) && valid ==> r == Success(gigId) && gigs == old(gigs)[gigId := Finish(old(gigs)[gigId], now)]
      ensures LedgerConsistent() <==> old(LedgerConsistent())
    {
      if gigId !in gigs {
        return NotFound;
      }
      if !valid {
        return BadRequest;
      }
      gigs := gigs[gigId := Finish(gigs[gigId], now)];
      r := Success(gigId);
    }

    /** `drop_gig`: the gig must exist, then the caller's cupid profile is
        read (a caller without one makes the handler raise), then the gig's
        cupid must be that profile. */
    method DropGig(caller: UserId, gigId: GigId, valid: bool) returns (r: Reply<GigId>)
      requires Valid()
      modifies this
      ensures Valid()
      ensures quests == old(quests) && daters == old(daters) && cupids == old(cupids) && feedback == old(feedback)
      ensures nextGigId == old(nextGigId) && nextQuestId == old(nextQuestId)
      ensures !r.Success? ==> gigs == old(gigs)
      ensures r.NotFound? <==> gigId !in old(gigs)
      ensures r.ServerError? <==> gigId in old(gigs) && caller !in cupids
      ensures r.Forbidden? <==> gigId in old(gigs) && caller in cupids && !MayDrop(old(gigs)[gigId], caller)
      ensures r.Success? <==> gigId in old(gigs) && caller in cupids && MayDrop(old(gigs)[gigId], caller) && valid
      ensures r.Success? ==> r.value == gigId && gigs == old(gigs)[gigId := Drop(old(gigs)[gigId])]
      ensures LedgerConsistent() <==> old(LedgerConsistent())
    {
      if gigId !in gigs {
        return NotFound;
      }
      if caller !in cupids {
        return ServerError;
      }
      var g := gigs[gigId];
      if !MayDrop(g, caller) {
        return Forbidden;
      }
      if !valid {
        return BadRequest;
      }
      gigs := gigs[gigId := Drop(g)];
      r := Success(gigId);
    }

    /** `get_gigs`: the nearby unclaimed gigs of cupid `pk`, at most `count`,
        in ascending id order. A `pk` without a cupid profile makes
        `Cupid.objects.get` raise. */
    method GetGigs(pk: UserId, count: nat, near: Near) returns (r: Reply<seq<Row>>)
      requires Valid()
      ensures pk !in cupids ==> r.ServerError?
      ensures pk in cupids ==> r == Success(GigsFor(gigs, nextGigId, quests, cupids[pk], near, count))
    {
      if pk !in cupids {
        return ServerError;
      }
      var c := cupids[pk];
      var found: seq<Row> := [];
      var id := 0;
      while id < nextGigId
        invariant 0 <= id <= nextGigId
        invariant found == NearGigs(IdOrder(gigs, id), quests, c, near)
      {
        var next: seq<Row> := if id in gigs then [(id, gigs[id])] else [];
        NearGigsAppend(IdOrder(gigs, id), next, quests, c, near);
        if id in gigs {
          var g := gigs[id];
          assert GigRefsKnown(g);
          if g.status == Unclaimed && near(quests[g.quest].pickupLocation, c.location, c.gigRange) {
            found := found + [(id, g)];
          }
        }
        assert IdOrder(gigs, id + 1) == IdOrder(gigs, id) + next;
        id := id + 1;
      }
      r := Success(Take(found, count));
    }

    /** `rate_dater` as intended: the gig's dater must be the target; the
        feedback row is stored and the target's accumulators gain the rating. */
    method RateDater(caller: UserId, target: UserId, gigId: GigId, message: string, stars: int, valid: bool, now: Time)
      returns (r: Reply<Feedback>)
      requires Valid()
      modifies this
      ensures Valid()
      ensures gigs == old(gigs) && quests == old(quests) && cupids == old(cupids)
      ensures nextGigId == old(nextGigId) && nextQuestId == old(nextQuestId)
      ensures var check := Ratings.RateCheck(Ratings.RateDater, if gigId in gigs then Some(gigs[gigId]) else None, target, valid);
              (!check.Success? ==> r == Fail(check) && feedback == old(feedback) && daters == old(daters))
              && (check.Success? ==>
                    target in old(daters)
                    && r == Success(Feedback(caller, target, gigId, message, stars, now))
                    && feedback == old(feedback) + [r.value]
                    && daters == old(daters)[target := old(daters)[target].(rating := Ratings.AddRating(old(daters)[target].rating, stars))])
      ensures old(LedgerConsistent()) ==> LedgerConsistent()
    {
      var gig := if gigId in gigs then Some(gigs[gigId]) else None;
      var check := Ratings.RateCheck(Ratings.RateDater, gig, target, valid);
      if !check.Success? {
        return Fail(check);
      }
      assert GigRefsKnown(gigs[gigId]);
      var f := Feedback(caller, target, gigId, message, stars, now);
      ghost var oldBook := Ratings.Book(feedback, DaterRatings());
      ghost var otherBook := Ratings.Book(feedback, CupidRatings());
      var d := daters[target];
      feedback := feedback + [f];
      daters := daters[target := d.(rating := Ratings.AddRating(d.rating, stars))];
      assert DaterRatings() == Ratings.SaveRating(oldBook, f).accs;
      assert CupidRatings() == Ratings.SaveRating(otherBook, f).accs;
      r := Success(f);
    }

    /** `rate_cupid` as intended: the gig's cupid must be the target (a gig
        without a cupid makes the handler raise). */
    method RateCupid(caller: UserId, target: UserId, gigId: GigId, message: string, stars: int, valid: bool, now: Time)
      returns (r: Reply<Feedback>)
      requires Valid()
      modifies this
      ensures Valid()
      ensures gigs == old(gigs) && quests == old(quests) && daters == old(daters)
      ensures nextGigId == old(nextGigId) && nextQuestId == old(nextQuestId)
      ensures var check := Ratings.RateCheck(Ratings.RateCupid, if gigId in gigs then Some(gigs[gigId]) else None, target, valid);
              (!check.Success? ==> r == Fail(check) && feedback == old(feedback) && cupids == old(cupids))
              && (check.Success? ==>
                    target in old(cupids)
                    && r == Success(Feedback(caller, target, gigId, message, stars, now))
                    && feedback == old(feedback) + [r.value]
                    && cupids == old(cupids)[target := old(cupids)[target].(rating := Ratings.AddRating(old(cupids)[target].rating, stars))])
      ensures old(LedgerConsistent()) ==> LedgerConsistent()
    {
      var gig := if gigId in gigs then Some(gigs[gigId]) else None;
      var check := Ratings.RateCheck(Ratings.RateCupid, gig, target, valid);
      if !check.Success? {
        return Fail(check);
      }
      assert GigRefsKnown(gigs[gigId]);
      var f := Feedback(caller, target, gigId, message, stars, now);
      ghost var oldBook := Ratings.Book(feedback, CupidRatings());
      ghost var otherBook := Ratings.Book(feedback, DaterRatings());
      var c := cupids[target];
      feedback := feedback + [f];
      cupids := cupids[target := c.(rating := Ratings.AddRating(c.rating, stars))];
      assert CupidRatings() == Ratings.SaveRating(oldBook, f).accs;
      assert DaterRatings() == Ratings.SaveRating(otherBook, f).accs;
      r := Success(f);
    }
  }
}

// One gig from request to rating, through the handlers in the order a dater
// and a cupid call them.
module GigScenario {
  import opened Records
  import opened GigLifecycle
  import opened Matching
  import Ratings
  import opened GigStore

  /** Dater 1 asks for flowers, cupid 2 near the pickup finds the gig, accepts
      and completes it, and the dater gives five stars: the cupid's average
      becomes 5. The accepted gig is still listed, being still Unclaimed. */
  method FlowersRun() returns (listedAfterAccept: seq<Row>, finalStatus: GigStatus, average: Option<real>)
    ensures |listedAfterAccept| == 1 && listedAfterAccept[0].1.cupid == Some(2)
    ensures finalStatus == Complete
    ensures average == Some(5.0)
  {
    var s := new Store(map[1 := Dater("Logan", 50.0, false, Rating(0, 0))], map[2 := Cupid("Logan", 10, Rating(0, 0))]);
    var created := s.CreateGig(1, Quest(50.0, "flowers", "123 Main St"), true, true, 100);
    var accepted := s.AcceptGig(2, 0, true, 110);
    listedAfterAccept := ListEverything(s);
    finalStatus, average := CompleteAndRate(s);
  }

  /** A cupid for whom every location is near sees the accepted gig. */
  method ListEverything(s: Store) returns (rows: seq<Row>)
    requires s.Valid() && 2 in s.cupids && s.nextGigId == 1
    requires s.gigs.Keys == {0} && s.gigs[0].status == Unclaimed && s.gigs[0].cupid == Some(2)
    ensures |rows| == 1 && rows[0].1.cupid == Some(2)
  {
    var near: Near := (pickup: string, location: string, range: int) => true;
    var r := s.GetGigs(2, 5, near);
    ListedAlone(s.gigs, s.quests, s.cupids[2], near, s.gigs[0]);
    rows := r.value;
  }

  lemma ListedAlone(gigs: map<GigId, Gig>, quests: map<QuestId, Quest>, c: Cupid, near: Near, g: Gig)
    requires gigs.Keys == {0} && gigs[0] == g && Listable(g, quests, c, near)
    ensures GigsFor(gigs, 1, quests, c, near, 5) == [(0, g)]
  {
    assert IdOrder(gigs, 0) == [];
    assert IdOrder(gigs, 1) == [(0, g)];
    assert NearGigs([(0, g)], quests, c, near) == [(0, g)] by {
      assert [(0, g)][..0] == [];
    }
  }

  /** The gig is completed and the dater rates its cupid five stars. */
  method CompleteAndRate(s: Store) returns (status: GigStatus, average: Option<real>)
    requires s.Valid() && 0 in s.gigs && s.gigs[0].cupid == Some(2)
    requires 2 in s.cupids && s.cupids[2].rating == Rating(0, 0)
    modifies s
    ensures status == Complete && average == Some(5.0)
  {
    var completed := s.CompleteGig(0, true, 120);
    status := s.gigs[0].status;
    var rated := s.RateCupid(1, 2, 0, "great", 5, true, 130);
    average := Ratings.Average(s.cupids[2].rating);
  }
}
