// What the gig handlers write into one gig row. Each function is the new
// row the handler's serializer saves; the store applies them.

module GigLifecycle {
  import opened Records

  /** The row `create_gig` saves: unclaimed, no cupid, both counters zero.
      The request time is not in the handler's data; the row takes the
      instant of creation. */
  function NewGig(dater: UserId, quest: QuestId, now: Time): (g: Gig)
    ensures g.status == Unclaimed && g.cupid == None
    ensures g.acceptedCount == 0 && g.droppedCount == 0
    ensures g.dater == dater && g.quest == quest
    ensures g.requestTime == now && g.claimTime == None && g.completionTime == None
  {
    Gig(Unclaimed, dater, quest, None, now, None, None, 0, 0)
  }

  /** The fields a handler leaves alone besides those it names. */
  predicate SameOrigin(a: Gig, b: Gig)
  {
    a.dater == b.dater && a.quest == b.quest && a.requestTime == b.requestTime
  }

  /** `accept_gig`: the caller becomes the cupid, the accept counter goes up by
      one and the claim time is set. The status is NOT touched: the handler's
      `is_accepted` key names no column of the gig. */
  function Accept(g: Gig, cupid: UserId, now: Time): (r: Gig)
    ensures r.cupid == Some(cupid) && r.acceptedCount == g.acceptedCount + 1 && r.claimTime == Some(now)
    ensures r.status == g.status && r.droppedCount == g.droppedCount && r.completionTime == g.completionTime
    ensures SameOrigin(r, g)
  {
    g.(cupid := Some(cupid), acceptedCount := g.acceptedCount + 1, claimTime := Some(now))
  }

  /** `complete_gig`: status Complete and the completion time set, from any status. */
  function Finish(g: Gig, now: Time): (r: Gig)
    ensures r.status == Complete && r.completionTime == Some(now)
    ensures r.cupid == g.cupid && r.claimTime == g.claimTime
    ensures r.acceptedCount == g.acceptedCount && r.droppedCount == g.droppedCount
    ensures SameOrigin(r, g)
  {
    g.(status := Complete, completionTime := Some(now))
  }

  /** The guard of `drop_gig`: the gig's cupid is the caller's cupid profile.
      A gig without a cupid never passes it. */
  predicate MayDrop(g: Gig, caller: UserId)
  {
    g.cupid == Some(caller)
  }

  /** `drop_gig` past its guard: the gig is re-opened, not set to Dropped. */
  function Drop(g: Gig): (r: Gig)
    ensures r.status == Unclaimed && r.cupid == None && r.droppedCount == g.droppedCount + 1
    ensures r.acceptedCount == g.acceptedCount && r.claimTime == g.claimTime && r.completionTime == g.completionTime
    ensures SameOrigin(r, g)
  {
    g.(status := Unclaimed, cupid := None, droppedCount := g.droppedCount + 1)
  }

  /** No handler ever writes the Dropped status. */
  lemma NothingWritesDropped(g: Gig, d: UserId, q: QuestId, c: UserId, now: Time)
    ensures NewGig(d, q, now).status != Dropped
    ensures g.status != Dropped ==> Accept(g, c, now).status != Dropped
    ensures Finish(g, now).status != Dropped && Drop(g).status != Dropped
  {
  }

  /** The intended pairing of cupid and status: a cupid exactly when claimed or complete. */
  predicate ClaimConsistent(g: Gig)
  {
    g.cupid.Some? <==> g.status in {Claimed, Complete}
  }

  /** Accepting a fresh gig leaves it Unclaimed with a cupid, against the
      intended pairing; a second accept then simply replaces the cupid. */
  lemma AcceptLeavesUnclaimed(g: Gig, c1: UserId, c2: UserId, t1: Time, t2: Time)
    requires g.status == Unclaimed
    ensures !ClaimConsistent(Accept(g, c1, t1))
    ensures var twice := Accept(Accept(g, c1, t1), c2, t2);
            twice.cupid == Some(c2) && twice.status == Unclaimed && twice.acceptedCount == g.acceptedCount + 2
  {
  }

  /** The cupid who accepted may drop; dropping re-opens the gig and keeps the accept count. */
  lemma DropAfterAccept(g: Gig, c: UserId, now: Time)
    ensures MayDrop(Accept(g, c, now), c)
    ensures var r := Drop(Accept(g, c, now));
            r.status == Unclaimed && r.cupid == None && r.droppedCount == g.droppedCount + 1
            && r.acceptedCount == g.acceptedCount + 1 && r.claimTime == Some(now)
  {
  }
}
