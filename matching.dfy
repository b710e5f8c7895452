// The selection `get_gigs` makes for a cupid: unclaimed gigs whose pickup
// location is near the cupid, in table order, cut to the requested count.

module Matching {
  import opened Records
  import opened PyText
  import GigLifecycle

  /** `locations_are_near(pickup, location, range)`; its definition is not
      part of this model, so it is a parameter of every selection. */
  type Near = (string, string, int) -> bool

  /** A gig row as the handler iterates it: its id and its fields. */
  type Row = (GigId, Gig)

  /** The test the loop of `get_gigs` applies to one gig. */
  predicate Listable(g: Gig, quests: map<QuestId, Quest>, c: Cupid, near: Near)
  {
    g.status == Unclaimed && g.quest in quests && near(quests[g.quest].pickupLocation, c.location, c.gigRange)
  }

  /** The rows the loop appends to `near_gigs`, in the order it meets them. */
  function NearGigs(rows: seq<Row>, quests: map<QuestId, Quest>, c: Cupid, near: Near): (r: seq<Row>)
    ensures |r| <= |rows|
    ensures forall k :: 0 <= k < |r| ==> Listable(r[k].1, quests, c, near)
    ensures forall k :: 0 <= k < |r| ==> r[k] in rows
  {
    if rows == [] then []
    else
      var init := NearGigs(rows[..|rows| - 1], quests, c, near);
      var last := rows[|rows| - 1];
      if Listable(last.1, quests, c, near) then init + [last] else init
  }

  /** Nothing listable is missed. */
  lemma {:induction false} NearGigsComplete(rows: seq<Row>, quests: map<QuestId, Quest>, c: Cupid, near: Near, k: nat)
    requires k < |rows| && Listable(rows[k].1, quests, c, near)
    ensures rows[k] in NearGigs(rows, quests, c, near)
    decreases |rows|
  {
    if k < |rows| - 1 {
      NearGigsComplete(rows[..|rows| - 1], quests, c, near, k);
    }
  }

  /** Selection distributes over concatenation: it keeps the relative order of the rows. */
  lemma {:induction false} NearGigsAppend(a: seq<Row>, b: seq<Row>, quests: map<QuestId, Quest>, c: Cupid, near: Near)
    ensures NearGigs(a + b, quests, c, near) == NearGigs(a, quests, c, near) + NearGigs(b, quests, c, near)
    decreases |b|
  {
    if b == [] {
      assert a + b == a;
    } else {
      var b' := b[..|b| - 1];
      assert (a + b)[..|a + b| - 1] == a + b';
      NearGigsAppend(a, b', quests, c, near);
    }
  }

  /** `s[:count]` with a non-negative count. */
  function Take<T(==)>(s: seq<T>, count: nat): (r: seq<T>)
    ensures |r| == if count < |s| then count else |s|
    ensures IsPrefixOf(r, s)
    ensures count >= |s| ==> r == s
  {
    if count < |s| then s[..count] else s
  }

  /** The gigs with an id below `hi`, in ascending id order: the order the
      model fixes for `Gig.objects.all()`. */
  function IdOrder(gigs: map<GigId, Gig>, hi: nat): (rows: seq<Row>)
    ensures forall k :: 0 <= k < |rows| ==> rows[k].0 < hi && rows[k].0 in gigs && gigs[rows[k].0] == rows[k].1
    ensures forall k, l :: 0 <= k < l < |rows| ==> rows[k].0 < rows[l].0
  {
    if hi == 0 then []
    else IdOrder(gigs, hi - 1) + (if hi - 1 in gigs then [(hi - 1, gigs[hi - 1])] else [])
  }

  /** Every gig with an id below `hi` is among the rows. */
  lemma {:induction false} IdOrderComplete(gigs: map<GigId, Gig>, hi: nat, id: GigId)
    requires id < hi && id in gigs
    ensures (id, gigs[id]) in IdOrder(gigs, hi)
    decreases hi
  {
    if id < hi - 1 {
      IdOrderComplete(gigs, hi - 1, id);
    }
  }

  /** What `get_gigs` answers for a known cupid. */
  function GigsFor(gigs: map<GigId, Gig>, hi: nat, quests: map<QuestId, Quest>, c: Cupid, near: Near, count: nat): (r: seq<Row>)
    ensures |r| <= count
    ensures forall k :: 0 <= k < |r| ==> Listable(r[k].1, quests, c, near) && r[k].0 in gigs && gigs[r[k].0] == r[k].1
    ensures IsPrefixOf(r, NearGigs(IdOrder(gigs, hi), quests, c, near))
    ensures var all := NearGigs(IdOrder(gigs, hi), quests, c, near); |r| == if count < |all| then count else |all|
  {
    var all := NearGigs(IdOrder(gigs, hi), quests, c, near);
    var r := Take(all, count);
    assert forall k :: 0 <= k < |r| ==> r[k] == all[k];
    assert forall k :: 0 <= k < |r| ==> r[k] in IdOrder(gigs, hi);
    r
  }

  /** With room to spare, every listable gig is returned. */
  lemma GigsForAllWhenRoom(gigs: map<GigId, Gig>, hi: nat, quests: map<QuestId, Quest>, c: Cupid, near: Near, count: nat, id: GigId)
    requires id < hi && id in gigs && Listable(gigs[id], quests, c, near)
    requires count >= hi
    ensures (id, gigs[id]) in GigsFor(gigs, hi, quests, c, near, count)
  {
    var rows := IdOrder(gigs, hi);
    IdOrderComplete(gigs, hi, id);
    var k :| 0 <= k < |rows| && rows[k] == (id, gigs[id]);
    NearGigsComplete(rows, quests, c, near, k);
    IdOrderLength(gigs, hi);
  }

  lemma {:induction false} IdOrderLength(gigs: map<GigId, Gig>, hi: nat)
    ensures |IdOrder(gigs, hi)| <= hi
    decreases hi
  {
    if hi > 0 {
      IdOrderLength(gigs, hi - 1);
    }
  }

  /** An accepted gig keeps the Unclaimed status, so it is still offered to
      every nearby cupid. */
  lemma AcceptedGigStillListed(g: Gig, quests: map<QuestId, Quest>, c: Cupid, near: Near, taker: UserId, now: Time)
    requires Listable(g, quests, c, near)
    ensures Listable(GigLifecycle.Accept(g, taker, now), quests, c, near)
  {
  }

  /** A dropped gig is offered again wherever its pickup location is near. */
  lemma DroppedGigListedAgain(g: Gig, quests: map<QuestId, Quest>, c: Cupid, near: Near)
    requires g.quest in quests && near(quests[g.quest].pickupLocation, c.location, c.gigRange)
    ensures Listable(GigLifecycle.Drop(g), quests, c, near)
  {
  }

  /** A completed gig is never offered. */
  lemma CompletedGigNotListed(g: Gig, quests: map<QuestId, Quest>, c: Cupid, near: Near, now: Time)
    ensures !Listable(GigLifecycle.Finish(g, now), quests, c, near)
  {
  }
}
