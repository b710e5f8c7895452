// `get_five_messages`: the caller's latest chat messages, newest first.

module Messages {
  import opened Records
  import Access

  /** The message table, by id; every id is below `hi`. */
  type Table = map<nat, Message>

  /** The first `n` messages of `owner`, scanning the ids below `hi` from
      the largest down: the query `filter(owner=...).order_by('-id')[:n]`. */
  function Recent(table: Table, owner: UserId, hi: nat, n: nat): (r: seq<(nat, Message)>)
    ensures |r| <= n
    ensures forall k :: 0 <= k < |r| ==> r[k].0 < hi && r[k].0 in table && table[r[k].0] == r[k].1 && r[k].1.owner == owner
    ensures forall k, l :: 0 <= k < l < |r| ==> r[k].0 > r[l].0
    decreases hi
  {
    if hi == 0 || n == 0 then []
    else
      var id := hi - 1;
      if id in table && table[id].owner == owner then [(id, table[id])] + Recent(table, owner, id, n - 1)
      else Recent(table, owner, id, n)
  }

  /** A message of `owner` that is left out is older than all `n` returned:
      the result is full and holds only newer ids. */
  lemma {:induction false} RecentAreNewest(table: Table, owner: UserId, hi: nat, n: nat, id: nat)
    requires id < hi && id in table && table[id].owner == owner
    requires (id, table[id]) !in Recent(table, owner, hi, n)
    ensures |Recent(table, owner, hi, n)| == n
    ensures forall k :: 0 <= k < n ==> Recent(table, owner, hi, n)[k].0 > id
    decreases hi
  {
    var top := hi - 1;
    if n > 0 && id < top {
      if top in table && table[top].owner == owner {
        var rest := Recent(table, owner, top, n - 1);
        assert Recent(table, owner, hi, n) == [(top, table[top])] + rest;
        RecentAreNewest(table, owner, top, n - 1, id);
      } else {
        RecentAreNewest(table, owner, top, n, id);
      }
    }
  }

  /** The handler: the self-only guard, then the user lookup. The query
      itself never raises, so its `DoesNotExist` branch is unreachable. */
  function GetFiveMessages(pk: UserId, caller: UserId, users: set<UserId>, table: Table, hi: nat): (r: Reply<seq<(nat, Message)>>)
    requires forall i :: i in table ==> i < hi
    ensures r.Forbidden? <==> !Access.MayActOnSelfOnly(pk, caller)
    ensures r.NotFound? <==> pk == caller && pk !in users
    ensures r.Success? ==> r.value == Recent(table, caller, hi, 5)
    ensures r.Success? ==> |r.value| <= 5 && forall k :: 0 <= k < |r.value| ==> r.value[k].1.owner == caller
    ensures !r.BadRequest? && !r.ServerError?
  {
    if !Access.MayActOnSelfOnly(pk, caller) then Forbidden
    else if pk !in users then NotFound
    else Success(Recent(table, pk, hi, 5))
  }

  /** A user with at most five messages gets all of them. */
  lemma FewMessagesAllReturned(table: Table, owner: UserId, hi: nat, id: nat)
    requires id < hi && id in table && table[id].owner == owner
    requires |set i | i in table && i < hi && table[i].owner == owner| <= 5
    ensures (id, table[id]) in Recent(table, owner, hi, 5)
  {
    if (id, table[id]) !in Recent(table, owner, hi, 5) {
      RecentAreNewest(table, owner, hi, 5, id);
      var r := Recent(table, owner, hi, 5);
      var ids := set k | 0 <= k < 5 :: r[k].0;
      var owned := set i | i in table && i < hi && table[i].owner == owner;
      assert ids <= owned;
      assert id in owned && id !in ids;
      DistinctIds(r);
      assert |ids + {id}| == 6;
      assert ids + {id} <= owned;
      SubsetCard(ids + {id}, owned);
    }
  }

  lemma DistinctIds(r: seq<(nat, Message)>)
    requires |r| == 5
    requires forall k, l :: 0 <= k < l < |r| ==> r[k].0 > r[l].0
    ensures |set k | 0 <= k < 5 :: r[k].0| == 5
  {
    var ids := set k | 0 <= k < 5 :: r[k].0;
    assert ids == {r[0].0, r[1].0, r[2].0, r[3].0, r[4].0};
  }

  lemma SubsetCard(a: set<nat>, b: set<nat>)
    requires a <= b
    ensures |a| <= |b|
  {
    if a != {} {
      var x :| x in a;
      SubsetCard(a - {x}, b - {x});
    }
  }
}
