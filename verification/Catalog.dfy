/** The listing table, the orders and the index, changed in place by the services, each with nothing in between its
    read and its write. */
module Catalog {
  import opened Basics
  import S = SearchIndex

  /** Distinct ids fire one sync each. */
  lemma {:induction false} OneSyncEach(ids: seq<nat>)
    requires forall i, j :: 0 <= i < j < |ids| ==> ids[i] != ids[j]
    ensures multiset(ids) == multiset(S.IdsOf(ids))
  {
    if |ids| > 0 {
      var n := |ids| - 1;
      OneSyncEach(ids[..n]);
      assert ids == ids[..n] + [ids[n]];
      assert S.IdsOf(ids) == S.IdsOf(ids[..n]) + {ids[n]} && ids[n] !in S.IdsOf(ids[..n]);
    }
  }

  lemma OneMoreSet(rows: seq<S.Row>, ids: seq<nat>, l: nat, to: S.Status)
    requires to != S.Reaped
    ensures S.SetAll(S.SetAll(rows, S.IdsOf(ids), to), {l}, to) == S.SetAll(rows, S.IdsOf(ids + [l]), to)
  {
  }

  class Catalog {
    var rows: seq<S.Row>
    var orders: seq<S.Order>
    var index: set<nat>
    var owed: multiset<nat>

    function View(): S.Site
      reads this
    {
      S.Site(rows, orders, index, owed, map[])
    }

    constructor ()
      ensures View() == S.Empty()
    {
      rows, orders, index, owed := [], [], {}, multiset{};
    }

    // ----- Single statements -----

    method UpdateStatus(l: nat, to: S.Status) returns (found: bool)
      modifies this`rows
      ensures found <==> S.Exists(old(rows), l)
      ensures View() == S.Write(old(View()), {l}, to)
    {
      found := l < |rows| && rows[l].status != S.Reaped;
      if found {
        rows := rows[l := rows[l].(status := to)];
      }
      assert rows == S.SetAll(old(rows), {l}, to);
    }

    method FireSync(l: nat)
      modifies this`owed
      ensures View() == S.Fire(old(View()), {l})
    {
      owed := owed + multiset{l};
      assert multiset({l}) == multiset{l};
    }

    method FireSyncs(ids: seq<nat>)
      requires forall i, j :: 0 <= i < j < |ids| ==> ids[i] != ids[j]
      modifies this`owed
      ensures View() == S.Fire(old(View()), S.IdsOf(ids))
    {
      for i := 0 to |ids|
        invariant owed == old(owed) + multiset(ids[..i])
      {
        assert ids[..i + 1] == ids[..i] + [ids[i]];
        owed := owed + multiset{ids[i]};
      }
      assert ids[..|ids|] == ids;
      OneSyncEach(ids);
    }

    /** One of the fired syncs runs: it reads the row as it is now. */
    method SyncSearchIndex(l: nat)
      modifies this`index, this`owed
      ensures View() == S.Next(old(View()), S.Sync(l))
    {
      if l !in owed {
        return;
      }
      owed := owed - multiset{l};
      if l >= |rows| || rows[l].status != S.Active {
        index := index - {l};
        return;
      }
      index := index + {l};
    }

    // ----- Sales -----

    method Create(owner: nat) returns (l: nat)
      modifies this
      ensures View() == S.Next(old(View()), S.Create(owner)) && l == |old(rows)|
    {
      l := |rows|;
      rows := rows + [S.Row(owner, S.Active)];
      FireSync(l);
    }

    method PlaceOrder(buyer: nat, l: nat, free: bool) returns (placed: bool)
      modifies this
      ensures View() == S.Next(old(View()), S.PlaceOrder(buyer, l, free))
      ensures placed <==> S.Has(old(rows), l, S.Active)
    {
      if l >= |rows| || rows[l].status != S.Active {
        return false;
      }
      orders := orders + [S.Order(buyer, l, if free then S.Unshipped else S.Unpaid)];
      var found := UpdateStatus(l, S.Sold);
      FireSync(l);
      return true;
    }

    method CheckoutBundle(buyer: nat, ids: seq<nat>) returns (done: bool)
      modifies this
      ensures View() == S.Next(old(View()), S.CheckoutBundle(buyer, ids))
      ensures done <==> S.AllOnSale(old(rows), ids)
    {
      var claimed, created := rows, [];
      for i := 0 to |ids|
        invariant unchanged(this)
        invariant S.AllOnSale(rows, ids[..i])
        invariant claimed == S.SetAll(rows, S.IdsOf(ids[..i]), S.Sold)
        invariant created == S.Purchases(buyer, ids[..i])
      {
        assert ids[..i + 1] == ids[..i] + [ids[i]];
        if ids[i] >= |claimed| || claimed[ids[i]].status != S.Active {
          return false;
        }
        claimed := claimed[ids[i] := claimed[ids[i]].(status := S.Sold)];
        created := created + [S.Order(buyer, ids[i], S.Unpaid)];
      }
      assert ids[..|ids|] == ids;
      rows, orders := claimed, orders + created;
      FireSyncs(ids);
      return true;
    }

    // ----- Cancellations -----

    method ClaimOrder(o: nat, stage: S.Stage) returns (claimed: bool)
      modifies this`orders
      ensures claimed <==> S.Claimed(old(View()), o, stage)
      ensures View() == if claimed then S.SetStage(old(View()), o, S.Over) else old(View())
    {
      claimed := o < |orders| && orders[o].stage == stage;
      if claimed {
        orders := orders[o := orders[o].(stage := S.Over)];
      }
    }

    method CancelByBuyer(o: nat)
      modifies this
      ensures View() == S.Next(old(View()), S.CancelByBuyer(o))
    {
      var claimed := ClaimOrder(o, S.Unpaid);
      if !claimed {
        return;
      }
      var l := orders[o].listing;
      if l < |rows| && rows[l].status == S.Sold {
        var found := UpdateStatus(l, S.Active);
      }
      FireSync(l);
    }

    /** The stale-payment and unshipped jobs on one order. */
    method CancelByJob(o: nat, unshipped: bool)
      modifies this
      ensures View() == S.Next(old(View()), if unshipped then S.AutoCancel(o) else S.CancelStale(o))
    {
      var claimed := ClaimOrder(o, if unshipped then S.Unshipped else S.Unpaid);
      if !claimed {
        return;
      }
      var l := orders[o].listing;
      var found := UpdateStatus(l, S.Active);
      FireSync(l);
    }

    method GiveUpPayment(o: nat)
      modifies this
      ensures View() == S.Next(old(View()), S.GiveUpPayment(o))
    {
      var claimed := ClaimOrder(o, S.Unpaid);
      if claimed {
        var found := UpdateStatus(orders[o].listing, S.Active);
      }
    }

    // ----- Writers that read first -----

    method Update(l: nat, to: Option<S.Status>)
      modifies this
      ensures View() == S.Alone(old(View()), S.Edit(l, to))
    {
      S.AloneIs(View(), S.Edit(l, to));
      if l >= |rows| || rows[l].status == S.Reaped || rows[l].status == S.Deleted || rows[l].status == S.Sold {
        return;
      }
      if to.Some? {
        if to.value != S.Active && to.value != S.Paused && to.value != S.Sold {
          return;
        }
        var found := UpdateStatus(l, to.value);
      }
      FireSync(l);
    }

    method Remove(l: nat)
      modifies this
      ensures View() == S.Alone(old(View()), S.Remove(l))
    {
      S.AloneIs(View(), S.Remove(l));
      if l >= |rows| || rows[l].status == S.Reaped {
        return;
      }
      for o := 0 to |orders|
        invariant unchanged(this)
        invariant forall p :: 0 <= p < o ==> orders[p].listing != l || orders[p].stage == S.Over
      {
        if orders[o].listing == l && orders[o].stage != S.Over {
          return;
        }
      }
      var found := UpdateStatus(l, S.Deleted);
      FireSync(l);
    }

    method SuspendListing(l: nat)
      modifies this
      ensures View() == S.Alone(old(View()), S.Suspend(l))
    {
      S.AloneIs(View(), S.Suspend(l));
      if l >= |rows| || rows[l].status == S.Reaped || rows[l].status == S.Deleted {
        return;
      }
      var found := UpdateStatus(l, S.Suspended);
      FireSync(l);
    }

    method UnsuspendListing(l: nat)
      modifies this
      ensures View() == S.Alone(old(View()), S.Unsuspend(l))
    {
      S.AloneIs(View(), S.Unsuspend(l));
      if l >= |rows| || rows[l].status != S.Suspended {
        return;
      }
      var found := UpdateStatus(l, S.Active);
      FireSync(l);
    }

    method SuspendAll(ids: seq<nat>)
      modifies this`rows
      ensures View() == S.Write(old(View()), S.IdsOf(ids), S.Suspended)
    {
      for i := 0 to |ids|
        invariant rows == S.SetAll(old(rows), S.IdsOf(ids[..i]), S.Suspended)
      {
        OneMoreSet(old(rows), ids[..i], ids[i], S.Suspended);
        assert ids[..i + 1] == ids[..i] + [ids[i]];
        var found := UpdateStatus(ids[i], S.Suspended);
      }
      assert ids[..|ids|] == ids;
    }

    /** Moderation rejects an image: every listing that shows it is suspended, whatever its status. */
    method RejectImage(shown: seq<nat>)
      requires forall i, j :: 0 <= i < j < |shown| ==> shown[i] != shown[j]
      modifies this
      ensures View() == S.Next(old(View()), S.RejectImage(S.IdsOf(shown)))
    {
      SuspendAll(shown);
      FireSyncs(shown);
    }

    // ----- Bulk writers -----

    /** A bulk writer's read, before its write. */
    method Select(writer: S.Writer) returns (ids: seq<nat>)
      ensures S.IdsOf(ids) == S.Matching(rows, writer)
      ensures forall i, j :: 0 <= i < j < |ids| ==> ids[i] != ids[j]
    {
      ids := [];
      for l := 0 to |rows|
        invariant forall k: nat :: k in ids <==> k < l && S.Matches(rows[k], writer)
        invariant forall i, j :: 0 <= i < j < |ids| ==> ids[i] != ids[j]
      {
        if S.Matches(rows[l], writer) {
          ids := ids + [l];
        }
      }
    }

    /** Its write, of every row that matches by now, and then the syncs of the ids it read. */
    method BulkWrite(writer: S.Writer, to: S.Status, read: seq<nat>)
      requires S.Target(writer) == Some(to) && S.IsBulk(writer) && !writer.DeleteAccount?
      requires forall i, j :: 0 <= i < j < |read| ==> read[i] != read[j]
      modifies this
      ensures View() == S.WriteUp(old(View()), S.Call(writer, S.IdsOf(read)))
    {
      for l := 0 to |rows|
        invariant |rows| == |old(rows)| && orders == old(orders) && index == old(index) && owed == old(owed)
        invariant forall k :: 0 <= k < |rows| ==>
          rows[k] == if k < l && S.Matches(old(rows)[k], writer) then old(rows)[k].(status := to) else old(rows)[k]
      {
        if S.Matches(rows[l], writer) {
          rows := rows[l := rows[l].(status := to)];
        }
      }
      assert rows == S.SetAll(old(rows), S.Matching(old(rows), writer), to);
      FireSyncs(read);
    }

    method BanUser(owner: nat)
      modifies this
      ensures View() == S.Alone(old(View()), S.Ban(owner))
    {
      S.AloneIs(View(), S.Ban(owner));
      var read := Select(S.Ban(owner));
      BulkWrite(S.Ban(owner), S.Suspended, read);
    }

    method ToggleVacation(owner: nat, on: bool)
      modifies this
      ensures View() == S.Alone(old(View()), if on then S.GoOnVacation(owner) else S.ComeBack(owner))
    {
      var writer := if on then S.GoOnVacation(owner) else S.ComeBack(owner);
      S.AloneIs(View(), writer);
      var read := Select(writer);
      BulkWrite(writer, if on then S.Paused else S.Active, read);
    }
  }
}
