/** Deleting a user's account, in one transaction, at any moment of any run: what it leaves behind. */
module Accounts {
  import opened Basics
  import opened Types
  import opened Transactions
  import opened Reads
  import opened Runs
  import opened Sales
  import L = Lifecycle
  import Listings
  import SettledRuns
  import Races

  // ----- The transaction is a run of its own -----

  /** The steps of u's deletion, with nothing in between. */
  predicate IsDeletion(steps: seq<Step>, u: nat) {
    forall s <- steps ::
      && s.Direct?
      && ((s.tx.OrderTx? && s.tx.act == CancelOnDeletion(u)) || (s.tx.ClaimListingTx? && s.tx.status == Deleted))
  }

  lemma OneDirect(w: World, steps: seq<Step>, tx: Tx)
    requires DirectOk(Run(w, steps).db, tx)
    ensures Run(w, steps + [Direct(tx)]) == Run(w, steps).(db := Exec(Run(w, steps).db, tx))
  {
    OneMore(w, steps, Direct(tx));
  }

  /** The database with the first n orders dealt with. */
  function Dropped(db: Db, u: nat, n: nat): Db
    requires n <= |db.orders|
  {
    db.(orders := Unbought(db.orders, u)[..n] + db.orders[n..])
  }

  lemma CancelsOne(db: Db, u: nat, n: nat)
    requires n < |db.orders|
    ensures Perform(Dropped(db, u, n), n, CancelOnDeletion(u)) == Dropped(db, u, n + 1)
  {
    assert Perform(Dropped(db, u, n), n, CancelOnDeletion(u)).orders == Dropped(db, u, n + 1).orders;
  }

  /** The database with the first n listings dealt with. */
  function Taken(db: Db, u: nat, n: nat): Db
    requires n <= |db.listings|
  {
    db.(listings := Delisted(db.listings, u)[..n] + db.listings[n..])
  }

  predicate Takes(row: Listing, u: nat) {
    row.seller == u && !OffSale(row.status)
  }

  lemma DelistsOne(db: Db, u: nat, n: nat)
    requires n < |db.listings|
    ensures Taken(db, u, n + 1) ==
      if Takes(db.listings[n], u) then ClaimListing(Taken(db, u, n), n, db.listings[n].status, Deleted)
      else Taken(db, u, n)
  {
    var next := if Takes(db.listings[n], u) then ClaimListing(Taken(db, u, n), n, db.listings[n].status, Deleted)
                else Taken(db, u, n);
    assert next.listings == Taken(db, u, n + 1).listings;
  }

  lemma {:induction false} CancelsAll(w: World, u: nat, n: nat) returns (steps: seq<Step>)
    requires n <= |w.db.orders|
    ensures IsDeletion(steps, u) && Run(w, steps) == w.(db := Dropped(w.db, u, n))
  {
    if n == 0 {
      steps := [];
      assert Dropped(w.db, u, 0).orders == w.db.orders;
    } else {
      steps := CancelsAll(w, u, n - 1);
      CancelsOne(w.db, u, n - 1);
      OneDirect(w, steps, OrderTx(n - 1, CancelOnDeletion(u)));
      steps := steps + [Direct(OrderTx(n - 1, CancelOnDeletion(u)))];
    }
  }

  lemma DelistsNext(w: World, u: nat, n: nat, steps: seq<Step>) returns (more: seq<Step>)
    requires n < |w.db.listings| && IsDeletion(steps, u) && Run(w, steps) == w.(db := Taken(w.db, u, n))
    ensures IsDeletion(more, u) && Run(w, more) == w.(db := Taken(w.db, u, n + 1))
  {
    DelistsOne(w.db, u, n);
    if Takes(w.db.listings[n], u) {
      var tx := ClaimListingTx(n, w.db.listings[n].status, Deleted);
      OneDirect(w, steps, tx);
      more := steps + [Direct(tx)];
    } else {
      more := steps;
    }
  }

  lemma {:induction false} DelistsAll(w: World, u: nat, n: nat) returns (steps: seq<Step>)
    requires n <= |w.db.listings|
    ensures IsDeletion(steps, u) && Run(w, steps) == w.(db := Taken(w.db, u, n))
  {
    if n == 0 {
      steps := [];
      assert Taken(w.db, u, 0).listings == w.db.listings;
    } else {
      steps := DelistsAll(w, u, n - 1);
      steps := DelistsNext(w, u, n - 1, steps);
    }
  }

  /** From any moment on, the deletion of an account is a stretch of a run, so what holds in every run holds of runs
      with deletions. */
  lemma DeletionIsRun(w: World, u: nat) returns (steps: seq<Step>)
    ensures IsDeletion(steps, u) && Run(w, steps) == w.(db := DeleteAccount(w.db, u))
  {
    var cancels := CancelsAll(w, u, |w.db.orders|);
    assert Dropped(w.db, u, |w.db.orders|).orders == Unbought(w.db.orders, u);
    var v := Run(w, cancels);
    var delists := DelistsAll(v, u, |v.db.listings|);
    assert Taken(v.db, u, |v.db.listings|).listings == Delisted(v.db.listings, u);
    SettledRuns.RunOn(w, cancels, delists);
    steps := cancels + delists;
  }

  // ----- What it leaves behind -----

  /** Off sale, and sold to nobody. */
  ghost predicate SoldToNobody(db: Db, l: nat) {
    && l < |db.listings| && (db.listings[l].status == Sold || db.listings[l].status == Deleted)
    && forall o :: 0 <= o < |db.orders| && db.orders[o].listing == l ==> Void(db, o)
  }

  lemma LeavesSoldToNobody(db: Db, o: nat)
    requires o < |db.orders| && db.orders[o].status == Pending && OneSale(db, db.orders[o].listing)
    ensures var l, after := db.orders[o].listing, DeleteAccount(db, db.orders[o].buyer);
      l < |after.listings| && after.listings[l].status == Sold && SoldToNobody(after, l)
  {
    var l, after := db.orders[o].listing, DeleteAccount(db, db.orders[o].buyer);
    assert !Void(db, o) && !Forbids(db, o, l, db.listings[l].status);
    forall p | 0 <= p < |after.orders| && after.orders[p].listing == l
      ensures Void(after, p)
    {
      assert p != o ==> p < o || o < p;
    }
  }

  /** Deleting the account of the buyer of an unpaid order cancels the order and leaves its snapshot behind; the
      listing, unless it was overwritten before, stays Sold, to nobody. */
  lemma DeletionLeaves(w: World, steps: seq<Step>, o: nat)
    requires Init(w) && o < |Run(w, steps).db.orders| && Run(w, steps).db.orders[o].status == Pending
    requires !Listings.Overwritten(w, steps, Run(w, steps).db.orders[o].listing)
    ensures var db := Run(w, steps).db; var l, after := db.orders[o].listing, DeleteAccount(db, db.orders[o].buyer);
      && after.orders[o] == db.orders[o].(status := Cancelled) && after.orders[o].snapshot
      && l < |after.listings| && after.listings[l].status == Sold && SoldToNobody(after, l)
  {
    RunKeeps(w, steps);
    Listings.SoldOnceIff(w, steps, Run(w, steps).db.orders[o].listing);
    LeavesSoldToNobody(Run(w, steps).db, o);
    assert L.RowInv(Run(w, steps).db.orders[o]);
  }

  // ----- For good -----

  /** Sold to nobody, with no write of another status in flight. */
  ghost predicate Shut(w: World, l: nat) {
    && SoldToNobody(w.db, l)
    && forall id <- w.calls :: Harmless(w.calls[id], l)
  }

  predicate Harmless(call: Call, l: nat) {
    call.Committing? && call.tx.WriteListingTx? && call.tx.l == l ==>
      match Written(call.tx.writer) case None => true case Some(s) => s == Sold || s == Deleted
  }

  /** Nobody begins to suspend the listing. */
  predicate NotModerated(steps: seq<Step>, l: nat) {
    forall s <- steps ::
      s.Begin? && s.call.Committing? && s.call.tx.WriteListingTx? && s.call.tx.l == l ==>
        !s.call.tx.writer.Suspend? && !s.call.tx.writer.RejectImage?
  }

  lemma TxKeepsSoldToNobody(db: Db, tx: Tx, l: nat)
    requires SoldToNobody(db, l) && Grounded(db, tx) && L.Inv(db)
    requires tx.WriteListingTx? ==> Harmless(Committing(tx), l)
    ensures SoldToNobody(Exec(db, tx), l)
  {
    match tx {
      case OrderTx(o, act) =>
        if o < |db.orders| {
          assert L.RowInv(db.orders[o]);
          PerformChanges(db, o, act, l);
        }
      case CheckoutBundleTx(b, items) => CheckoutSells(db, b, items);
      case _ =>
    }
  }

  /** Whoever writes a listing has begun on purpose. */
  lemma WritersBegin(w: World, s: Step, id: nat)
    requires id in Next(w, s).calls && id !in w.calls
    ensures var call := Next(w, s).calls[id];
      (s.Begin? && s.call == call) || !call.Committing? || !call.tx.WriteListingTx?
  {
  }

  lemma NewIsHarmless(w: World, call: Call, l: nat)
    requires SoldToNobody(w.db, l) && FirstRead(w, call)
    requires call.Committing? && call.tx.WriteListingTx? && call.tx.l == l ==>
      !call.tx.writer.Suspend? && !call.tx.writer.RejectImage?
    ensures Harmless(call, l)
  {
  }

  lemma StaysHarmless(w: World, s: Step, l: nat, id: nat)
    requires Shut(w, l) && NotModerated([s], l) && id in Next(w, s).calls
    ensures Harmless(Next(w, s).calls[id], l)
  {
    if id in w.calls {
      assert Harmless(w.calls[id], l);
      OldStaysHarmless(w, s, l, id);
    } else {
      WritersBegin(w, s, id);
      if s.Begin? {
        NewCall(w, s, id);
        assert s in [s] && s.call == Next(w, s).calls[id];
        NewIsHarmless(w, s.call, l);
      }
    }
  }

  lemma OldStaysHarmless(w: World, s: Step, l: nat, id: nat)
    requires id in w.calls && Harmless(w.calls[id], l) && id in Next(w, s).calls
    ensures Harmless(Next(w, s).calls[id], l)
  {
    OldCall(w, s, id);
  }

  lemma StaysShut(w: World, s: Step, l: nat)
    requires Runs.Inv(w) && Shut(w, l) && NotModerated([s], l)
    ensures Shut(Next(w, s), l)
  {
    NextExtends(w, s);
    if StepTx(w, s).Some? {
      StepIsGrounded(w, s);
      TxKeepsSoldToNobody(w.db, StepTx(w, s).value, l);
    }
    forall id | id in Next(w, s).calls
      ensures Harmless(Next(w, s).calls[id], l)
    {
      StaysHarmless(w, s, l, id);
    }
  }

  /** The only ways back are a write that is already in flight, or a suspension that is lifted: without them a listing
      sold to nobody is never on sale again, whatever happens. */
  lemma {:induction false} NeverOnSaleAgain(v: World, steps: seq<Step>, l: nat)
    requires Runs.Inv(v) && Shut(v, l) && NotModerated(steps, l)
    ensures Runs.Inv(Run(v, steps)) && Shut(Run(v, steps), l)
  {
    if |steps| > 0 {
      var n := |steps| - 1;
      NeverOnSaleAgain(v, steps[..n], l);
      assert steps[n] in steps;
      StaysShut(Run(v, steps[..n]), steps[n], l);
      NextKeeps(Run(v, steps[..n]), steps[n]);
    }
  }

  /** A run in which a buyer checks out and then deletes the account: the cancelled order keeps its snapshot, and the
      listing is Sold to nobody for good. */
  lemma LeftBehind() returns (placed: seq<Step>, deletion: seq<Step>)
    ensures Init(Races.Start()) && IsDeletion(deletion, Races.BUYER)
    ensures var v := Run(Races.Start(), placed + deletion);
      && |v.db.orders| == 1 && v.db.orders[0].status == Cancelled && v.db.orders[0].snapshot
      && |v.db.listings| == 1 && v.db.listings[0].status == Sold
    ensures forall later :: NotModerated(later, 0) ==>
      SoldToNobody(Run(Races.Start(), (placed + deletion) + later).db, 0)
  {
    placed := Races.ReachPlaced();
    deletion := DeletionIsRun(Run(Races.Start(), placed), Races.BUYER);
    SettledRuns.RunOn(Races.Start(), placed, deletion);
    var v := Run(Races.Start(), placed + deletion);
    assert v.db.orders == [Races.Placed().(status := Cancelled)];
    RunKeeps(Races.Start(), placed + deletion);
    forall later | NotModerated(later, 0)
      ensures SoldToNobody(Run(Races.Start(), (placed + deletion) + later).db, 0)
    {
      SettledRuns.RunOn(Races.Start(), placed + deletion, later);
      NeverOnSaleAgain(v, later, 0);
    }
  }
}
