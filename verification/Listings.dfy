/** Whether a listing is ever sold to two orders at once, in every run, with everybody who writes listings. */
module Listings {
  import opened Basics
  import opened Types
  import opened Transactions
  import opened Reads
  import opened Runs
  import opened Sales
  import L = Lifecycle

  /** The step commits an unclaimed write of l that a standing order of l forbids. */
  predicate Lands(w: World, s: Step, l: nat) {
    StepTx(w, s).Some? && Overwrites(w.db, StepTx(w, s).value, l)
  }

  predicate Overwritten(w: World, steps: seq<Step>, l: nat) {
    |steps| > 0 &&
      var n := |steps| - 1;
      Overwritten(w, steps[..n], l) || Lands(Run(w, steps[..n]), steps[n], l)
  }

  /** At every moment of the run at most one order of l stands, and l is off sale while one does. */
  ghost predicate SoldOnce(w: World, steps: seq<Step>, l: nat) {
    OneSale(Run(w, steps).db, l) && (|steps| > 0 ==> SoldOnce(w, steps[..|steps| - 1], l))
  }

  lemma StepKeepsIff(w: World, s: Step, l: nat)
    requires Runs.Inv(w) && OneSale(w.db, l)
    ensures OneSale(Next(w, s).db, l) <==> !Lands(w, s, l)
  {
    NextExtends(w, s);
    match StepTx(w, s) {
      case Some(tx) =>
        StepIsGrounded(w, s);
        assert forall o :: 0 <= o < |w.db.orders| ==> L.RowInv(w.db.orders[o]);
        KeepsIff(w.db, tx, l);
      case None =>
        assert Next(w, s).db.orders == w.db.orders && Next(w, s).db.listings == w.db.listings;
    }
  }

  /** In every run a listing is sold to one order at a time throughout exactly when no unclaimed write of it ever
      landed on a standing order that forbids the status written. */
  lemma {:induction false} SoldOnceIff(w: World, steps: seq<Step>, l: nat)
    requires Init(w)
    ensures SoldOnce(w, steps, l) <==> !Overwritten(w, steps, l)
  {
    if |steps| > 0 {
      var n := |steps| - 1;
      SoldOnceIff(w, steps[..n], l);
      if SoldOnce(w, steps[..n], l) {
        RunKeeps(w, steps[..n]);
        StepKeepsIff(Run(w, steps[..n]), steps[n], l);
      }
    }
  }

  lemma OthersVoid(db: Db, o: nat, p: nat)
    requires o < |db.orders| && p < |db.orders| && o != p && !Void(db, o) && OneSale(db, db.orders[o].listing)
    ensures db.orders[p].listing == db.orders[o].listing ==> Void(db, p)
    ensures db.orders[o].listing < |db.listings| && OffSale(db.listings[db.orders[o].listing].status)
  {
    assert o < p || p < o;
  }

  /** So in every run a listing never overwritten has at most one order that is not cancelled, and while it has one it
      is neither Active nor Paused. */
  lemma NoDoubleSale(w: World, steps: seq<Step>, o: nat, p: nat)
    requires Init(w)
    requires var db := Run(w, steps).db;
      o < |db.orders| && p < |db.orders| && o != p && db.orders[o].status != Cancelled
    requires !Overwritten(w, steps, Run(w, steps).db.orders[o].listing)
    ensures var db := Run(w, steps).db;
      && (db.orders[p].listing == db.orders[o].listing ==> db.orders[p].status == Cancelled)
      && db.orders[o].listing < |db.listings| && OffSale(db.listings[db.orders[o].listing].status)
  {
    SoldOnceIff(w, steps, Run(w, steps).db.orders[o].listing);
    OthersVoid(Run(w, steps).db, o, p);
  }

  /** The step commits an unclaimed write that puts l on sale or pauses it. */
  predicate PutsUp(w: World, s: Step, l: nat) {
    && StepTx(w, s).Some? && StepTx(w, s).value.WriteListingTx? && StepTx(w, s).value.l == l
    && var written := Written(StepTx(w, s).value.writer); written.Some? && !OffSale(written.value)
  }

  lemma StepPutsUpIff(v: World, s: Step, o: nat)
    requires Runs.Inv(v) && o < |v.db.orders| && !Void(v.db, o) && OneSale(v.db, v.db.orders[o].listing)
    ensures var l, next := v.db.orders[o].listing, Next(v, s).db;
      && o < |next.orders| && next.orders[o].listing == l < |next.listings|
      && (!Void(next, o) && !OffSale(next.listings[l].status) <==> PutsUp(v, s, l))
  {
    var l := v.db.orders[o].listing;
    NextExtends(v, s);
    StepKeepsIff(v, s, l);
    assert SameDeal(v.db.orders[o], Next(v, s).db.orders[o]);
    if PutsUp(v, s, l) {
      assert Forbids(v.db, o, l, Written(StepTx(v, s).value.writer).value);
    }
  }

  /** And while an order of it stands, a listing not yet overwritten becomes Active or Paused exactly by such a write,
      which nothing in the code claims. */
  lemma BackOnSaleIff(w: World, steps: seq<Step>, s: Step, o: nat)
    requires Init(w) && o < |Run(w, steps).db.orders| && Run(w, steps).db.orders[o].status != Cancelled
    requires !Overwritten(w, steps, Run(w, steps).db.orders[o].listing)
    ensures var l, next := Run(w, steps).db.orders[o].listing, Next(Run(w, steps), s).db;
      && o < |next.orders| && next.orders[o].listing == l < |next.listings|
      && (next.orders[o].status != Cancelled && !OffSale(next.listings[l].status) <==> PutsUp(Run(w, steps), s, l))
  {
    SoldOnceIff(w, steps, Run(w, steps).db.orders[o].listing);
    RunKeeps(w, steps);
    StepPutsUpIff(Run(w, steps), s, o);
  }

  // ----- A write with nothing in between its read and its commit -----

  /** Moderation takes the listing of an order that can still be cancelled, or a listing it has suspended, with an
      order standing, is put up again. */
  predicate Moderated(db: Db, writer: ListingWriter, o: nat, l: nat)
    requires o < |db.orders| && l < |db.listings|
  {
    && db.orders[o].listing == l && !Void(db, o)
    && if writer.Suspend? || writer.RejectImage? || writer.Hide? then Unsent(db.orders[o].status)
       else
         db.listings[l].status == Suspended && (writer.Unsuspend? || writer.Edit?)
         && Written(writer).Some? && !OffSale(Written(writer).value)
  }

  /** Even then a write can overwrite a sale, but only where moderation takes part. */
  lemma FreshOverwritesIff(db: Db, writer: ListingWriter, l: nat)
    requires OneSale(db, l) && l < |db.listings| && WriterReads(db, writer, l)
    ensures Overwrites(db, WriteListingTx(writer, l), l) <==>
      exists o :: 0 <= o < |db.orders| && Moderated(db, writer, o, l)
  {
    forall o | 0 <= o < |db.orders|
      ensures Written(writer).Some? && Forbids(db, o, l, Written(writer).value) <==> Moderated(db, writer, o, l)
    {
      if db.orders[o].listing == l && !Void(db, o) {
        assert !Forbids(db, o, l, db.listings[l].status);
        assert writer.Remove? ==> Terminal(db.orders[o].status);
      }
    }
  }
}
