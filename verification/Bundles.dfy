/** Whether a bundle keeps at least two items. A removal checks that on an unlocked read and then deletes without
    checking again. */
module Bundles {
  import opened Basics
  import opened Types
  import opened Transactions
  import opened Runs

  ghost predicate Inv(w: World) {
    && (forall b :: 0 <= b < |w.db.bundles| ==> Distinct(w.db.bundles[b].items))
    && (forall id <- w.calls :: w.calls[id].Committing? ==> !w.calls[id].tx.AddBundleTx?)
  }

  /** Every bundle there is to begin with has two different items or more. */
  ghost predicate StartsFull(w: World) {
    Init(w) && forall b :: 0 <= b < |w.db.bundles| ==> Distinct(w.db.bundles[b].items) && |w.db.bundles[b].items| >= 2
  }

  lemma {:induction false} WithoutOne(items: seq<nat>, l: nat)
    requires Distinct(items)
    ensures Distinct(Without(items, l)) && |Without(items, l)| == |items| - if l in items then 1 else 0
    ensures forall x :: x in Without(items, l) <==> x in items && x != l
  {
    if |items| > 0 {
      WithoutOne(items[1..], l);
      assert items == [items[0]] + items[1..];
      assert items[0] !in items[1..];
    }
  }

  predicate Removing(call: Call, b: nat) {
    call.Committing? && call.tx.RemoveBundleItemTx? && call.tx.b == b
  }

  /** The step deletes one of the bundle's last two items. */
  predicate Depletes(w: World, s: Step, b: nat) {
    && s.Commit? && s.id in w.calls && Removing(w.calls[s.id], b) && b < |w.db.bundles|
    && w.calls[s.id].tx.l in w.db.bundles[b].items && |w.db.bundles[b].items| <= 2
  }

  predicate Depleted(w: World, steps: seq<Step>, b: nat) {
    |steps| > 0 &&
      var n := |steps| - 1;
      Depleted(w, steps[..n], b) || Depletes(Run(w, steps[..n]), steps[n], b)
  }

  lemma BundlesStay(db: Db, o: nat, act: Act)
    ensures Perform(db, o, act).bundles == db.bundles
  {
  }

  function ItemsAfter(items: seq<nat>, tx: Tx, b: nat): seq<nat> {
    if tx.RemoveBundleItemTx? && tx.b == b then Without(items, tx.l) else items
  }

  /** What a transaction does to a bundle's items. */
  lemma TxItems(db: Db, tx: Tx, b: nat)
    requires b < |Exec(db, tx).bundles|
    ensures var items := Exec(db, tx).bundles[b].items;
      if b < |db.bundles| then items == ItemsAfter(db.bundles[b].items, tx, b)
      else tx.AddBundleTx? && items == tx.ids
  {
    if tx.OrderTx? {
      BundlesStay(db, tx.o, tx.act);
    }
  }

  /** What a step does to them. */
  lemma ItemsNext(w: World, s: Step, b: nat)
    requires Inv(w) && b < |Next(w, s).db.bundles|
    ensures var items := Next(w, s).db.bundles[b].items;
      if b >= |w.db.bundles| then |items| >= 2 && Distinct(items)
      else if s.Commit? && s.id in w.calls && Removing(w.calls[s.id], b)
      then items == Without(w.db.bundles[b].items, w.calls[s.id].tx.l)
      else items == w.db.bundles[b].items
  {
    NextExtends(w, s);
    if StepTx(w, s).Some? {
      TxItems(w.db, StepTx(w, s).value, b);
    }
  }

  lemma StepKeeps(w: World, s: Step, b: nat)
    requires Inv(w) && b < |Next(w, s).db.bundles|
    ensures Distinct(Next(w, s).db.bundles[b].items)
    ensures |Next(w, s).db.bundles[b].items| >= 2 <==>
      (b < |w.db.bundles| ==> |w.db.bundles[b].items| >= 2) && !Depletes(w, s, b)
  {
    ItemsNext(w, s, b);
    if b < |w.db.bundles| && s.Commit? && s.id in w.calls && Removing(w.calls[s.id], b) {
      WithoutOne(w.db.bundles[b].items, w.calls[s.id].tx.l);
    }
  }

  lemma {:induction false} RunKeeps(w: World, steps: seq<Step>)
    requires Inv(w)
    ensures Inv(Run(w, steps)) && |Run(w, steps).db.bundles| >= |w.db.bundles|
  {
    if |steps| > 0 {
      var n := |steps| - 1;
      RunKeeps(w, steps[..n]);
      NextExtends(Run(w, steps[..n]), steps[n]);
      forall b | 0 <= b < |Run(w, steps).db.bundles|
        ensures Distinct(Run(w, steps).db.bundles[b].items)
      {
        StepKeeps(Run(w, steps[..n]), steps[n], b);
      }
      forall id | id in Run(w, steps).calls
        ensures Run(w, steps).calls[id].Committing? ==> !Run(w, steps).calls[id].tx.AddBundleTx?
      {
        if id !in Run(w, steps[..n]).calls { NewCall(Run(w, steps[..n]), steps[n], id); }
      }
    }
  }

  lemma {:induction false} NeverYetDepleted(w: World, steps: seq<Step>, b: nat)
    requires Inv(w) && b >= |Run(w, steps).db.bundles|
    ensures !Depleted(w, steps, b)
  {
    if |steps| > 0 {
      NextExtends(Run(w, steps[..|steps| - 1]), steps[|steps| - 1]);
      NeverYetDepleted(w, steps[..|steps| - 1], b);
    }
  }

  /** In every run a bundle that began with two different items or more has at least two exactly when no removal ever
      found only two left. */
  lemma {:induction false} KeepsTwoIff(w: World, steps: seq<Step>, b: nat)
    requires StartsFull(w) && b < |Run(w, steps).db.bundles|
    ensures |Run(w, steps).db.bundles[b].items| >= 2 <==> !Depleted(w, steps, b)
  {
    if |steps| > 0 {
      var n := |steps| - 1;
      var before := Run(w, steps[..n]);
      RunKeeps(w, steps[..n]);
      StepKeeps(before, steps[n], b);
      if b < |before.db.bundles| {
        KeepsTwoIff(w, steps[..n], b);
      } else {
        NeverYetDepleted(w, steps[..n], b);
      }
    }
  }

  // ----- One removal at a time -----

  ghost predicate Alone(w: World, b: nat) {
    forall i, j :: i in w.calls && j in w.calls && Removing(w.calls[i], b) && Removing(w.calls[j], b) ==> i == j
  }

  ghost predicate NoOverlap(w: World, steps: seq<Step>, b: nat) {
    Alone(Run(w, steps), b) && (|steps| > 0 ==> NoOverlap(w, steps[..|steps| - 1], b))
  }

  /** What every removal in flight has read still holds. */
  ghost predicate StillEnough(w: World, b: nat) {
    forall id <- w.calls :: Removing(w.calls[id], b) ==> b < |w.db.bundles| && |w.db.bundles[b].items| > 2
  }

  lemma StepStillEnough(w: World, s: Step, b: nat)
    requires Inv(w) && StillEnough(w, b) && Alone(w, b)
    ensures StillEnough(Next(w, s), b) && !Depletes(w, s, b)
  {
    var next := Next(w, s);
    NextExtends(w, s);
    forall id | id in next.calls && Removing(next.calls[id], b)
      ensures b < |next.db.bundles| && |next.db.bundles[b].items| > 2
    {
      if id !in w.calls {
        NewCall(w, s, id);
      }
      ItemsNext(w, s, b);
    }
  }

  lemma {:induction false} AloneNeverDepletes(w: World, steps: seq<Step>, b: nat)
    requires Init(w) && Inv(w) && NoOverlap(w, steps, b)
    ensures StillEnough(Run(w, steps), b) && !Depleted(w, steps, b)
  {
    if |steps| > 0 {
      var n := |steps| - 1;
      AloneNeverDepletes(w, steps[..n], b);
      RunKeeps(w, steps[..n]);
      StepStillEnough(Run(w, steps[..n]), steps[n], b);
    }
  }

  /** So with no two removals of the same bundle in flight at once it always keeps two items. */
  lemma AloneKeepsTwo(w: World, steps: seq<Step>, b: nat)
    requires StartsFull(w) && b < |Run(w, steps).db.bundles| && NoOverlap(w, steps, b)
    ensures |Run(w, steps).db.bundles[b].items| >= 2
  {
    AloneNeverDepletes(w, steps, b);
    KeepsTwoIff(w, steps, b);
  }

  // ----- Two at a time -----

  function OneBundle(items: seq<nat>): Db {
    Db(0, 0, [], [], [Bundle(2, 1, items, Collecting)], map[], [], 0)
  }

  function Three(): World {
    World(OneBundle([0, 1, 2]), map[], {}, {}, map[], Jobs(0, 0, 0, 0))
  }

  lemma Removed(w: World, id: nat, l: nat)
    requires id in w.calls && w.calls[id] == Committing(RemoveBundleItemTx(0, l)) && |w.db.bundles| == 1
    ensures var next := Next(w, Commit(id));
      next.calls == w.calls - {id}
      && next.db == w.db.(bundles := [w.db.bundles[0].(items := Without(w.db.bundles[0].items, l))])
  {
  }

  /** Two removals that both read three items leave one. */
  lemma TwoRemovalsLeaveOne() returns (steps: seq<Step>)
    ensures StartsFull(Three()) && Run(Three(), steps).db == OneBundle([2])
  {
    var a, b := Committing(RemoveBundleItemTx(0, 0)), Committing(RemoveBundleItemTx(0, 1));
    steps := TwoMore(Three(), [], Begin(0, a), Begin(1, b));
    var both := Run(Three(), steps);
    assert both == Three().(calls := map[0 := a, 1 := b]);
    Removed(both, 0, 0);
    Removed(Next(both, Commit(0)), 1, 1);
    assert Without([0, 1, 2], 0) == [1, 2] && Without([1, 2], 1) == [2];
    steps := TwoMore(Three(), steps, Commit(0), Commit(1));
  }
}
