/** The search index beside the listing table, with every service that writes a listing's status: what each checks,
    what it writes, and which syncs it fires. A fired sync runs some time later; it re-reads its row, and adds or
    removes the listing accordingly. */
module SearchIndex {
  import opened Basics

  /** A Reaped row has been deleted from the table. */
  datatype Status = Active | Paused | Sold | Deleted | Suspended | Reaped

  datatype Row = Row(owner: nat, status: Status)

  /** An order as far as listing writers look at it: PENDING, PAID and not shipped, on its way, over. */
  datatype Stage = Unpaid | Unshipped | UnderWay | Over

  datatype Order = Order(buyer: nat, listing: nat, stage: Stage)

  /** Writers that read without a lock and write, some time later, without a claim. */
  datatype Writer =
    | Edit(l: nat, to: Option<Status>)   // the seller's update
    | Remove(l: nat)                     // the seller's removal
    | Suspend(l: nat)
    | Unsuspend(l: nat)
    | PauseStale(l: nat)                 // the job that pauses stale listings, on one it selected
    | CleanupPaused(l: nat)              // the job that deletes long-paused ones
    | Reap(l: nat)                       // the retention job, which deletes the row itself
    | Ban(owner: nat)
    | GoOnVacation(owner: nat)
    | ComeBack(owner: nat)
    | DeleteAccount(owner: nat)

  /** A writer between its read and its write, with the ids it read. */
  datatype Call = Call(writer: Writer, read: set<nat>)

  /** `owed` holds the fired syncs that have not run yet. */
  datatype Site = Site(rows: seq<Row>, orders: seq<Order>, index: set<nat>, owed: multiset<nat>, calls: map<nat, Call>)

  datatype Step =
    | Create(owner: nat)
    | PlaceOrder(buyer: nat, l: nat, free: bool)
    | CheckoutBundle(buyer: nat, ids: seq<nat>)
    | Advance(o: nat, to: Stage)         // settlement, shipment and everything later
    | CancelByBuyer(o: nat)
    | CancelStale(o: nat)
    | AutoCancel(o: nat)
    | GiveUpPayment(o: nat)              // the cancellation after the last payment attempt
    | RejectImage(shown: set<nat>)       // moderation rejects an image these listings show
    | Hide(l: nat)                       // moderation hides a reported listing
    | Begin(id: nat, writer: Writer)
    | Finish(id: nat)
    | Abandon(id: nat)
    | Sync(l: nat)

  // ----- Rows -----

  predicate Exists(rows: seq<Row>, l: nat) {
    l < |rows| && rows[l].status != Reaped
  }

  predicate Has(rows: seq<Row>, l: nat, status: Status) {
    l < |rows| && rows[l].status == status
  }

  predicate IsActive(s: Site, l: nat) {
    Has(s.rows, l, Active)
  }

  /** Every row with one of these ids gets the status. */
  function SetAll(rows: seq<Row>, ids: set<nat>, to: Status): (r: seq<Row>)
    ensures |r| == |rows|
    ensures forall l :: 0 <= l < |rows| ==>
      r[l] == if l in ids && Exists(rows, l) then rows[l].(status := to) else rows[l]
  {
    seq(|rows|, l requires 0 <= l < |rows| => if l in ids && Exists(rows, l) then rows[l].(status := to) else rows[l])
  }

  // ----- Orders -----

  predicate Claimed(s: Site, o: nat, stage: Stage) {
    o < |s.orders| && s.orders[o].stage == stage
  }

  function SetStage(s: Site, o: nat, stage: Stage): Site
    requires o < |s.orders|
  {
    s.(orders := s.orders[o := s.orders[o].(stage := stage)])
  }

  predicate HasOpenOrder(orders: seq<Order>, l: nat) {
    exists o :: 0 <= o < |orders| && orders[o].listing == l && orders[o].stage != Over
  }

  predicate HasOrder(orders: seq<Order>, l: nat) {
    exists o :: 0 <= o < |orders| && orders[o].listing == l
  }

  /** All on sale, and none twice. */
  predicate AllOnSale(rows: seq<Row>, ids: seq<nat>) {
    (forall i, j :: 0 <= i < j < |ids| ==> ids[i] != ids[j]) && forall i :: 0 <= i < |ids| ==> Has(rows, ids[i], Active)
  }

  function IdsOf(ids: seq<nat>): set<nat> {
    set l | l in ids
  }

  function Purchases(buyer: nat, ids: seq<nat>): seq<Order> {
    seq(|ids|, i requires 0 <= i < |ids| => Order(buyer, ids[i], Unpaid))
  }

  /** Deleting an account cancels what its owner has yet to pay for, and leaves those listings as they are. */
  function Unbought(orders: seq<Order>, buyer: nat): seq<Order> {
    seq(|orders|, o requires 0 <= o < |orders| =>
      if orders[o].buyer == buyer && orders[o].stage == Unpaid then orders[o].(stage := Over) else orders[o])
  }

  // ----- Writes and syncs -----

  function Write(s: Site, ids: set<nat>, to: Status): Site {
    s.(rows := SetAll(s.rows, ids, to))
  }

  function Fire(s: Site, ids: set<nat>): Site {
    s.(owed := s.owed + multiset(ids))
  }

  /** The clean-up jobs remove the listing from the index themselves. */
  function Drop(s: Site, l: nat): Site {
    s.(index := s.index - {l})
  }

  /** A cancellation that has claimed its order puts the listing back on sale, whatever it is now. */
  function Reactivate(s: Site, o: nat): Site
    requires o < |s.orders|
  {
    Write(SetStage(s, o, Over), {s.orders[o].listing}, Active)
  }

  predicate Matches(row: Row, writer: Writer) {
    match writer
    case Ban(owner) => row == Row(owner, Active)
    case GoOnVacation(owner) => row == Row(owner, Active)
    case ComeBack(owner) => row == Row(owner, Paused)
    case DeleteAccount(owner) => row == Row(owner, Active) || row == Row(owner, Paused)
    case _ => false
  }

  function Matching(rows: seq<Row>, writer: Writer): (ids: set<nat>)
    ensures forall l: nat :: l in ids <==> l < |rows| && Matches(rows[l], writer)
  {
    set l: nat | l < |rows| && Matches(rows[l], writer)
  }

  /** The status a writer writes. */
  function Target(writer: Writer): Option<Status> {
    match writer
    case Edit(_, to) => to
    case Remove(_) => Some(Deleted)
    case Suspend(_) => Some(Suspended)
    case Unsuspend(_) => Some(Active)
    case PauseStale(_) => Some(Paused)
    case CleanupPaused(_) => Some(Deleted)
    case Reap(_) => Some(Reaped)
    case Ban(_) => Some(Suspended)
    case GoOnVacation(_) => Some(Paused)
    case ComeBack(_) => Some(Active)
    case DeleteAccount(_) => Some(Deleted)
  }

  /** What the writer's read must find for it to go on. */
  predicate MayBegin(s: Site, writer: Writer) {
    match writer
    case Edit(l, to) =>
      && Exists(s.rows, l) && !Has(s.rows, l, Deleted) && !Has(s.rows, l, Sold)
      && (to.Some? ==> to.value == Active || to.value == Paused || to.value == Sold)
    case Remove(l) => Exists(s.rows, l) && !HasOpenOrder(s.orders, l)
    case Suspend(l) => Exists(s.rows, l) && !Has(s.rows, l, Deleted)
    case Unsuspend(l) => Has(s.rows, l, Suspended)
    case PauseStale(l) => Has(s.rows, l, Active)
    case CleanupPaused(l) => Has(s.rows, l, Paused)
    case Reap(l) => Has(s.rows, l, Deleted)
    case _ => true
  }

  /** The writer's write, on the state as it is by then, and what it fires. A listing an order refers to cannot be
      reaped. A bulk writer writes every row that matches now, and syncs the ids it read. */
  function WriteUp(s: Site, call: Call): Site {
    var writer := call.writer;
    match writer
    case Edit(l, to) =>
      if !Exists(s.rows, l) then s
      else if to.Some? then Fire(Write(s, {l}, to.value), {l})
      else Fire(s, {l})
    case Remove(l) => WriteOne(s, l, Deleted)
    case Suspend(l) => WriteOne(s, l, Suspended)
    case Unsuspend(l) => WriteOne(s, l, Active)
    case PauseStale(l) => if Exists(s.rows, l) then Drop(Write(s, {l}, Paused), l) else s
    case CleanupPaused(l) => if Exists(s.rows, l) then Drop(Write(s, {l}, Deleted), l) else s
    case Reap(l) => if HasOrder(s.orders, l) then s else Write(s, {l}, Reaped)
    case Ban(_) => Fire(Write(s, Matching(s.rows, writer), Suspended), call.read)
    case GoOnVacation(_) => Fire(Write(s, Matching(s.rows, writer), Paused), call.read)
    case ComeBack(_) => Fire(Write(s, Matching(s.rows, writer), Active), call.read)
    case DeleteAccount(owner) =>
      Fire(Write(s, Matching(s.rows, writer), Deleted).(orders := Unbought(s.orders, owner)), call.read)
  }

  function WriteOne(s: Site, l: nat, to: Status): Site {
    if Exists(s.rows, l) then Fire(Write(s, {l}, to), {l}) else s
  }

  function Next(s: Site, step: Step): Site {
    match step
    case Create(owner) => Fire(s.(rows := s.rows + [Row(owner, Active)]), {|s.rows|})
    case PlaceOrder(buyer, l, free) =>
      if !Has(s.rows, l, Active) then s
      else Fire(Write(s.(orders := s.orders + [Order(buyer, l, if free then Unshipped else Unpaid)]), {l}, Sold), {l})
    case CheckoutBundle(buyer, ids) =>
      if !AllOnSale(s.rows, ids) then s
      else Fire(Write(s.(orders := s.orders + Purchases(buyer, ids)), IdsOf(ids), Sold), IdsOf(ids))
    case Advance(o, to) => if o < |s.orders| && s.orders[o].stage != Over then SetStage(s, o, to) else s
    case CancelByBuyer(o) =>
      if !Claimed(s, o, Unpaid) then s
      else
        var l := s.orders[o].listing;
        Fire(if Has(s.rows, l, Sold) then Reactivate(s, o) else SetStage(s, o, Over), {l})
    case CancelStale(o) => if !Claimed(s, o, Unpaid) then s else Fire(Reactivate(s, o), {s.orders[o].listing})
    case AutoCancel(o) => if !Claimed(s, o, Unshipped) then s else Fire(Reactivate(s, o), {s.orders[o].listing})
    case GiveUpPayment(o) => if !Claimed(s, o, Unpaid) then s else Reactivate(s, o)
    case RejectImage(ids) => Fire(Write(s, ids, Suspended), ids)
    case Hide(l) => Fire(Write(s, {l}, Deleted), {l})
    case Begin(id, writer) =>
      if id in s.calls || !MayBegin(s, writer) then s
      else s.(calls := s.calls[id := Call(writer, Matching(s.rows, writer))])
    case Finish(id) => if id !in s.calls then s else WriteUp(s, s.calls[id]).(calls := s.calls - {id})
    case Abandon(id) => s.(calls := s.calls - {id})
    case Sync(l) =>
      if l !in s.owed then s
      else s.(owed := s.owed - multiset{l}, index := if IsActive(s, l) then s.index + {l} else s.index - {l})
  }

  function Run(s: Site, steps: seq<Step>): Site {
    if |steps| == 0 then s else Next(Run(s, steps[..|steps| - 1]), steps[|steps| - 1])
  }

  function Empty(): Site {
    Site([], [], {}, multiset{}, map[])
  }

  // ----- Agreement -----

  /** In the index exactly when Active, or else with a sync still to run. */
  predicate AgreesAt(s: Site, l: nat) {
    (l in s.index <==> IsActive(s, l)) || l in s.owed
  }

  predicate IsBulk(writer: Writer) {
    writer.Ban? || writer.GoOnVacation? || writer.ComeBack? || writer.DeleteAccount?
  }

  /** The write changes whether l is Active and fires no sync of it: a bulk write that finds l matching but did not
      when it read, or the reaping of a row that is no longer Deleted but on sale. */
  predicate CallLoses(s: Site, call: Call, l: nat) {
    && l < |s.rows| && l !in s.owed
    && if IsBulk(call.writer) then
         Matches(s.rows[l], call.writer) && l !in call.read && (IsActive(s, l) != (Target(call.writer) == Some(Active)))
       else call.writer == Reap(l) && IsActive(s, l) && !HasOrder(s.orders, l)
  }

  predicate Loses(s: Site, step: Step, l: nat) {
    match step
    case Finish(id) => id in s.calls && CallLoses(s, s.calls[id], l)
    case GiveUpPayment(o) =>
      Claimed(s, o, Unpaid) && s.orders[o].listing == l && Exists(s.rows, l) && !IsActive(s, l) && l !in s.owed
    case _ => false
  }

  /** A write with its sync keeps every agreement. */
  lemma SyncedWriteAgrees(s: Site, next: Site, ids: set<nat>, l: nat)
    requires AgreesAt(s, l) && next.owed == s.owed + multiset(ids) && next.index == s.index
    requires l !in ids ==> (IsActive(next, l) <==> IsActive(s, l))
    ensures AgreesAt(next, l)
  {
    assert l in ids <==> l in multiset(ids);
  }

  lemma BulkAgreesIff(s: Site, call: Call, l: nat)
    requires AgreesAt(s, l) && IsBulk(call.writer)
    ensures AgreesAt(WriteUp(s, call), l) <==> !CallLoses(s, call, l)
  {
    assert l in call.read <==> l in multiset(call.read);
    assert l < |s.rows| ==> (l in Matching(s.rows, call.writer) <==> Matches(s.rows[l], call.writer));
  }

  lemma WriteUpAgreesIff(s: Site, call: Call, l: nat)
    requires AgreesAt(s, l)
    ensures AgreesAt(WriteUp(s, call), l) <==> !CallLoses(s, call, l)
  {
    if IsBulk(call.writer) {
      BulkAgreesIff(s, call, l);
    } else if !(call.writer.PauseStale? || call.writer.CleanupPaused? || call.writer.Reap?) {
      if Exists(s.rows, call.writer.l) {
        SyncedWriteAgrees(s, WriteUp(s, call), {call.writer.l}, l);
      }
    }
  }

  lemma CancelAgrees(s: Site, step: Step, l: nat)
    requires AgreesAt(s, l) && (step.CancelByBuyer? || step.CancelStale? || step.AutoCancel?)
    ensures AgreesAt(Next(s, step), l)
  {
    if Next(s, step) != s {
      SyncedWriteAgrees(s, Next(s, step), {s.orders[step.o].listing}, l);
    }
  }

  lemma SaleAgrees(s: Site, step: Step, l: nat)
    requires AgreesAt(s, l) && (step.Create? || step.PlaceOrder? || step.CheckoutBundle?)
    ensures AgreesAt(Next(s, step), l)
  {
    if Next(s, step) != s {
      SyncedWriteAgrees(s, Next(s, step),
        match step case Create(_) => {|s.rows|} case PlaceOrder(_, k, _) => {k}
        case CheckoutBundle(_, ids) => IdsOf(ids), l);
    }
  }

  lemma ModerationAgrees(s: Site, step: Step, l: nat)
    requires AgreesAt(s, l) && (step.RejectImage? || step.Hide?)
    ensures AgreesAt(Next(s, step), l)
  {
    SyncedWriteAgrees(s, Next(s, step), if step.Hide? then {step.l} else step.shown, l);
  }

  /** Steps that write no listing. */
  lemma QuietAgrees(s: Site, step: Step, l: nat)
    requires AgreesAt(s, l) && (step.Advance? || step.Begin? || step.Abandon? || step.Sync?)
    ensures AgreesAt(Next(s, step), l)
  {
  }

  lemma FinishAgreesIff(s: Site, id: nat, l: nat)
    requires AgreesAt(s, l)
    ensures AgreesAt(Next(s, Finish(id)), l) <==> !Loses(s, Finish(id), l)
  {
    if id in s.calls {
      WriteUpAgreesIff(s, s.calls[id], l);
    }
  }

  lemma GiveUpAgreesIff(s: Site, o: nat, l: nat)
    requires AgreesAt(s, l)
    ensures AgreesAt(Next(s, GiveUpPayment(o)), l) <==> !Loses(s, GiveUpPayment(o), l)
  {
  }

  /** Whichever service runs, between any other's read and write, a listing that agreed with the index still agrees
      exactly when the step does not lose it. Of all the writers only the last-attempt cancellation, the four bulk
      writers and the retention job ever do. */
  lemma StepAgreesIff(s: Site, step: Step, l: nat)
    requires AgreesAt(s, l)
    ensures AgreesAt(Next(s, step), l) <==> !Loses(s, step, l)
  {
    if step.Finish? {
      FinishAgreesIff(s, step.id, l);
    } else if step.GiveUpPayment? {
      GiveUpAgreesIff(s, step.o, l);
    } else if step.CancelByBuyer? || step.CancelStale? || step.AutoCancel? {
      CancelAgrees(s, step, l);
    } else if step.Create? || step.PlaceOrder? || step.CheckoutBundle? {
      SaleAgrees(s, step, l);
    } else if step.RejectImage? || step.Hide? {
      ModerationAgrees(s, step, l);
    } else {
      QuietAgrees(s, step, l);
    }
  }

  predicate NeverLoses(s: Site, steps: seq<Step>, l: nat) {
    |steps| > 0 ==>
      NeverLoses(s, steps[..|steps| - 1], l) && !Loses(Run(s, steps[..|steps| - 1]), steps[|steps| - 1], l)
  }

  /** So from an empty site, in every run that never loses a listing, the listing is in the index exactly when it is
      Active or else has an outstanding sync; and exactly when it is Active once no sync of it is outstanding. */
  lemma {:induction false} IndexAgrees(steps: seq<Step>, l: nat)
    requires NeverLoses(Empty(), steps, l)
    ensures var s := Run(Empty(), steps); AgreesAt(s, l) && (l !in s.owed ==> (l in s.index <==> IsActive(s, l)))
  {
    if |steps| > 0 {
      IndexAgrees(steps[..|steps| - 1], l);
      StepAgreesIff(Run(Empty(), steps[..|steps| - 1]), steps[|steps| - 1], l);
    }
  }

  /** And the first step that does lose it leaves it out of step with the index, with no sync to come. */
  lemma FirstLossShows(steps: seq<Step>, step: Step, l: nat)
    requires NeverLoses(Empty(), steps, l) && Loses(Run(Empty(), steps), step, l)
    ensures !AgreesAt(Next(Run(Empty(), steps), step), l)
  {
    IndexAgrees(steps, l);
    StepAgreesIff(Run(Empty(), steps), step, l);
  }

  // ----- A writer with nothing in between its read and its write -----

  function Alone(s: Site, writer: Writer): Site {
    Next(Next(s, Begin(0, writer)), Finish(0))
  }

  lemma AloneIs(s: Site, writer: Writer)
    requires s.calls == map[]
    ensures Alone(s, writer) == if MayBegin(s, writer) then WriteUp(s, Call(writer, Matching(s.rows, writer))) else s
  {
    if MayBegin(s, writer) {
      var call := Call(writer, Matching(s.rows, writer));
      var begun := Next(s, Begin(0, writer));
      assert begun == s.(calls := map[0 := call]);
      CallsDoNotMatter(s, begun.calls, call);
      assert begun.calls - {0} == map[];
    }
  }

  /** A write neither looks at the calls in flight nor changes them. */
  lemma CallsDoNotMatter(s: Site, calls: map<nat, Call>, call: Call)
    ensures WriteUp(s.(calls := calls), call) == WriteUp(s, call).(calls := calls) && WriteUp(s, call).calls == s.calls
  {
    var t, writer := s.(calls := calls), call.writer;
    if !IsBulk(writer) {
      OneDoesNotMatter(s, calls, call);
    } else {
      assert Matching(t.rows, writer) == Matching(s.rows, writer);
    }
  }

  lemma OneDoesNotMatter(s: Site, calls: map<nat, Call>, call: Call)
    requires !IsBulk(call.writer)
    ensures WriteUp(s.(calls := calls), call) == WriteUp(s, call).(calls := calls) && WriteUp(s, call).calls == s.calls
  {
  }

  /** Undisturbed, no writer that reads first ever loses a listing. */
  lemma AloneAgrees(s: Site, writer: Writer, l: nat)
    requires AgreesAt(s, l) && s.calls == map[]
    ensures AgreesAt(Alone(s, writer), l) && Alone(s, writer).calls == map[]
  {
    StepAgreesIff(s, Begin(0, writer), l);
    StepAgreesIff(Next(s, Begin(0, writer)), Finish(0), l);
  }

  // ----- One case of each kind of loss -----

  /** A listing on sale and indexed. */
  function OnSale(owner: nat): Site {
    Next(Next(Empty(), Create(owner)), Sync(0))
  }

  lemma IsOnSale(owner: nat)
    ensures OnSale(owner) == Empty().(rows := [Row(owner, Active)], index := {0})
  {
    assert multiset({0}) == multiset{0};
  }

  /** Bought and then cancelled for want of a payment, it is Active and missing from the index, with no sync to come. */
  lemma ReactivatedIsMissing(owner: nat, buyer: nat)
    ensures var s := Next(Next(Next(OnSale(owner), PlaceOrder(buyer, 0, false)), Sync(0)), GiveUpPayment(0));
      IsActive(s, 0) && 0 !in s.index && s.owed == multiset{}
  {
    IsOnSale(owner);
    assert multiset({0}) == multiset{0};
  }

  /** A listing its seller has paused, out of the index. */
  function PausedBy(owner: nat): Site {
    Next(Alone(OnSale(owner), Edit(0, Some(Paused))), Sync(0))
  }

  lemma IsPaused(owner: nat)
    ensures PausedBy(owner) == Empty().(rows := [Row(owner, Paused)])
  {
    IsOnSale(owner);
    AloneIs(OnSale(owner), Edit(0, Some(Paused)));
    assert multiset({0}) == multiset{0};
    var s := Alone(OnSale(owner), Edit(0, Some(Paused)));
    assert s.rows == [Row(owner, Paused)] && s.calls == map[] && s.owed == multiset{0};
  }

  /** A ban reads while the listing is paused, and the seller then puts it back on sale. */
  function BanUnderWay(owner: nat): Site {
    var s := Next(PausedBy(owner), Begin(1, Ban(owner)));
    Next(Next(Next(s, Begin(0, Edit(0, Some(Active)))), Finish(0)), Sync(0))
  }

  /** The seller's edit of the only listing, from its write to its sync. */
  lemma EditRuns(s: Site, owner: nat)
    requires s.owed == multiset{} && s.index == {} && s.rows == [Row(owner, Paused)]
    requires 0 in s.calls && s.calls[0].writer == Edit(0, Some(Active))
    ensures Next(Next(s, Finish(0)), Sync(0)) == s.(rows := [Row(owner, Active)], index := {0}, calls := s.calls - {0})
  {
    var t := Next(s, Finish(0));
    assert multiset({0}) == multiset{0};
    assert t.rows == [Row(owner, Active)] && t.owed == multiset{0};
  }

  /** A read that finds no listing on sale. */
  lemma Begins(s: Site, id: nat, writer: Writer, owner: nat)
    requires id !in s.calls && s.rows == [Row(owner, Paused)]
      && (writer == Ban(owner) || writer == Edit(0, Some(Active)))
    ensures Next(s, Begin(id, writer)) == s.(calls := s.calls[id := Call(writer, {})])
  {
    assert Matching(s.rows, writer) == {};
  }

  lemma IsUnderWay(owner: nat)
    ensures BanUnderWay(owner) ==
      Empty().(rows := [Row(owner, Active)], index := {0}, calls := map[1 := Call(Ban(owner), {})])
  {
    IsPaused(owner);
    Begins(PausedBy(owner), 1, Ban(owner), owner);
    var s := PausedBy(owner).(calls := map[1 := Call(Ban(owner), {})]);
    Begins(s, 0, Edit(0, Some(Active)), owner);
    var t := s.(calls := s.calls[0 := Call(Edit(0, Some(Active)), {})]);
    EditRuns(t, owner);
    assert t.calls - {0} == s.calls;
  }

  /** When the ban writes, the listing is Suspended but stays in the index, with no sync to come. */
  lemma BannedStaysListed(owner: nat)
    ensures var s := Next(BanUnderWay(owner), Finish(1));
      s.rows == [Row(owner, Suspended)] && 0 in s.index && s.owed == multiset{}
  {
    IsUnderWay(owner);
    assert 0 in Matching([Row(owner, Active)], Ban(owner));
  }

  /** The only listing, with the index in step and no sync outstanding. */
  function One(owner: nat, status: Status, calls: map<nat, Call>): Site {
    Empty().(rows := [Row(owner, status)], index := if status == Active then {0} else {}, calls := calls)
  }

  lemma BeginsOne(owner: nat, status: Status, calls: map<nat, Call>, id: nat, writer: Writer)
    requires !IsBulk(writer) && MayBegin(One(owner, status, calls), writer) && id !in calls
    ensures Next(One(owner, status, calls), Begin(id, writer)) ==
      One(owner, status, calls[id := Call(writer, {})])
  {
    assert Matching([Row(owner, status)], writer) == {};
  }

  lemma WritesOne(owner: nat, status: Status, calls: map<nat, Call>, to: Status)
    requires status != Reaped
    ensures var s := One(owner, status, calls); Write(s, {0}, to) == s.(rows := [Row(owner, to)])
    ensures var s := One(owner, status, calls); s.owed + multiset({0}) == multiset{0}
  {
    assert multiset({0}) == multiset{0};
  }

  lemma SyncsOne(s: Site, owner: nat, to: Status)
    requires s.rows == [Row(owner, to)] && s.owed == multiset{0} && s.orders == [] && s.index <= {0}
    ensures Next(s, Sync(0)) == One(owner, to, s.calls)
  {
    assert s.owed - multiset{0} == multiset{};
    assert s.index + {0} == {0} && s.index - {0} == {};
  }

  /** A moderator's write on one listing, and its sync. */
  lemma FinishesOne(owner: nat, status: Status, calls: map<nat, Call>, id: nat, to: Status)
    requires status != Reaped && id in calls && (to == Active || to == Suspended)
    requires calls[id].writer == if to == Active then Unsuspend(0) else Suspend(0)
    ensures Next(Next(One(owner, status, calls), Finish(id)), Sync(0)) == One(owner, to, calls - {id})
  {
    var s := One(owner, status, calls);
    WritesOne(owner, status, calls, to);
    assert WriteUp(s, calls[id]) == s.(rows := [Row(owner, to)], owed := multiset{0});
    SyncsOne(Next(s, Finish(id)), owner, to);
  }

  lemma HidesOne(owner: nat, status: Status, calls: map<nat, Call>)
    requires status != Reaped
    ensures Next(Next(One(owner, status, calls), Hide(0)), Sync(0)) == One(owner, Deleted, calls)
  {
    WritesOne(owner, status, calls, Deleted);
    SyncsOne(Next(One(owner, status, calls), Hide(0)), owner, Deleted);
  }

  /** A moderator reads a suspended listing to lift the suspension, another hides it after a report, the retention job
      reads it, and then the first one's write puts it back on sale. There is no clock here: the first one is in flight
      for the whole retention period. */
  function ReapUnderWay(owner: nat): Site {
    var s := Next(Next(Next(OnSale(owner), Begin(0, Suspend(0))), Finish(0)), Sync(0));
    var t := Next(Next(Next(s, Begin(0, Unsuspend(0))), Hide(0)), Sync(0));
    Next(Next(Next(t, Begin(1, Reap(0))), Finish(0)), Sync(0))
  }

  lemma IsReapUnderWay(owner: nat)
    ensures ReapUnderWay(owner) == One(owner, Active, map[1 := Call(Reap(0), {})])
  {
    IsOnSale(owner);
    var suspend, unsuspend, reap := Call(Suspend(0), {}), Call(Unsuspend(0), {}), Call(Reap(0), {});
    BeginsOne(owner, Active, map[], 0, Suspend(0));
    FinishesOne(owner, Active, map[0 := suspend], 0, Suspended);
    assert map[0 := suspend] - {0} == map[];
    BeginsOne(owner, Suspended, map[], 0, Unsuspend(0));
    HidesOne(owner, Suspended, map[0 := unsuspend]);
    BeginsOne(owner, Deleted, map[0 := unsuspend], 1, Reap(0));
    FinishesOne(owner, Deleted, map[0 := unsuspend, 1 := reap], 0, Active);
    assert map[0 := unsuspend, 1 := reap] - {0} == map[1 := reap];
  }

  lemma ReapsOne(owner: nat)
    ensures var s := One(owner, Active, map[1 := Call(Reap(0), {})]);
      Next(s, Finish(1)) == s.(rows := [Row(owner, Reaped)], calls := map[])
  {
    var s := One(owner, Active, map[1 := Call(Reap(0), {})]);
    WritesOne(owner, Active, s.calls, Reaped);
    assert WriteUp(s, s.calls[1]) == Write(s, {0}, Reaped);
    assert s.calls - {1} == map[];
  }

  /** The retention job deletes the row, and the index still lists it, with no sync to come. */
  lemma ReapedStaysListed(owner: nat)
    ensures var s := Next(ReapUnderWay(owner), Finish(1));
      s.rows == [Row(owner, Reaped)] && 0 in s.index && s.owed == multiset{}
  {
    IsReapUnderWay(owner);
    ReapsOne(owner);
  }
}
