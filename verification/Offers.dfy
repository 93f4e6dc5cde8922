/** Counter-offers: every negotiation is a simple path of alternating offers, at most three counters long, whatever
    order the two parties' calls commit in. Ids are positions in the append-only offer table. */
module Offers {
  import opened Basics

  const MAX_OFFER_COUNTERS: nat := 3
  const OFFER_EXPIRY: int := 48 * HOUR

  datatype OfferStatus = Pending | Accepted | Rejected | Countered

  /** `seller` is the seller of the offer's listing, which never changes. */
  datatype Offer = Offer(
    listing: nat, seller: nat, buyer: nat, amount: nat, status: OfferStatus, expires: int,
    parent: Option<nat>, counters: nat, maker: nat, createdAt: int)

  datatype Book = Book(now: int, offers: seq<Offer>)

  /** A call whose first read has passed its checks. */
  datatype Call =
    | Accepting(o: nat)
    | Rejecting(o: nat)
    | Countering(o: nat, seen: Offer, actor: nat, amount: nat)

  datatype World = World(book: Book, calls: map<nat, Call>)

  datatype Step =
    | Make(listing: nat, seller: nat, price: nat, buyer: nat, amount: nat)
    | BeginAccept(id: nat, o: nat, user: nat)
    | BeginReject(id: nat, o: nat, user: nat)
    | BeginCounter(id: nat, o: nat, actor: nat, price: nat, amount: nat)
    | Commit(id: nat)
    | Crash(id: nat)
    | CloseAll(buyer: nat)
    | Tick(seconds: nat)

  // ----- The transactions -----

  predicate AboveFloor(amount: nat, price: nat) { 2 * amount >= price }

  function Create(b: Book, listing: nat, seller: nat, price: nat, buyer: nat, amount: nat): Book {
    if seller == buyer || !AboveFloor(amount, price) then b
    else b.(offers := b.offers
      + [Offer(listing, seller, buyer, amount, Pending, b.now + OFFER_EXPIRY, None, 0, buyer, b.now)])
  }

  predicate CanAnswer(b: Book, o: nat, user: nat) {
    o < |b.offers| && b.offers[o].seller == user && b.offers[o].status == Pending
  }

  predicate CanCounter(b: Book, o: nat, actor: nat, price: nat, amount: nat) {
    && o < |b.offers| && b.offers[o].status == Pending && b.offers[o].expires > b.now
    && b.offers[o].counters < MAX_OFFER_COUNTERS
    && actor != b.offers[o].maker && (actor == b.offers[o].seller || actor == b.offers[o].buyer)
    && AboveFloor(amount, price)
  }

  function SetStatus(b: Book, o: nat, s: OfferStatus): Book
    requires o < |b.offers|
  {
    b.(offers := b.offers[o := b.offers[o].(status := s)])
  }

  /** What each call's transaction does if it still wins its claim. */
  function Apply(b: Book, call: Call): Book {
    if call.o >= |b.offers| || b.offers[call.o].status != Pending then b
    else match call
      case Accepting(o) => if b.offers[o].expires > b.now then SetStatus(b, o, Accepted) else b
      case Rejecting(o) => SetStatus(b, o, Rejected)
      case Countering(o, seen, actor, amount) =>
        var answered := SetStatus(b, o, Countered);
        answered.(offers := answered.offers + [Offer(
          seen.listing, seen.seller, seen.buyer, amount, Pending, b.now + OFFER_EXPIRY, Some(o), seen.counters + 1,
          actor, b.now)])
  }

  function Closed(offers: seq<Offer>, buyer: nat): (r: seq<Offer>)
    ensures |r| == |offers|
    ensures forall i :: 0 <= i < |offers| ==>
      r[i] ==
      if offers[i].buyer == buyer && offers[i].status == Pending then offers[i].(status := Rejected) else offers[i]
  {
    seq(|offers|, i requires 0 <= i < |offers| =>
      if offers[i].buyer == buyer && offers[i].status == Pending then offers[i].(status := Rejected) else offers[i])
  }

  function Start(w: World, id: nat, allowed: bool, call: Call): World {
    if id !in w.calls && allowed then w.(calls := w.calls[id := call]) else w
  }

  function Next(w: World, s: Step): World {
    match s
    case Make(listing, seller, price, buyer, amount) =>
      w.(book := Create(w.book, listing, seller, price, buyer, amount))
    case BeginAccept(id, o, user) =>
      Start(w, id, CanAnswer(w.book, o, user) && w.book.offers[o].expires > w.book.now, Accepting(o))
    case BeginReject(id, o, user) => Start(w, id, CanAnswer(w.book, o, user), Rejecting(o))
    case BeginCounter(id, o, actor, price, amount) =>
      if !CanCounter(w.book, o, actor, price, amount) then w
      else Start(w, id, true, Countering(o, w.book.offers[o], actor, amount))
    case Commit(id) => if id in w.calls then World(Apply(w.book, w.calls[id]), w.calls - {id}) else w
    case Crash(id) => w.(calls := w.calls - {id})
    case CloseAll(buyer) => w.(book := w.book.(offers := Closed(w.book.offers, buyer)))
    case Tick(seconds) => w.(book := w.book.(now := w.book.now + seconds))
  }

  predicate Init(w: World) {
    w.book.offers == [] && w.calls == map[]
  }

  function Run(w: World, steps: seq<Step>): World {
    if |steps| == 0 then w else Next(Run(w, steps[..|steps| - 1]), steps[|steps| - 1])
  }

  // ----- Negotiations are simple paths -----

  predicate SameDeal(a: Offer, b: Offer) {
    && a.listing == b.listing && a.seller == b.seller && a.buyer == b.buyer
    && a.maker == b.maker && a.counters == b.counters && a.parent == b.parent && a.createdAt == b.createdAt
  }

  /** An offer opens a negotiation for the buyer, or counters, as the other party, one that was countered. */
  predicate LinkOk(offers: seq<Offer>, n: nat)
    requires n < |offers|
  {
    var f := offers[n];
    && f.seller != f.buyer && f.counters <= MAX_OFFER_COUNTERS
    && match f.parent
       case None => f.counters == 0 && f.maker == f.buyer
       case Some(p) =>
         && p < n && offers[p].status == Countered
         && f.counters == offers[p].counters + 1
         && f.listing == offers[p].listing && f.seller == offers[p].seller && f.buyer == offers[p].buyer
         && f.maker != offers[p].maker && (f.maker == f.seller || f.maker == f.buyer)
         && offers[p].createdAt <= f.createdAt
  }

  ghost predicate HasChild(offers: seq<Offer>, p: nat) {
    exists n :: 0 <= n < |offers| && offers[n].parent == Some(p)
  }

  ghost predicate PathsOk(offers: seq<Offer>) {
    && (forall n :: 0 <= n < |offers| ==> LinkOk(offers, n))
    && (forall m, n :: 0 <= m < n < |offers| && offers[m].parent.Some? ==> offers[m].parent != offers[n].parent)
    && (forall p :: 0 <= p < |offers| && offers[p].status == Countered ==> HasChild(offers, p))
  }

  predicate CallOk(b: Book, call: Call) {
    match call
    case Countering(o, seen, actor, _) =>
      && o < |b.offers| && SameDeal(seen, b.offers[o])
      && seen.counters < MAX_OFFER_COUNTERS && actor != seen.maker && (actor == seen.seller || actor == seen.buyer)
    case _ => true
  }

  ghost predicate Inv(w: World) {
    && PathsOk(w.book.offers)
    && (forall n :: 0 <= n < |w.book.offers| ==> w.book.offers[n].createdAt <= w.book.now)
    && forall id <- w.calls :: CallOk(w.book, w.calls[id])
  }

  /** Rows only gain answers: a Pending offer gets a status once, and nothing else of any offer changes. */
  ghost predicate Answered(a: seq<Offer>, b: seq<Offer>) {
    |a| <= |b| && forall n :: 0 <= n < |a| ==>
      SameDeal(a[n], b[n]) && (a[n].status != Pending ==> b[n] == a[n])
  }

  lemma StepAnswers(w: World, s: Step)
    ensures Answered(w.book.offers, Next(w, s).book.offers)
  {
  }

  /** No new offer, and no offer newly Countered. */
  lemma AnswersKeepPaths(a: seq<Offer>, b: seq<Offer>)
    requires PathsOk(a) && Answered(a, b) && |a| == |b|
    requires forall n :: 0 <= n < |a| && b[n].status == Countered ==> a[n].status == Countered
    ensures PathsOk(b)
  {
    forall n | 0 <= n < |b| ensures LinkOk(b, n) {
      assert LinkOk(a, n);
    }
    forall p | 0 <= p < |b| && b[p].status == Countered ensures HasChild(b, p) {
      assert HasChild(a, p);
      var n :| 0 <= n < |a| && a[n].parent == Some(p);
      assert b[n].parent == Some(p);
    }
  }

  lemma NewOfferKeepsPaths(a: seq<Offer>, b: seq<Offer>)
    requires PathsOk(a) && Answered(a, b) && |b| == |a| + 1 && LinkOk(b, |a|) && b[|a|].status == Pending
    requires forall n :: 0 <= n < |a| ==> b[n] == a[n] || (b[|a|].parent == Some(n) && a[n].status == Pending)
    requires b[|a|].parent.Some? ==> a[b[|a|].parent.value].status == Pending
    ensures PathsOk(b)
  {
    var k := |a|;
    forall n | 0 <= n < |b| ensures LinkOk(b, n) {
      if n < k {
        assert LinkOk(a, n);
      }
    }
    forall m, n | 0 <= m < n < |b| && b[m].parent.Some? ensures b[m].parent != b[n].parent {
      if n == k {
        assert LinkOk(a, m);
      } else {
        assert a[m].parent != a[n].parent;
      }
    }
    forall p | 0 <= p < |b| && b[p].status == Countered ensures HasChild(b, p) {
      if b[k].parent != Some(p) {
        assert HasChild(a, p);
        var n :| 0 <= n < |a| && a[n].parent == Some(p);
        assert b[n].parent == Some(p);
      }
    }
  }

  lemma NextKeeps(w: World, s: Step)
    requires Inv(w)
    ensures Inv(Next(w, s))
  {
    var a, b := w.book.offers, Next(w, s).book.offers;
    StepAnswers(w, s);
    if |b| == |a| {
      AnswersKeepPaths(a, b);
    } else {
      assert s.Commit? ==> CallOk(w.book, w.calls[s.id]) && LinkOk(a, w.calls[s.id].o);
      NewOfferKeepsPaths(a, b);
    }
  }

  lemma {:induction false} RunKeeps(w: World, steps: seq<Step>)
    requires Init(w)
    ensures Inv(Run(w, steps))
  {
    if |steps| > 0 {
      RunKeeps(w, steps[..|steps| - 1]);
      NextKeeps(Run(w, steps[..|steps| - 1]), steps[|steps| - 1]);
    }
  }

  /** In every run each offer either opens a negotiation, made by the buyer, or counters exactly one earlier offer, as
      the other of the same two parties; it is the only one to counter it, at depth one more and at most three. */
  lemma OffersFormPaths(w: World, steps: seq<Step>, n: nat)
    requires Init(w) && n < |Run(w, steps).book.offers|
    ensures var offers := Run(w, steps).book.offers;
      && LinkOk(offers, n)
      && (offers[n].status == Countered <==> HasChild(offers, n))
      && (forall m :: 0 <= m < |offers| && m != n && offers[m].parent.Some? ==> offers[m].parent != offers[n].parent)
  {
    RunKeeps(w, steps);
    var offers := Run(w, steps).book.offers;
    if HasChild(offers, n) {
      var m :| 0 <= m < |offers| && offers[m].parent == Some(n);
      assert LinkOk(offers, m);
    }
  }

  /** In every run an answered offer keeps its answer for good. */
  lemma {:induction false} AnswersAreFinal(earlier: World, later: seq<Step>, o: nat)
    requires o < |earlier.book.offers| && earlier.book.offers[o].status != Pending
    ensures o < |Run(earlier, later).book.offers| && Run(earlier, later).book.offers[o] == earlier.book.offers[o]
  {
    if |later| > 0 {
      AnswersAreFinal(earlier, later[..|later| - 1], o);
      StepAnswers(Run(earlier, later[..|later| - 1]), later[|later| - 1]);
    }
  }

  /** Accepting looks at the seller alone, so an accepted offer was made by the other party exactly when it was the
      buyer's: the seller's own counter-offer can be accepted by the seller. */
  lemma AcceptedByOtherPartyIff(w: World, steps: seq<Step>, id: nat, o: nat, user: nat)
    requires Init(w)
    requires var b := Run(w, steps).book;
      CanAnswer(b, o, user) && b.offers[o].expires > b.now && id !in Run(w, steps).calls
    ensures var v := Next(Next(Run(w, steps), BeginAccept(id, o, user)), Commit(id));
      && v.book.offers[o].status == Accepted
      && (v.book.offers[o].maker != user <==> v.book.offers[o].maker == v.book.offers[o].buyer)
  {
    RunKeeps(w, steps);
    assert LinkOk(Run(w, steps).book.offers, o);
    OwnCounter(Run(w, steps).book.offers, o);
  }

  lemma OneMore(w: World, steps: seq<Step>, s: Step)
    ensures Run(w, steps + [s]) == Next(Run(w, steps), s)
  {
    assert (steps + [s])[..|steps|] == steps;
  }

  /** A seller counters a buyer's offer and accepts that counter-offer. */
  lemma SellerAcceptsOwnCounter(seller: nat, buyer: nat, price: nat) returns (steps: seq<Step>)
    requires seller != buyer
    ensures var v := Run(World(Book(0, []), map[]), steps);
      |v.book.offers| == 2 && v.book.offers[1].status == Accepted
        && v.book.offers[1].maker == seller == v.book.offers[1].seller
  {
    var w := World(Book(0, []), map[]);
    steps := [Make(0, seller, price, buyer, price)];
    assert steps[..0] == [] && Run(w, steps) == Next(w, steps[0]);
    OneMore(w, steps, BeginCounter(0, 0, seller, price, price));
    steps := steps + [BeginCounter(0, 0, seller, price, price)];
    OneMore(w, steps, Commit(0)); steps := steps + [Commit(0)];
    assert Run(w, steps).calls == map[] && |Run(w, steps).book.offers| == 2;
    OneMore(w, steps, BeginAccept(0, 1, seller)); steps := steps + [BeginAccept(0, 1, seller)];
    OneMore(w, steps, Commit(0)); steps := steps + [Commit(0)];
  }

  lemma OwnCounter(offers: seq<Offer>, o: nat)
    requires PathsOk(offers) && o < |offers|
    ensures offers[o].maker == offers[o].seller || offers[o].maker == offers[o].buyer
  {
    assert LinkOk(offers, o);
  }

  // ----- Reading a negotiation back -----

  /** The next offer of the negotiation after r, looking from position i on. */
  function ChildFrom(offers: seq<Offer>, r: nat, i: nat): (c: Option<nat>)
    ensures c.Some? ==> i <= c.value < |offers| && offers[c.value].parent == Some(r)
    ensures c.None? ==> forall n :: i <= n < |offers| ==> offers[n].parent != Some(r)
    decreases |offers| - i
  {
    if i >= |offers| then None
    else if offers[i].parent == Some(r) then Some(i)
    else ChildFrom(offers, r, i + 1)
  }

  /** The negotiation from r on, in order. */
  function Thread(offers: seq<Offer>, r: nat): (t: seq<nat>)
    requires r < |offers|
    ensures |t| > 0 && t[0] == r && forall i :: 0 <= i < |t| ==> r <= t[i] < |offers|
    decreases |offers| - r
  {
    match ChildFrom(offers, r, r + 1)
    case None => [r]
    case Some(c) => [r] + Thread(offers, c)
  }

  function Root(offers: seq<Offer>, o: nat): (r: nat)
    requires o < |offers|
    ensures r <= o
  {
    if offers[o].parent.Some? && offers[o].parent.value < o then Root(offers, offers[o].parent.value) else o
  }

  function First(t: seq<nat>, n: nat): seq<nat> {
    if |t| <= n then t else t[..n]
  }

  /** Every offer is on the thread of its root, at its own depth, and a thread is at most four offers long. */
  lemma {:induction false} OnItsThread(offers: seq<Offer>, o: nat)
    requires PathsOk(offers) && o < |offers|
    ensures offers[Root(offers, o)].parent == None
    ensures var t := Thread(offers, Root(offers, o)); offers[o].counters < |t| && t[offers[o].counters] == o
  {
    assert LinkOk(offers, o);
    if offers[o].parent.Some? {
      var p := offers[o].parent.value;
      OnItsThread(offers, p);
      ThreadGoesOn(offers, Root(offers, o), offers[p].counters, o);
    }
  }

  lemma {:induction false} ThreadGoesOn(offers: seq<Offer>, r: nat, i: nat, o: nat)
    requires PathsOk(offers) && r < |offers| && o < |offers| && i < |Thread(offers, r)|
    requires offers[o].parent == Some(Thread(offers, r)[i])
    ensures i + 1 < |Thread(offers, r)| && Thread(offers, r)[i + 1] == o
    decreases i
  {
    assert LinkOk(offers, o);
    if i == 0 {
      assert ChildFrom(offers, r, r + 1) == Some(o) by {
        var c := ChildFrom(offers, r, r + 1);
        assert c.Some? ==> offers[c.value].parent == offers[o].parent;
      }
    } else {
      var c := ChildFrom(offers, r, r + 1).value;
      ThreadGoesOn(offers, c, i - 1, o);
    }
  }

  /** A thread's offers are consecutive counters: depth, parent and time all follow its order. */
  lemma {:induction false} ThreadIsPath(offers: seq<Offer>, r: nat, i: nat)
    requires PathsOk(offers) && r < |offers| && i < |Thread(offers, r)|
    ensures var t := Thread(offers, r);
      && offers[t[i]].counters == offers[r].counters + i
      && (i > 0 ==>
            && offers[t[i]].parent == Some(t[i - 1]) && t[i - 1] < t[i]
            && offers[t[i - 1]].createdAt <= offers[t[i]].createdAt)
    decreases i
  {
    if i > 0 {
      var c := ChildFrom(offers, r, r + 1).value;
      assert LinkOk(offers, c);
      ThreadIsPath(offers, c, i - 1);
    }
  }

  lemma ThreadIsShort(offers: seq<Offer>, r: nat)
    requires PathsOk(offers) && r < |offers|
    ensures |Thread(offers, r)| <= MAX_OFFER_COUNTERS + 1
  {
    var last := |Thread(offers, r)| - 1;
    ThreadIsPath(offers, r, last);
    assert LinkOk(offers, Thread(offers, r)[last]);
  }

  /** Keeping the first three of a negotiation loses its last offer exactly when it has used up its counter-offers. */
  lemma FirstThreeLosesIff(offers: seq<Offer>, r: nat)
    requires PathsOk(offers) && r < |offers| && offers[r].parent == None
    ensures var t := Thread(offers, r);
      First(t, 3) != t <==> offers[t[|t| - 1]].counters == MAX_OFFER_COUNTERS
  {
    var t := Thread(offers, r);
    ThreadIsShort(offers, r);
    ThreadIsPath(offers, r, |t| - 1);
    assert LinkOk(offers, r);
  }

  /** The other party counters the latest offer, with nothing in between. */
  lemma Haggle(w: World, steps: seq<Step>, actor: nat, price: nat) returns (more: seq<Step>)
    requires var v := Run(w, steps);
      v.calls == map[] && |v.book.offers| > 0 && CanCounter(v.book, |v.book.offers| - 1, actor, price, price)
    ensures var b := Run(w, steps).book; var o := |b.offers| - 1;
      Run(w, more) == World(Apply(b, Countering(o, b.offers[o], actor, price)), map[])
  {
    var v := Run(w, steps);
    var s := BeginCounter(0, |v.book.offers| - 1, actor, price, price);
    OneMore(w, steps, s);
    OneMore(w, steps + [s], Commit(0));
    more := steps + [s] + [Commit(0)];
    assert Run(w, more).calls == map[];
  }

  lemma ReachFour(seller: nat, buyer: nat, price: nat) returns (steps: seq<Step>)
    requires seller != buyer
    ensures var offers := Run(World(Book(0, []), map[]), steps).book.offers; |offers| == 4 && offers[3].counters == 3
  {
    var w := World(Book(0, []), map[]);
    steps := [Make(0, seller, price, buyer, price)];
    assert steps[..0] == [] && Run(w, steps) == Next(w, steps[0]);
    steps := Haggle(w, steps, seller, price);
    steps := Haggle(w, steps, buyer, price);
    steps := Haggle(w, steps, seller, price);
  }

  /** A negotiation of four offers, of which the first three do not hold the last. */
  lemma FourOffers(seller: nat, buyer: nat, price: nat) returns (steps: seq<Step>)
    requires seller != buyer
    ensures var offers := Run(World(Book(0, []), map[]), steps).book.offers;
      |offers| == 4 && |Thread(offers, Root(offers, 3))| == 4 && 3 !in First(Thread(offers, Root(offers, 3)), 3)
  {
    steps := ReachFour(seller, buyer, price);
    var offers := Run(World(Book(0, []), map[]), steps).book.offers;
    RunKeeps(World(Book(0, []), map[]), steps);
    OnItsThread(offers, 3);
    ThreadIsShort(offers, Root(offers, 3));
    assert LinkOk(offers, Root(offers, 3));
    forall i | 0 <= i < 3
      ensures Thread(offers, Root(offers, 3))[i] != 3
    {
      ThreadIsPath(offers, Root(offers, 3), i);
    }
  }
}
