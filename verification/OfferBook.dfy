/** The offer table, changed in place. */
module OfferBook {
  import opened Basics
  import opened Offers

  class OfferBook {
    var now: int
    var offers: seq<Offer>

    function View(): Book
      reads this
    {
      Book(now, offers)
    }

    ghost predicate Valid()
      reads this
    {
      PathsOk(offers) && forall n :: 0 <= n < |offers| ==> offers[n].createdAt <= now
    }

    constructor ()
      ensures Valid() && View() == Book(0, [])
    {
      now, offers := 0, [];
    }

    method Create(listing: nat, seller: nat, price: nat, buyer: nat, amount: nat) returns (o: Option<nat>)
      requires Valid()
      modifies this`offers
      ensures Valid() && View() == Offers.Create(old(View()), listing, seller, price, buyer, amount)
      ensures o == if seller != buyer && AboveFloor(amount, price) then Some(|old(offers)|) else None
    {
      if seller == buyer || !AboveFloor(amount, price) {
        return None;
      }
      ghost var before := offers;
      offers := offers + [Offer(listing, seller, buyer, amount, Pending, now + OFFER_EXPIRY, None, 0, buyer, now)];
      NewOfferKeepsPaths(before, offers);
      return Some(|offers| - 1);
    }

    /** updateMany on a pending offer. */
    method ClaimOffer(o: nat, status: OfferStatus) returns (count: nat)
      requires o < |offers| && status != Countered
      requires Valid()
      modifies this`offers
      ensures count == if old(offers)[o].status == Pending then 1 else 0
      ensures Valid() && View() == if count == 1 then SetStatus(old(View()), o, status) else old(View())
    {
      if offers[o].status != Pending {
        return 0;
      }
      ghost var before := offers;
      offers := offers[o := offers[o].(status := status)];
      AnswersKeepPaths(before, offers);
      return 1;
    }

    method Accept(o: nat, user: nat) returns (accepted: bool)
      requires Valid()
      modifies this`offers
      ensures accepted <==> CanAnswer(old(View()), o, user) && old(offers)[o].expires > now
      ensures Valid() && View() == if accepted then Apply(old(View()), Accepting(o)) else old(View())
    {
      if o >= |offers| || offers[o].seller != user || offers[o].status != Pending || offers[o].expires <= now {
        return false;
      }
      var count := ClaimOffer(o, Accepted);
      return count == 1;
    }

    method Reject(o: nat, user: nat) returns (rejected: bool)
      requires Valid()
      modifies this`offers
      ensures rejected <==> CanAnswer(old(View()), o, user)
      ensures Valid() && View() == if rejected then Apply(old(View()), Rejecting(o)) else old(View())
    {
      if o >= |offers| || offers[o].seller != user || offers[o].status != Pending {
        return false;
      }
      var count := ClaimOffer(o, Rejected);
      return count == 1;
    }

    method Counter(o: nat, actor: nat, price: nat, amount: nat) returns (made: Option<nat>)
      requires Valid()
      modifies this`offers
      ensures made == if CanCounter(old(View()), o, actor, price, amount) then Some(|old(offers)|) else None
      ensures Valid()
      ensures View() ==
        if made.Some? then Apply(old(View()), Countering(o, old(offers)[o], actor, amount)) else old(View())
      ensures made.Some? ==> Root(offers, made.value) == Root(offers, o)
    {
      if o >= |offers| {
        return None;
      }
      var prev := offers[o];
      if prev.status != Pending || prev.expires <= now || prev.counters >= MAX_OFFER_COUNTERS {
        return None;
      }
      if actor == prev.maker || (actor != prev.seller && actor != prev.buyer) || !AboveFloor(amount, price) {
        return None;
      }
      ghost var before := offers;
      assert LinkOk(before, o);
      offers := offers[o := prev.(status := Countered)];
      offers := offers + [Offer(
        prev.listing, prev.seller, prev.buyer, amount, Pending, now + OFFER_EXPIRY, Some(o),
        prev.counters + 1, actor, now)];
      NewOfferKeepsPaths(before, offers);
      return Some(|offers| - 1);
    }

    /** The root and the offers that answer it, in order of creation. */
    method RootAndAnswers(root: nat, ghost child: Option<nat>) returns (ids: seq<nat>)
      requires Valid() && root < |offers| && child == ChildFrom(offers, root, root + 1)
      ensures ids == [root] + Upto(child, |offers|)
    {
      ids := [];
      for i := 0 to |offers|
        invariant ids == Upto(Some(root), i) + Upto(child, i)
      {
        assert LinkOk(offers, i);
        assert offers[i].parent == Some(root) <==> child == Some(i);
        if i == root || offers[i].parent == Some(root) {
          ids := ids + [i];
        }
      }
    }

    /** The offers that answer one of those, and are not among them. */
    method FurtherAnswers(near: seq<nat>, ghost root: nat, ghost child: Option<nat>, ghost grandchild: Option<nat>)
      returns (ids: seq<nat>)
      requires Valid() && root < |offers| && child == ChildFrom(offers, root, root + 1)
        && near == [root] + Upto(child, |offers|)
      requires grandchild == if child.Some? then ChildFrom(offers, child.value, child.value + 1) else None
      ensures ids == Upto(grandchild, |offers|)
    {
      ids := [];
      for i := 0 to |offers|
        invariant ids == Upto(grandchild, i)
      {
        assert LinkOk(offers, i);
        if offers[i].parent.Some? && offers[i].parent.value in near && i !in near {
          ids := ids + [i];
        }
      }
    }

    /** Walks up to the root, then collects the root with its answer, then what answers those. The result is in order
        of creation (Offers.ThreadIsPath), so sorting it changes nothing. A negotiation of four offers loses its
        last. */
    method FindThread(o: nat, user: nat) returns (thread: Option<seq<nat>>)
      requires Valid()
      ensures thread.Some? <==> o < |offers| && (offers[o].buyer == user || offers[o].seller == user)
      ensures thread.Some? ==> thread.value == First(Thread(offers, Root(offers, o)), 3)
    {
      if o >= |offers| || (offers[o].buyer != user && offers[o].seller != user) {
        return None;
      }
      var root: nat := o;
      while offers[root].parent.Some?
        invariant root < |offers| && Root(offers, root) == Root(offers, o)
        decreases root
      {
        assert LinkOk(offers, root);
        root := offers[root].parent.value;
      }
      ghost var child := ChildFrom(offers, root, root + 1);
      ghost var grandchild := if child.Some? then ChildFrom(offers, child.value, child.value + 1) else None;
      var near := RootAndAnswers(root, child);
      var further := FurtherAnswers(near, root, child, grandchild);
      thread := Some(near + further);
      FirstThree(offers, root, child, grandchild);
    }
  }

  function Upto(x: Option<nat>, n: nat): seq<nat> {
    if x.Some? && x.value < n then [x.value] else []
  }

  lemma FirstThree(offers: seq<Offer>, r: nat, child: Option<nat>, grandchild: Option<nat>)
    requires r < |offers| && child == ChildFrom(offers, r, r + 1)
    requires grandchild == if child.Some? then ChildFrom(offers, child.value, child.value + 1) else None
    ensures First(Thread(offers, r), 3) == [r] + Upto(child, |offers|) + Upto(grandchild, |offers|)
  {
    assert child.Some? ==> Thread(offers, r) == [r] + Thread(offers, child.value);
    assert grandchild.Some? ==> Thread(offers, child.value) == [child.value] + Thread(offers, grandchild.value);
  }
}
