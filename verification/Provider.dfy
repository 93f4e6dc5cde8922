/** The payment provider's client: a request is repeated with the same idempotency key while the failure may be
    transient, and the keys of different payment attempts differ. */
module Provider {
  import opened Basics

  const MAX_REQUEST_RETRIES: nat := 3
  const REQUEST_TIMEOUT: nat := 30000

  datatype Reply = Success | Failure(status: nat) | Lost

  /** One attempt on the wire: whether the provider accepted the request, what came back, and how long that took. */
  datatype Attempt = Attempt(arrived: bool, reply: Reply, millis: nat)

  datatype Result = Done | Exhausted(status: nat) | Refused(status: nat) | Unreachable

  predicate Retryable(status: nat) {
    status == 429 || status == 500 || status == 502 || status == 503 || status == 504
  }

  /** The provider says success only of what it accepted, and refuses for good only what it did not; the client gives
      up on a reply after half a minute. Anything may be lost on the way back. */
  predicate Honest(a: Attempt) {
    && (a.reply.Success? ==> a.arrived) && (a.reply.Failure? && !Retryable(a.reply.status) ==> !a.arrived)
    && a.millis <= REQUEST_TIMEOUT
  }

  predicate Transient(r: Reply) {
    r.Lost? || (r.Failure? && Retryable(r.status))
  }

  /** Waited before retry number `attempt`. */
  function Backoff(attempt: nat): nat {
    1000 * Power(attempt)
  }

  function Power(n: nat): nat {
    if n == 0 then 1 else 2 * Power(n - 1)
  }

  class Provider {
    var accepted: set<nat>
    var moved: multiset<nat>

    /** The money of every key it has accepted has moved exactly once. */
    ghost predicate Valid()
      reads this
    {
      moved == multiset(accepted)
    }

    constructor ()
      ensures Valid() && accepted == {}
    {
      accepted, moved := {}, multiset{};
    }

    method Receive(key: nat)
      requires Valid()
      modifies this
      ensures Valid() && accepted == old(accepted) + {key}
    {
      if key !in accepted {
        accepted := accepted + {key};
        moved := moved + multiset{key};
      }
    }

    /** The client's loop. Whatever is lost, the money moves at most once; success is reported only if it moved; and a
        reported failure means that it did not exactly when no attempt got through. */
    method Request(key: nat, wire: seq<Attempt>) returns (result: Result, tries: nat, millis: nat)
      requires Valid() && |wire| == MAX_REQUEST_RETRIES + 1 && forall a <- wire :: Honest(a)
      modifies this
      ensures Valid() && 1 <= tries <= |wire|
      ensures accepted == if exists i :: 0 <= i < tries && wire[i].arrived then old(accepted) + {key} else old(accepted)
      ensures forall i :: 0 <= i < tries - 1 ==> Transient(wire[i].reply)
      ensures tries < |wire| ==> !Transient(wire[tries - 1].reply)
      ensures result == match wire[tries - 1].reply
                        case Success => Done
                        case Failure(s) => if Retryable(s) then Exhausted(s) else Refused(s)
                        case Lost => Unreachable
      ensures result.Done? ==> key in accepted
      ensures !result.Done?
        ==> (key !in accepted <==> key !in old(accepted) && forall i :: 0 <= i < tries ==> !wire[i].arrived)
      ensures millis <= 134000
    {
      millis, tries := 0, 0;
      ghost var budget := [0, 2000, 6000, 14000];
      while true
        invariant tries <= MAX_REQUEST_RETRIES
        invariant Valid()
        invariant accepted ==
          if exists i :: 0 <= i < tries && wire[i].arrived then old(accepted) + {key} else old(accepted)
        invariant forall i :: 0 <= i < tries ==> Transient(wire[i].reply)
        invariant millis <= tries * REQUEST_TIMEOUT + if tries == 0 then 0 else budget[tries - 1]
        decreases |wire| - tries
      {
        if tries > 0 {
          millis := millis + Backoff(tries);
          assert Power(0) == 1 && Power(1) == 2 && Power(2) == 4 && Power(3) == 8;
        }
        var a := wire[tries];
        assert Honest(a);
        if a.arrived {
          Receive(key);
        }
        millis := millis + a.millis;
        tries := tries + 1;
        match a.reply {
          case Success => return Done, tries, millis;
          case Failure(s) =>
            if !Retryable(s) {
              return Refused(s), tries, millis;
            }
            if tries > MAX_REQUEST_RETRIES {
              return Exhausted(s), tries, millis;
            }
          case Lost =>
            if tries > MAX_REQUEST_RETRIES {
              return Unreachable, tries, millis;
            }
        }
      }
    }
  }

  // ----- Idempotency keys, before hashing -----

  function Joined(parts: seq<string>): string
    requires |parts| > 0
  {
    if |parts| == 1 then parts[0] else parts[0] + ":" + Joined(parts[1..])
  }

  predicate NoColon(s: string) {
    forall i :: 0 <= i < |s| ==> s[i] != ':'
  }

  /** The text whose hash is the key: method, order, amount and attempt, and for some methods one thing more. */
  function KeyText(payment: string, order: string, amount: string, attempt: string, extra: Option<string>): string {
    Joined([payment, order, amount, attempt] + if extra.Some? && extra.value != "" then [extra.value] else [])
  }

  function FirstColon(s: string): nat {
    if |s| == 0 || s[0] == ':' then 0 else 1 + FirstColon(s[1..])
  }

  lemma {:induction false} ColonAfter(a: string, x: string)
    requires NoColon(a)
    ensures FirstColon(a + ":" + x) == |a|
  {
    if |a| > 0 {
      assert (a + ":" + x)[1..] == a[1..] + ":" + x;
      ColonAfter(a[1..], x);
    }
  }

  lemma FirstPart(a: string, b: string, x: string, y: string)
    requires NoColon(a) && NoColon(b) && a + ":" + x == b + ":" + y
    ensures a == b && x == y
  {
    ColonAfter(a, x);
    ColonAfter(b, y);
    var s := a + ":" + x;
    assert a == s[..|a|] && b == s[..|b|];
    assert x == s[|a| + 1..] && y == s[|b| + 1..];
  }

  /** Joining parts of which only the last may hold a colon loses nothing. */
  lemma {:induction false} JoinedApart(p: seq<string>, q: seq<string>)
    requires 0 < |p| == |q| && Joined(p) == Joined(q)
    requires forall i :: 0 <= i < |p| - 1 ==> NoColon(p[i]) && NoColon(q[i])
    ensures p == q
  {
    if |p| > 1 {
      FirstPart(p[0], q[0], Joined(p[1..]), Joined(q[1..]));
      JoinedApart(p[1..], q[1..]);
    }
  }

  function Colons(s: string): nat {
    if |s| == 0 then 0 else (if s[0] == ':' then 1 else 0) + Colons(s[1..])
  }

  lemma {:induction false} ColonsJoin(a: string, b: string)
    ensures Colons(a + b) == Colons(a) + Colons(b)
  {
    if |a| == 0 {
      assert a + b == b;
    } else {
      assert (a + b)[1..] == a[1..] + b;
      ColonsJoin(a[1..], b);
    }
  }

  lemma {:induction false} NoColons(s: string)
    requires NoColon(s)
    ensures Colons(s) == 0
  {
    if |s| > 0 {
      NoColons(s[1..]);
    }
  }

  /** Every part before the last adds its colon. */
  lemma {:induction false} JoinedColons(p: seq<string>)
    requires |p| > 0 && forall i :: 0 <= i < |p| - 1 ==> NoColon(p[i])
    ensures Colons(Joined(p)) == |p| - 1 + Colons(p[|p| - 1])
  {
    if |p| > 1 {
      JoinedColons(p[1..]);
      NoColons(p[0]);
      ColonsJoin(p[0] + ":", Joined(p[1..]));
      ColonsJoin(p[0], ":");
      assert Colons(":") == 1;
    }
  }

  datatype Attempted = Attempted(payment: string, order: string, amount: string, attempt: string, extra: Option<string>)

  predicate Plain(a: Attempted) {
    NoColon(a.payment) && NoColon(a.order) && NoColon(a.amount) && NoColon(a.attempt)
      && (a.extra.Some? ==> a.extra.value != "")
  }

  function Text(a: Attempted): string {
    KeyText(a.payment, a.order, a.amount, a.attempt, a.extra)
  }

  /** Two payment attempts have the same key text exactly when they agree in everything: the method, the order, the
      amount, the number of the attempt, and what is added to it. */
  lemma KeysDiffer(a: Attempted, b: Attempted)
    requires Plain(a) && Plain(b)
    ensures Text(a) == Text(b) <==> a == b
  {
    var p := [a.payment, a.order, a.amount, a.attempt] + if a.extra.Some? then [a.extra.value] else [];
    var q := [b.payment, b.order, b.amount, b.attempt] + if b.extra.Some? then [b.extra.value] else [];
    JoinedColons(p);
    JoinedColons(q);
    NoColons(a.attempt);
    NoColons(b.attempt);
    if Text(a) == Text(b) && |p| == |q| {
      JoinedApart(p, q);
      assert p[0] == q[0] && p[1] == q[1] && p[2] == q[2] && p[3] == q[3];
      assert a.extra.Some? ==> p[4] == q[4];
    }
  }
}
