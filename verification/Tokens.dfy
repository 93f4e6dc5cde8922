/** Refresh-token rotation with reuse detection (section 4.14.2 of RFC 9700): single-use tokens, each replaced on use,
    and a sweep of the user's sessions when a used one is replayed. Every database statement of a refresh is a step
    of its own, so calls interleave and crash anywhere. */
module Tokens {
  import opened Basics

  const REFRESH_TTL: int := 7 * DAY

  /** `chain` and `source` are history variables: the sign-in's row the token descends from, and the row whose
      refresh created it. */
  datatype Token = Token(
    user: nat, expires: int, used: bool, revoked: bool, replacedBy: Option<nat>, chain: nat, source: Option<nat>)

  /** A call between two of its statements. */
  datatype Call =
    | Claiming(row: nat)                // has read an unused row
    | Sweeping(user: nat)               // has found a replay
    | Minting(row: nat)                 // has claimed the row
    | Creating(row: nat, ver: nat)      // has read the version and signed the access token
    | Linking(row: nat, next: nat)      // has created the replacement
    | SigningIn(user: nat, ver: nat)    // has read the version and signed the access token

  /** `issued` is a history variable: every access token signed so far, as its user and version. */
  datatype Auth = Auth(now: int, rows: seq<Token>, versions: map<nat, nat>, calls: map<nat, Call>,
    issued: set<(nat, nat)>)

  datatype Step =
    | Present(id: nat, row: nat)
    | SignIn(id: nat, user: nat)
    | Advance(id: nat)
    | Crash(id: nat)
    | SignOut(row: nat)
    | RevokeAll(user: nat)
    | BumpVersion(user: nat)
    | Tick(seconds: nat)

  function Version(a: Auth, u: nat): nat {
    if u in a.versions then a.versions[u] else 0
  }

  predicate Accepts(a: Auth, u: nat, ver: nat) {
    ver == Version(a, u)
  }

  predicate Live(t: Token) {
    !t.used && !t.revoked
  }

  function Revoked(rows: seq<Token>, u: nat): (r: seq<Token>)
    ensures |r| == |rows|
    ensures forall i :: 0 <= i < |rows| ==> r[i] == if rows[i].user == u then rows[i].(revoked := true) else rows[i]
  {
    seq(|rows|, i requires 0 <= i < |rows| => if rows[i].user == u then rows[i].(revoked := true) else rows[i])
  }

  function Bumped(a: Auth, u: nat): Auth {
    a.(versions := a.versions[u := Version(a, u) + 1])
  }

  /** The sweep: one transaction revokes every row of the user and bumps the version. */
  function Swept(a: Auth, u: nat): Auth {
    Bumped(a.(rows := Revoked(a.rows, u)), u)
  }

  function Without(calls: map<nat, Call>, id: nat): map<nat, Call> {
    calls - {id}
  }

  /** The call that follows the first read of a presented token, if any. */
  function Presented(a: Auth, r: nat): Option<Call> {
    if r >= |a.rows| then None
    else if a.rows[r].used || a.rows[r].revoked then Some(Sweeping(a.rows[r].user))
    else if a.rows[r].expires < a.now then None
    else Some(Claiming(r))
  }

  function Next(a: Auth, s: Step): Auth {
    match s
    case Present(id, r) =>
      if id !in a.calls && Presented(a, r).Some? then a.(calls := a.calls[id := Presented(a, r).value]) else a
    case SignIn(id, u) =>
      if id in a.calls then a
      else a.(calls := a.calls[id := SigningIn(u, Version(a, u))], issued := a.issued + {(u, Version(a, u))})
    case Advance(id) => if id in a.calls then Advanced(a, id, a.calls[id]) else a
    case Crash(id) => a.(calls := Without(a.calls, id))
    case SignOut(r) => if r < |a.rows| then a.(rows := a.rows[r := a.rows[r].(revoked := true)]) else a
    case RevokeAll(u) => a.(rows := Revoked(a.rows, u))
    case BumpVersion(u) => Bumped(a, u)
    case Tick(seconds) => a.(now := a.now + seconds)
  }

  function Advanced(a: Auth, id: nat, call: Call): Auth {
    match call
    case Claiming(r) =>
      if r >= |a.rows| then a
      else if Live(a.rows[r]) then
        a.(rows := a.rows[r := a.rows[r].(used := true)], calls := a.calls[id := Minting(r)])
      else a.(calls := a.calls[id := Sweeping(a.rows[r].user)])
    case Sweeping(u) => Swept(a, u).(calls := Without(a.calls, id))
    case Minting(r) =>
      if r >= |a.rows| then a
      else
        var u := a.rows[r].user;
        a.(calls := a.calls[id := Creating(r, Version(a, u))], issued := a.issued + {(u, Version(a, u))})
    case Creating(r, ver) =>
      if r >= |a.rows| then a
      else
        a.(rows := a.rows + [Token(a.rows[r].user, a.now + REFRESH_TTL, false, false, None, a.rows[r].chain, Some(r))],
           calls := a.calls[id := Linking(r, |a.rows|)])
    case Linking(r, n) =>
      if r >= |a.rows| then a
      else a.(rows := a.rows[r := a.rows[r].(replacedBy := Some(n))], calls := Without(a.calls, id))
    case SigningIn(u, ver) =>
      a.(rows := a.rows + [Token(u, a.now + REFRESH_TTL, false, false, None, |a.rows|, None)],
        calls := Without(a.calls, id))
  }

  predicate Init(a: Auth) {
    a.rows == [] && a.versions == map[] && a.calls == map[] && a.issued == {}
  }

  function Run(a: Auth, steps: seq<Step>): Auth {
    if |steps| == 0 then a else Next(Run(a, steps[..|steps| - 1]), steps[|steps| - 1])
  }

  // ----- Chains -----

  /** A call past its claim of row r that has not yet created r's replacement. */
  predicate Replacing(call: Call, r: nat) {
    (call.Minting? || call.Creating?) && call.row == r
  }

  ghost predicate Succeeded(rows: seq<Token>, r: nat) {
    exists n :: 0 <= n < |rows| && rows[n].source == Some(r)
  }

  predicate SourceOk(rows: seq<Token>, n: nat)
    requires n < |rows|
  {
    match rows[n].source
    case None => rows[n].chain == n
    case Some(r) => r < n && rows[r].used && rows[r].chain == rows[n].chain && rows[r].user == rows[n].user
  }

  predicate LinkOk(rows: seq<Token>, r: nat)
    requires r < |rows|
  {
    rows[r].replacedBy.Some? ==> rows[r].replacedBy.value < |rows| && rows[rows[r].replacedBy.value].source == Some(r)
  }

  /** Rows of one chain are each other's successors in order: all but the last have been replaced, by one row each. */
  ghost predicate RowsOk(rows: seq<Token>) {
    && (forall n :: 0 <= n < |rows| ==> SourceOk(rows, n) && LinkOk(rows, n))
    && (forall m, n :: 0 <= m < n < |rows| && rows[m].source.Some? ==> rows[m].source != rows[n].source)
    && (forall m, n :: 0 <= m < n < |rows| && rows[m].chain == rows[n].chain ==> Succeeded(rows, m))
  }

  ghost predicate CallOk(a: Auth, call: Call) {
    match call
    case Claiming(r) => r < |a.rows|
    case Minting(r) => r < |a.rows| && a.rows[r].used && !Succeeded(a.rows, r)
    case Creating(r, ver) =>
      r < |a.rows| && a.rows[r].used && !Succeeded(a.rows, r) && ver <= Version(a, a.rows[r].user)
    case Linking(r, n) => r < |a.rows| && n < |a.rows| && a.rows[n].source == Some(r)
    case SigningIn(u, ver) => ver <= Version(a, u)
    case Sweeping(_) => true
  }

  ghost predicate Inv(a: Auth) {
    && RowsOk(a.rows)
    && (forall id <- a.calls :: CallOk(a, a.calls[id]))
    && (forall i, j, r: nat ::
         i in a.calls && j in a.calls && Replacing(a.calls[i], r) && Replacing(a.calls[j], r) ==> i == j)
    && (forall t <- a.issued :: t.1 <= Version(a, t.0))
  }

  /** Changing flags keeps every chain as it is. */
  ghost predicate SameShape(a: seq<Token>, b: seq<Token>) {
    |a| == |b| && forall n :: 0 <= n < |a| ==>
      b[n].user == a[n].user && b[n].chain == a[n].chain && b[n].source == a[n].source && (a[n].used ==> b[n].used)
  }

  lemma SameSuccessors(a: seq<Token>, b: seq<Token>)
    requires SameShape(a, b)
    ensures forall r: nat :: Succeeded(a, r) <==> Succeeded(b, r)
  {
    forall r: nat ensures Succeeded(a, r) <==> Succeeded(b, r) {
      if Succeeded(a, r) {
        var n :| 0 <= n < |a| && a[n].source == Some(r);
        assert b[n].source == Some(r);
      }
      if Succeeded(b, r) {
        var n :| 0 <= n < |b| && b[n].source == Some(r);
        assert a[n].source == Some(r);
      }
    }
  }

  lemma FlagsKeepRows(a: seq<Token>, b: seq<Token>)
    requires RowsOk(a) && SameShape(a, b) && forall n :: 0 <= n < |b| ==> LinkOk(b, n)
    ensures RowsOk(b)
  {
    SameSuccessors(a, b);
    forall n | 0 <= n < |b| ensures SourceOk(b, n) {
      assert SourceOk(a, n);
    }
  }

  /** Appending the replacement of a used row that has none, or a sign-in's first row. */
  lemma AppendKeepsRows(rows: seq<Token>, t: Token)
    requires RowsOk(rows) && t.replacedBy == None && SourceOk(rows + [t], |rows|)
    requires t.source.Some? ==> !Succeeded(rows, t.source.value)
    ensures RowsOk(rows + [t])
    ensures forall r: nat :: Succeeded(rows + [t], r) <==> Succeeded(rows, r) || t.source == Some(r)
  {
    var more := rows + [t];
    forall r: nat ensures Succeeded(more, r) <==> Succeeded(rows, r) || t.source == Some(r) {
      if Succeeded(rows, r) {
        var n :| 0 <= n < |rows| && rows[n].source == Some(r);
        assert more[n].source == Some(r);
      }
      if t.source == Some(r) {
        assert more[|rows|].source == Some(r);
      }
    }
    forall n | 0 <= n < |more| ensures SourceOk(more, n) && LinkOk(more, n) {
      if n < |rows| {
        assert SourceOk(rows, n) && LinkOk(rows, n);
      }
    }
    forall m, n | 0 <= m < n < |more| && more[m].source.Some? ensures more[m].source != more[n].source {
      if n == |rows| {
        assert Succeeded(rows, rows[m].source.value);
      }
    }
    forall m, n | 0 <= m < n < |more| && more[m].chain == more[n].chain ensures Succeeded(more, m) {
      if n < |rows| {
        assert Succeeded(rows, m);
      } else {
        ChainEnd(rows, t, m);
      }
    }
  }

  lemma ChainEnd(rows: seq<Token>, t: Token, m: nat)
    requires RowsOk(rows) && SourceOk(rows + [t], |rows|) && m < |rows| && rows[m].chain == t.chain
    requires t.source.Some? ==> !Succeeded(rows, t.source.value)
    ensures Succeeded(rows, m) || t.source == Some(m)
  {
    match t.source {
      case Some(r) => assert (rows + [t])[r] == rows[r];
      case None => assert SourceOk(rows, m); ChainOwner(rows, m);
    }
  }

  /** A chain is named after its first row, whose user all its rows share. */
  lemma {:induction false} ChainOwner(rows: seq<Token>, n: nat)
    requires RowsOk(rows) && n < |rows|
    ensures rows[n].chain <= n && rows[n].user == rows[rows[n].chain].user
  {
    assert SourceOk(rows, n);
    if rows[n].source.Some? {
      ChainOwner(rows, rows[n].source.value);
    }
  }

  lemma CallStays(a: Auth, b: Auth, call: Call)
    requires CallOk(a, call) && |a.rows| <= |b.rows|
    requires forall n :: 0 <= n < |a.rows| ==>
      b.rows[n].user == a.rows[n].user && b.rows[n].source == a.rows[n].source && (a.rows[n].used ==> b.rows[n].used)
    requires forall u: nat :: Version(a, u) <= Version(b, u)
    requires forall r: nat :: Replacing(call, r) && Succeeded(b.rows, r) ==> Succeeded(a.rows, r)
    ensures CallOk(b, call)
  {
    if call.Minting? || call.Creating? {
      assert Replacing(call, call.row);
    }
  }

  /** Steps that add no row: the rows. */
  lemma FlagStepKeepsRows(a: Auth, s: Step)
    requires Inv(a) && SameShape(a.rows, Next(a, s).rows)
    ensures RowsOk(Next(a, s).rows)
  {
    var b := Next(a, s);
    assert s.Advance? && s.id in a.calls ==> CallOk(a, a.calls[s.id]);
    forall n | 0 <= n < |b.rows| ensures LinkOk(b.rows, n) {
      assert LinkOk(a.rows, n);
    }
    FlagsKeepRows(a.rows, b.rows);
  }

  // ----- Steps that add no row: the calls in flight -----

  /** A presented token's call, or a sign-in's, begins in order. */
  lemma FirstCallOk(a: Auth, s: Step, id: nat)
    requires id in Next(a, s).calls && id !in a.calls
    ensures CallOk(Next(a, s), Next(a, s).calls[id])
  {
  }

  lemma FlagStepKeepsCall(a: Auth, s: Step, id: nat)
    requires Inv(a) && SameShape(a.rows, Next(a, s).rows) && id in Next(a, s).calls
    ensures CallOk(Next(a, s), Next(a, s).calls[id])
  {
    if id !in a.calls {
      FirstCallOk(a, s, id);
    } else if s == Advance(id) {
      OwnCallKeeps(a, id);
    } else {
      assert CallOk(a, a.calls[id]);
      SameSuccessors(a.rows, Next(a, s).rows);
      CallStays(a, Next(a, s), a.calls[id]);
    }
  }

  lemma OwnCallKeeps(a: Auth, id: nat)
    requires Inv(a) && id in a.calls && SameShape(a.rows, Next(a, Advance(id)).rows) && id in Next(a, Advance(id)).calls
    ensures CallOk(Next(a, Advance(id)), Next(a, Advance(id)).calls[id])
  {
    assert CallOk(a, a.calls[id]);
    SameSuccessors(a.rows, Next(a, Advance(id)).rows);
    if a.calls[id].Claiming? && Live(a.rows[a.calls[id].row]) {
      ClaimedIsLast(a.rows, a.calls[id].row);
    }
  }

  lemma FlagStepKeeps(a: Auth, s: Step)
    requires Inv(a) && SameShape(a.rows, Next(a, s).rows)
    ensures Inv(Next(a, s))
  {
    var b := Next(a, s);
    FlagStepKeepsRows(a, s);
    forall id | id in b.calls ensures CallOk(b, b.calls[id]) {
      FlagStepKeepsCall(a, s, id);
    }
    forall i, j, r: nat | i in b.calls && j in b.calls && Replacing(b.calls[i], r) && Replacing(b.calls[j], r)
      ensures i == j {
      ReplacingBefore(a, s, i, r);
      ReplacingBefore(a, s, j, r);
    }
  }

  /** A row nobody has used has no replacement, and no call is making one. */
  lemma ClaimedIsLast(rows: seq<Token>, r: nat)
    requires RowsOk(rows) && r < |rows| && !rows[r].used
    ensures !Succeeded(rows, r)
  {
    forall n | 0 <= n < |rows| ensures rows[n].source != Some(r) {
      assert SourceOk(rows, n);
    }
  }

  lemma ReplacingBefore(a: Auth, s: Step, i: nat, r: nat)
    requires Inv(a) && i in Next(a, s).calls && Replacing(Next(a, s).calls[i], r)
    ensures i in a.calls
    ensures Replacing(a.calls[i], r) || (s == Advance(i) && forall j <- a.calls :: !Replacing(a.calls[j], r))
  {
    if !Replacing(a.calls[i], r) {
      assert a.calls[i] == Claiming(r) && !a.rows[r].used;
      forall j | j in a.calls ensures !Replacing(a.calls[j], r) {
        assert CallOk(a, a.calls[j]);
      }
    }
  }

  /** Steps that add one. */
  lemma AppendStepKeeps(a: Auth, id: nat)
    requires Inv(a) && id in a.calls && (a.calls[id].Creating? || a.calls[id].SigningIn?)
    ensures Inv(Next(a, Advance(id)))
  {
    var b, call := Next(a, Advance(id)), a.calls[id];
    assert CallOk(a, call);
    AppendKeepsRows(a.rows, b.rows[|a.rows|]);
    assert call.Creating? ==> Replacing(call, call.row);
    forall j | j in b.calls ensures CallOk(b, b.calls[j]) {
      if j != id {
        assert CallOk(a, a.calls[j]);
        CallStays(a, b, a.calls[j]);
      }
    }
  }

  lemma NextKeeps(a: Auth, s: Step)
    requires Inv(a)
    ensures Inv(Next(a, s))
  {
    if s.Advance? && s.id in a.calls && (a.calls[s.id].Creating? || a.calls[s.id].SigningIn?) {
      AppendStepKeeps(a, s.id);
    } else {
      FlagStepKeeps(a, s);
    }
  }

  lemma {:induction false} RunKeeps(a: Auth, steps: seq<Step>)
    requires Init(a)
    ensures Inv(Run(a, steps))
  {
    if |steps| > 0 {
      RunKeeps(a, steps[..|steps| - 1]);
      NextKeeps(Run(a, steps[..|steps| - 1]), steps[|steps| - 1]);
    }
  }

  // ----- No rotation forks -----

  /** The token can still be redeemed, or is being replaced right now. */
  ghost predicate IsOpen(a: Auth, r: nat)
    requires r < |a.rows|
  {
    Live(a.rows[r]) || exists id :: id in a.calls && Replacing(a.calls[id], r)
  }

  lemma SucceededIsClosed(a: Auth, r: nat)
    requires Inv(a) && r < |a.rows| && Succeeded(a.rows, r)
    ensures !IsOpen(a, r)
  {
    var n :| 0 <= n < |a.rows| && a.rows[n].source == Some(r);
    assert SourceOk(a.rows, n);
    forall id | id in a.calls ensures !Replacing(a.calls[id], r) {
      assert CallOk(a, a.calls[id]);
    }
  }

  /** In every run each sign-in's chain has at most one token that is live or claimed and not yet replaced. */
  lemma NoFork(a: Auth, steps: seq<Step>, m: nat, n: nat)
    requires Init(a)
    requires var rows := Run(a, steps).rows; m < |rows| && n < |rows| && rows[m].chain == rows[n].chain
    requires IsOpen(Run(a, steps), m) && IsOpen(Run(a, steps), n)
    ensures m == n
  {
    RunKeeps(a, steps);
    var v := Run(a, steps);
    var first := if m < n then m else n;
    if m != n {
      SucceededIsClosed(v, first);
    }
  }

  /** In every run replacement links lead forward within one chain, and no two rows share a replacement: they form
      simple paths. */
  lemma LinksAreSimplePaths(a: Auth, steps: seq<Step>, m: nat, n: nat)
    requires Init(a)
    requires var rows := Run(a, steps).rows;
      m < |rows| && n < |rows| && rows[m].replacedBy.Some? && rows[n].replacedBy.Some?
    ensures var rows := Run(a, steps).rows; var next := rows[m].replacedBy.value;
      && m < next < |rows| && rows[next].chain == rows[m].chain && rows[next].user == rows[m].user && rows[m].used
      && (rows[m].replacedBy == rows[n].replacedBy ==> m == n)
  {
    RunKeeps(a, steps);
    var rows := Run(a, steps).rows;
    assert LinkOk(rows, m) && LinkOk(rows, n);
    assert SourceOk(rows, rows[m].replacedBy.value);
  }

  // ----- A replay ends every session there was -----

  /** Later states: rows stay used and revoked, and versions only grow. */
  ghost predicate Later(a: Auth, b: Auth) {
    && |a.rows| <= |b.rows|
    && (forall n :: 0 <= n < |a.rows| ==>
          && b.rows[n].user == a.rows[n].user && b.rows[n].chain == a.rows[n].chain
          && (a.rows[n].used ==> b.rows[n].used) && (a.rows[n].revoked ==> b.rows[n].revoked))
    && (forall u: nat :: Version(a, u) <= Version(b, u))
  }

  lemma StepIsLater(a: Auth, s: Step)
    ensures Later(a, Next(a, s))
  {
  }

  lemma {:induction false} RunIsLater(a: Auth, steps: seq<Step>)
    ensures Later(a, Run(a, steps))
  {
    if |steps| > 0 {
      RunIsLater(a, steps[..|steps| - 1]);
      StepIsLater(Run(a, steps[..|steps| - 1]), steps[|steps| - 1]);
    }
  }

  /** Presenting a used or revoked token leads its call to the sweep. */
  lemma ReplaySweeps(a: Auth, id: nat, r: nat)
    requires id !in a.calls && r < |a.rows| && (a.rows[r].used || a.rows[r].revoked)
    ensures Next(a, Present(id, r)).calls[id] == Sweeping(a.rows[r].user)
  {
  }

  /** Once a replay's sweep commits, in whatever state the calls in between left, no row of the user that existed
      then can ever be redeemed again, and no access token signed with a version of before is ever accepted again. */
  lemma SweepIsFinal(a: Auth, earlier: seq<Step>, id: nat, later: seq<Step>, u: nat)
    requires Init(a) && id in Run(a, earlier).calls && Run(a, earlier).calls[id] == Sweeping(u)
    ensures var was := Run(a, earlier); var v := Run(Next(was, Advance(id)), later);
      && |was.rows| <= |v.rows|
      && (forall r :: 0 <= r < |was.rows| && was.rows[r].user == u ==>
           v.rows[r].revoked && Presented(v, r) == Some(Sweeping(u)))
      && (forall ver: nat :: ver <= Version(was, u) ==> !Accepts(v, u, ver))
      && (forall t <- was.issued :: t.0 == u ==> !Accepts(v, u, t.1))
  {
    RunKeeps(a, earlier);
    RunIsLater(Next(Run(a, earlier), Advance(id)), later);
  }

  predicate LeavesAlone(steps: seq<Step>, id: nat) {
    forall i :: 0 <= i < |steps| ==> steps[i] != Advance(id) && steps[i] != Crash(id)
  }

  lemma StepKeepsSweeping(a: Auth, s: Step, id: nat, u: nat)
    requires id in a.calls && a.calls[id] == Sweeping(u) && s != Advance(id) && s != Crash(id)
    ensures id in Next(a, s).calls && Next(a, s).calls[id] == Sweeping(u)
  {
  }

  /** Other calls and requests leave a sweep in flight alone. */
  lemma {:induction false} StillSweeping(a: Auth, earlier: seq<Step>, id: nat, between: seq<Step>, u: nat)
    requires id in Run(a, earlier).calls && Run(a, earlier).calls[id] == Sweeping(u) && LeavesAlone(between, id)
    ensures var v := Run(a, earlier + between); id in v.calls && v.calls[id] == Sweeping(u)
    decreases |between|
  {
    if |between| == 0 {
      assert earlier + between == earlier;
    } else {
      var n := |between| - 1;
      StillSweeping(a, earlier, id, between[..n], u);
      StepKeepsSweeping(Run(a, earlier + between[..n]), between[n], id, u);
      OneMore(a, earlier + between[..n], between[n]);
      assert earlier + between == earlier + between[..n] + [between[n]];
    }
  }

  /** So whenever a token that was used or revoked is presented again, then once the call that presents it gets to
      commit, none of the user's rows of that moment is ever redeemed and no earlier access token is ever accepted,
      whatever happened in between and whatever happens later. */
  lemma ReplayIsFinal(a: Auth, earlier: seq<Step>, id: nat, r: nat, between: seq<Step>, later: seq<Step>)
    requires Init(a) && id !in Run(a, earlier).calls && LeavesAlone(between, id)
    requires r < |Run(a, earlier).rows| && (Run(a, earlier).rows[r].used || Run(a, earlier).rows[r].revoked)
    ensures var u, was := Run(a, earlier).rows[r].user, Run(a, earlier + [Present(id, r)] + between);
      var v := Run(Next(was, Advance(id)), later);
      && |was.rows| <= |v.rows|
      && (forall k :: 0 <= k < |was.rows| && was.rows[k].user == u ==>
           v.rows[k].revoked && Presented(v, k) == Some(Sweeping(u)))
      && (forall t <- was.issued :: t.0 == u ==> !Accepts(v, u, t.1))
  {
    var u := Run(a, earlier).rows[r].user;
    OneMore(a, earlier, Present(id, r));
    ReplaySweeps(Run(a, earlier), id, r);
    StillSweeping(a, earlier + [Present(id, r)], id, between, u);
    SweepIsFinal(a, earlier + [Present(id, r)] + between, id, later, u);
  }

  // ----- What a sweep does not reach -----

  /** The chain has a call past its claim. */
  ghost predicate BeingReplaced(a: Auth, c: nat) {
    exists id, r: nat :: id in a.calls && Replacing(a.calls[id], r) && r < |a.rows| && a.rows[r].chain == c
  }

  /** No token of the chain can be redeemed, now or later. */
  ghost predicate Dead(a: Auth, c: nat) {
    && c < |a.rows| && !BeingReplaced(a, c)
    && forall r :: 0 <= r < |a.rows| && a.rows[r].chain == c ==> a.rows[r].revoked
  }

  lemma ChainsStay(a: Auth, s: Step)
    ensures |a.rows| <= |Next(a, s).rows|
    ensures forall n :: 0 <= n < |a.rows| ==> Next(a, s).rows[n].chain == a.rows[n].chain
  {
  }

  lemma ReplacingIsKnown(a: Auth, id: nat, r: nat)
    requires Inv(a) && id in a.calls && Replacing(a.calls[id], r)
    ensures r < |a.rows| && BeingReplaced(a, a.rows[r].chain)
  {
    assert CallOk(a, a.calls[id]);
  }

  /** A call that has just claimed a row found it live. */
  lemma ClaimedWasLive(a: Auth, id: nat, r: nat)
    requires id in a.calls && !Replacing(a.calls[id], r)
    requires id in Next(a, Advance(id)).calls && Replacing(Next(a, Advance(id)).calls[id], r)
    ensures r < |a.rows| && Live(a.rows[r])
  {
  }

  lemma StaysUnreplaced(a: Auth, s: Step, c: nat)
    requires Inv(a) && Dead(a, c)
    ensures !BeingReplaced(Next(a, s), c)
  {
    var b := Next(a, s);
    ChainsStay(a, s);
    forall id, r: nat | id in b.calls && r < |b.rows| && b.rows[r].chain == c
      ensures !Replacing(b.calls[id], r)
    {
      if Replacing(b.calls[id], r) {
        ReplacingBefore(a, s, id, r);
        if Replacing(a.calls[id], r) {
          ReplacingIsKnown(a, id, r);
        } else {
          ClaimedWasLive(a, id, r);
        }
      }
    }
  }

  lemma StaysDead(a: Auth, s: Step, c: nat)
    requires Inv(a) && Dead(a, c)
    ensures Dead(Next(a, s), c)
  {
    StaysUnreplaced(a, s, c);
    if s.Advance? && s.id in a.calls {
      var call := a.calls[s.id];
      assert CallOk(a, call);
      if call.Creating? {
        assert Replacing(call, call.row);
      }
    }
  }

  lemma {:induction false} DeadForGood(a: Auth, steps: seq<Step>, c: nat)
    requires Inv(a) && Dead(a, c)
    ensures Inv(Run(a, steps)) && Dead(Run(a, steps), c)
  {
    if |steps| > 0 {
      DeadForGood(a, steps[..|steps| - 1], c);
      NextKeeps(Run(a, steps[..|steps| - 1]), steps[|steps| - 1]);
      StaysDead(Run(a, steps[..|steps| - 1]), steps[|steps| - 1], c);
    }
  }

  predicate HasLive(a: Auth, c: nat) {
    exists n :: 0 <= n < |a.rows| && a.rows[n].chain == c && Live(a.rows[n])
  }

  /** Some continuation brings the chain back to life. */
  ghost predicate Revives(a: Auth, c: nat) {
    exists steps :: HasLive(Run(a, steps), c)
  }

  /** A call past its claim brings its chain back by just going on. */
  lemma GoingOnRevives(a: Auth, id: nat, r: nat)
    requires id in a.calls && r < |a.rows| && Replacing(a.calls[id], r)
    ensures Revives(a, a.rows[r].chain)
  {
    var one := [Advance(id)];
    var two := one + [Advance(id)];
    assert one[..0] == [] && Run(a, []) == a && Run(a, one) == Next(a, Advance(id));
    assert two[..1] == one && Run(a, two) == Next(Run(a, one), Advance(id));
    var end := if a.calls[id].Creating? then one else two;
    assert Run(a, end).rows[|a.rows|].chain == a.rows[r].chain;
    assert HasLive(Run(a, end), a.rows[r].chain);
  }

  /** A sweep ends each of the user's sessions for good exactly when none of its tokens is past its claim at that
      moment: a refresh that has claimed its token goes on to create a live one, and signs an access token with
      whatever version it reads. */
  lemma SweepEndsSessionIff(a: Auth, id: nat, c: nat)
    requires Inv(a) && id in a.calls && c < |a.rows| && a.calls[id] == Sweeping(a.rows[c].user) && a.rows[c].chain == c
    ensures Revives(Next(a, Advance(id)), c) <==> BeingReplaced(a, c)
  {
    var b := Next(a, Advance(id));
    NextKeeps(a, Advance(id));
    if BeingReplaced(a, c) {
      var i, r: nat :| i in a.calls && Replacing(a.calls[i], r) && r < |a.rows| && a.rows[r].chain == c;
      GoingOnRevives(b, i, r);
    } else {
      forall r | 0 <= r < |b.rows| && b.rows[r].chain == c ensures b.rows[r].revoked {
        ChainOwner(a.rows, r);
      }
      forall i, r: nat | i in b.calls && r < |b.rows| && b.rows[r].chain == c ensures !Replacing(b.calls[i], r) {
        assert b.calls[i] == a.calls[i] && a.rows[r].chain == c;
      }
      if Revives(b, c) {
        var steps :| HasLive(Run(b, steps), c);
        DeadForGood(b, steps, c);
      }
    }
  }

  lemma OneMore(a: Auth, steps: seq<Step>, s: Step)
    ensures Run(a, steps + [s]) == Next(Run(a, steps), s)
  {
    assert (steps + [s])[..|steps|] == steps;
  }

  function NewToken(user: nat): Token {
    Token(user, REFRESH_TTL, false, false, None, 0, None)
  }

  function NobodyIn(): Auth {
    Auth(0, [], map[], map[], {})
  }

  /** One of two calls that presented the same token has claimed it; the other has found that out. */
  function Caught(user: nat): Auth {
    Auth(0, [NewToken(user).(used := true)], map[], map[1 := Minting(0), 2 := Sweeping(user)], {(user, 0)})
  }

  lemma ReachCaught(user: nat) returns (steps: seq<Step>)
    ensures Run(NobodyIn(), steps) == Caught(user)
  {
    var a := NobodyIn();
    steps := [];
    OneMore(a, steps, SignIn(0, user)); steps := steps + [SignIn(0, user)];
    OneMore(a, steps, Advance(0)); steps := steps + [Advance(0)];
    assert Run(a, steps) == Auth(0, [NewToken(user)], map[], map[], {(user, 0)});
    OneMore(a, steps, Present(1, 0)); steps := steps + [Present(1, 0)];
    OneMore(a, steps, Present(2, 0)); steps := steps + [Present(2, 0)];
    OneMore(a, steps, Advance(1)); steps := steps + [Advance(1)];
    OneMore(a, steps, Advance(2)); steps := steps + [Advance(2)];
  }

  /** The sweep revokes the user's only row, and then the first call's refresh creates a live one: the session, stolen
      or not, goes on. */
  lemma SweptSessionGoesOn(user: nat) returns (steps: seq<Step>)
    ensures var v := Run(NobodyIn(), steps + [Advance(2), Advance(1), Advance(1)]);
      && Run(NobodyIn(), steps).calls == map[1 := Minting(0), 2 := Sweeping(user)]
      && |v.rows| == 2 && v.rows[0].revoked && Live(v.rows[1]) && v.rows[1].chain == 0 == v.rows[0].chain
      && (user, 1) in v.issued && Accepts(v, user, 1)
  {
    steps := ReachCaught(user);
    var swept := Next(Caught(user), Advance(2));
    OneMore(NobodyIn(), steps, Advance(2));
    OneMore(NobodyIn(), steps + [Advance(2)], Advance(1));
    OneMore(NobodyIn(), steps + [Advance(2)] + [Advance(1)], Advance(1));
    assert steps + [Advance(2)] + [Advance(1)] + [Advance(1)] == steps + [Advance(2), Advance(1), Advance(1)];
  }

  /** An administrator's forced logout bumps the version and leaves the refresh rows alone, so any live session goes
      on: its next refresh yields an access token that is accepted. */
  lemma ForcedLogoutLeavesSessions(a: Auth, id: nat, r: nat)
    requires id !in a.calls && r < |a.rows| && Live(a.rows[r]) && a.rows[r].expires >= a.now
    ensures var u := a.rows[r].user; var out := Next(a, BumpVersion(u));
      var v := Next(Next(Next(Next(out, Present(id, r)), Advance(id)), Advance(id)), Advance(id));
      && (u, Version(a, u) + 1) in v.issued && Accepts(v, u, Version(a, u) + 1)
      && |v.rows| == |a.rows| + 1 && v.rows[|a.rows|].user == u && Live(v.rows[|a.rows|])
  {
  }

  // ----- One refresh with nothing in between -----

  /** The presented token's call, run to its end: sweep, or claim, mint, create and link. */
  function Alone(a: Auth, r: nat): Auth {
    var read := Next(a, Present(0, r));
    match Presented(a, r)
    case None => read
    case Some(Claiming(_)) => Next(Next(Next(Next(read, Advance(0)), Advance(0)), Advance(0)), Advance(0))
    case Some(_) => Next(read, Advance(0))
  }
}
