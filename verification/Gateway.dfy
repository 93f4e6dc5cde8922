/** The chat gateway's memory: which sockets belong to whom, which conversations to rejoin, how many events each
    socket has had accepted, and which presence events were emitted. Each handler is one step. */
module Gateway {
  import opened Basics
  import RateLimit

  const MAX_SOCKETS_PER_USER: nat := 10

  datatype Event = Event(user: nat, online: bool)

  /** `presence` is a history variable. */
  datatype State = State(
    userSockets: map<nat, seq<nat>>, socketToUser: map<nat, nat>, conversations: map<nat, set<nat>>,
    rates: map<nat, RateLimit.Buckets>, presence: seq<Event>)

  const EMPTY := State(map[], map[], map[], map[], [])

  /** `user` is None when the handshake is refused. */
  datatype Step =
    | Connect(socket: nat, user: Option<nat>)
    | Disconnect(socket: nat)
    | Attempt(socket: nat, bucket: RateLimit.Bucket, now: int)
    | Join(socket: nat, conversation: nat, allowed: bool)
    | Leave(socket: nat, conversation: nat)

  function SocketsOf(s: State, u: nat): seq<nat> {
    if u in s.userSockets then s.userSockets[u] else []
  }

  predicate IsOnline(s: State, u: nat) {
    |SocketsOf(s, u)| > 0
  }

  function Without(sockets: seq<nat>, x: nat): (r: seq<nat>)
    ensures forall i :: 0 <= i < |r| ==> r[i] in sockets && r[i] != x
    ensures forall y :: y in sockets && y != x ==> y in r
    ensures |r| <= |sockets| && (x in sockets ==> |r| < |sockets|)
    ensures Distinct(sockets) ==> Distinct(r)
  {
    if |sockets| == 0 then []
    else
      var rest := Without(sockets[1..], x);
      assert forall i :: 0 <= i < |sockets[1..]| ==> sockets[1..][i] == sockets[i + 1];
      if sockets[0] == x then rest else [sockets[0]] + rest
  }

  predicate Distinct(sockets: seq<nat>) {
    forall i, j :: 0 <= i < j < |sockets| ==> sockets[i] != sockets[j]
  }

  function Connected(s: State, socket: nat, u: nat): State {
    var existing := SocketsOf(s, u);
    if |existing| >= MAX_SOCKETS_PER_USER then s
    else s.(
      userSockets := s.userSockets[u := existing + [socket]], socketToUser := s.socketToUser[socket := u],
      presence := if |existing| == 0 then s.presence + [Event(u, true)] else s.presence)
  }

  function Disconnected(s: State, socket: nat): State {
    var forgotten := s.(socketToUser := s.socketToUser - {socket}, rates := s.rates - {socket});
    if socket !in s.socketToUser then forgotten
    else
      var u := s.socketToUser[socket];
      var left := Without(SocketsOf(s, u), socket);
      if |left| == 0 then forgotten.(
        userSockets := s.userSockets - {u}, conversations := s.conversations - {u},
        presence := s.presence + [Event(u, false)])
      else forgotten.(userSockets := s.userSockets[u := left])
  }

  function BucketsOf(s: State, socket: nat, now: int): RateLimit.Buckets {
    if socket in s.rates then s.rates[socket] else RateLimit.Fresh(now)
  }

  /** Whether an event that reaches the limiter is let through. */
  predicate Accepted(s: State, socket: nat, bucket: RateLimit.Bucket, now: int) {
    socket in s.socketToUser && RateLimit.Check(BucketsOf(s, socket, now).Get(bucket), now, RateLimit.Ceiling(bucket)).1
  }

  function Attempted(s: State, socket: nat, bucket: RateLimit.Bucket, now: int): State {
    if socket !in s.socketToUser then s
    else
      var buckets := BucketsOf(s, socket, now);
      s.(rates := s.rates[socket :=
        buckets.Set(bucket, RateLimit.Check(buckets.Get(bucket), now, RateLimit.Ceiling(bucket)).0)])
  }

  function ConversationsOf(s: State, u: nat): set<nat> {
    if u in s.conversations then s.conversations[u] else {}
  }

  function Joined(s: State, socket: nat, c: nat): State {
    if socket !in s.socketToUser then s
    else
      var u := s.socketToUser[socket];
      s.(conversations := s.conversations[u := ConversationsOf(s, u) + {c}])
  }

  function Left(s: State, socket: nat, c: nat): State {
    if socket !in s.socketToUser || s.socketToUser[socket] !in s.conversations then s
    else
      var u := s.socketToUser[socket];
      var left := s.conversations[u] - {c};
      if left == {} then s.(conversations := s.conversations - {u}) else s.(conversations := s.conversations[u := left])
  }

  function Next(s: State, step: Step): State {
    match step
    case Connect(socket, None) => s
    case Connect(socket, Some(u)) => Connected(s, socket, u)
    case Disconnect(socket) => Disconnected(s, socket)
    case Attempt(socket, bucket, now) => Attempted(s, socket, bucket, now)
    case Join(socket, c, allowed) => if allowed then Joined(s, socket, c) else s
    case Leave(socket, c) => Left(s, socket, c)
  }

  function Run(s: State, steps: seq<Step>): State {
    if |steps| == 0 then s else Next(Run(s, steps[..|steps| - 1]), steps[|steps| - 1])
  }

  /** Socket ids are unique: nobody connects with one that is in use. */
  predicate Possible(s: State, step: Step) {
    step.Connect? ==> step.socket !in s.socketToUser
  }

  predicate PossibleRun(s: State, steps: seq<Step>) {
    |steps| > 0 ==> PossibleRun(s, steps[..|steps| - 1]) && Possible(Run(s, steps[..|steps| - 1]), steps[|steps| - 1])
  }

  // ----- The maps agree -----

  predicate UserOk(s: State, u: nat)
    requires u in s.userSockets
  {
    && 0 < |s.userSockets[u]| <= MAX_SOCKETS_PER_USER && Distinct(s.userSockets[u])
    && forall socket <- s.userSockets[u] :: socket in s.socketToUser && s.socketToUser[socket] == u
  }

  predicate SocketOk(s: State, socket: nat)
    requires socket in s.socketToUser
  {
    socket in SocketsOf(s, s.socketToUser[socket])
  }

  /** The user's presence events, oldest first. */
  function EventsOf(events: seq<Event>, u: nat): seq<bool> {
    if |events| == 0 then []
    else
      EventsOf(events[..|events| - 1], u)
      + if events[|events| - 1].user == u then [events[|events| - 1].online] else []
  }

  predicate Alternates(events: seq<bool>, online: bool) {
    && (forall i :: 0 <= i < |events| ==> events[i] == (i % 2 == 0))
    && (online <==> |events| % 2 == 1)
  }

  ghost predicate MapsOk(s: State) {
    && (forall u <- s.userSockets :: UserOk(s, u))
    && (forall socket <- s.socketToUser :: SocketOk(s, socket))
  }

  /** Nothing is kept for users who are offline or sockets that are gone. */
  ghost predicate TracksOk(s: State) {
    && s.conversations.Keys <= s.userSockets.Keys && (forall u <- s.conversations :: s.conversations[u] != {})
    && s.rates.Keys <= s.socketToUser.Keys
  }

  predicate PresenceOk(s: State, u: nat) {
    Alternates(EventsOf(s.presence, u), u in s.userSockets)
  }

  ghost predicate Inv(s: State) {
    MapsOk(s) && TracksOk(s) && forall u: nat :: PresenceOk(s, u)
  }

  /** Emitting one event for u, who has just come online or gone offline, keeps everyone's events alternating. */
  lemma PresenceFlips(s: State, next: State, u: nat, online: bool, v: nat)
    requires PresenceOk(s, v) && next.presence == s.presence + [Event(u, online)]
    requires (u in s.userSockets) == !online && (u in next.userSockets) == online
    requires v != u ==> (v in next.userSockets <==> v in s.userSockets)
    ensures PresenceOk(next, v)
  {
    assert (s.presence + [Event(u, online)])[..|s.presence|] == s.presence;
  }

  lemma PresenceStays(s: State, next: State)
    requires forall u: nat :: PresenceOk(s, u)
    requires next.presence == s.presence && next.userSockets.Keys == s.userSockets.Keys
    ensures forall u: nat :: PresenceOk(next, u)
  {
    forall u: nat ensures PresenceOk(next, u) {
      assert PresenceOk(s, u) && (u in next.userSockets.Keys <==> u in s.userSockets.Keys);
    }
  }

  lemma ConnectKeepsUser(s: State, socket: nat, u: nat, v: nat)
    requires MapsOk(s) && socket !in s.socketToUser && v in Connected(s, socket, u).userSockets
    ensures UserOk(Connected(s, socket, u), v)
  {
    assert v in s.userSockets ==> UserOk(s, v);
  }

  lemma ConnectKeepsSocket(s: State, socket: nat, u: nat, x: nat)
    requires MapsOk(s) && socket !in s.socketToUser && x in Connected(s, socket, u).socketToUser
    ensures SocketOk(Connected(s, socket, u), x)
  {
    assert x in s.socketToUser ==> SocketOk(s, x);
  }

  lemma ConnectKeeps(s: State, socket: nat, u: nat)
    requires Inv(s) && socket !in s.socketToUser
    ensures Inv(Connected(s, socket, u))
  {
    var next := Connected(s, socket, u);
    if next != s {
      forall v | v in next.userSockets ensures UserOk(next, v) {
        ConnectKeepsUser(s, socket, u, v);
      }
      forall x | x in next.socketToUser ensures SocketOk(next, x) {
        ConnectKeepsSocket(s, socket, u, x);
      }
      if u in s.userSockets {
        PresenceStays(s, next);
      } else {
        forall v: nat ensures PresenceOk(next, v) {
          PresenceFlips(s, next, u, true, v);
        }
      }
    }
  }

  lemma DisconnectKeepsUser(s: State, socket: nat, v: nat)
    requires MapsOk(s) && v in Disconnected(s, socket).userSockets
    ensures UserOk(Disconnected(s, socket), v)
  {
    assert UserOk(s, v);
  }

  lemma DisconnectKeepsSocket(s: State, socket: nat, x: nat)
    requires MapsOk(s) && x in Disconnected(s, socket).socketToUser
    ensures SocketOk(Disconnected(s, socket), x)
  {
    assert SocketOk(s, x);
    assert socket in s.socketToUser ==> SocketOk(s, socket) && UserOk(s, s.socketToUser[socket]);
  }

  lemma DisconnectKeepsMaps(s: State, socket: nat)
    requires MapsOk(s)
    ensures MapsOk(Disconnected(s, socket))
  {
    var next := Disconnected(s, socket);
    forall v | v in next.userSockets ensures UserOk(next, v) {
      DisconnectKeepsUser(s, socket, v);
    }
    forall x | x in next.socketToUser ensures SocketOk(next, x) {
      DisconnectKeepsSocket(s, socket, x);
    }
  }

  lemma DisconnectKeeps(s: State, socket: nat)
    requires Inv(s)
    ensures Inv(Disconnected(s, socket))
  {
    var next := Disconnected(s, socket);
    DisconnectKeepsMaps(s, socket);
    if socket in s.socketToUser {
      var u := s.socketToUser[socket];
      assert SocketOk(s, socket);
      if |Without(SocketsOf(s, u), socket)| == 0 {
        forall v: nat ensures PresenceOk(next, v) {
          PresenceFlips(s, next, u, false, v);
        }
      } else {
        PresenceStays(s, next);
      }
    } else {
      PresenceStays(s, next);
    }
  }

  /** The other handlers leave the sockets and presence alone. */
  lemma OthersTrack(s: State, step: Step)
    requires TracksOk(s) && !step.Connect? && !step.Disconnect?
    requires step.socket in s.socketToUser ==> s.socketToUser[step.socket] in s.userSockets
    ensures TracksOk(Next(s, step))
    ensures var next := Next(s, step);
      next.userSockets == s.userSockets && next.socketToUser == s.socketToUser && next.presence == s.presence
  {
    if step.Join? && step.socket in s.socketToUser {
      assert step.conversation in ConversationsOf(s, s.socketToUser[step.socket]) + {step.conversation};
    }
  }

  lemma OthersKeep(s: State, step: Step)
    requires Inv(s) && !step.Connect? && !step.Disconnect?
    ensures Inv(Next(s, step))
  {
    var next := Next(s, step);
    assert step.socket in s.socketToUser ==> SocketOk(s, step.socket);
    OthersTrack(s, step);
    forall u | u in s.userSockets ensures UserOk(next, u) {
      assert UserOk(s, u);
    }
    forall x | x in s.socketToUser ensures SocketOk(next, x) {
      assert SocketOk(s, x);
    }
    PresenceStays(s, next);
  }

  lemma NextKeeps(s: State, step: Step)
    requires Inv(s) && Possible(s, step)
    ensures Inv(Next(s, step))
  {
    match step {
      case Connect(socket, Some(u)) => ConnectKeeps(s, socket, u);
      case Connect(_, None) =>
      case Disconnect(socket) => DisconnectKeeps(s, socket);
      case _ => OthersKeep(s, step);
    }
  }

  /** In every run the two socket maps are exact inverses, without duplicates, empty lists or an eleventh socket;
      conversations are kept only for online users and rate limits only for connected sockets; and each user's
      presence events strictly alternate, starting with online. */
  lemma {:induction false} RunKeeps(steps: seq<Step>)
    requires PossibleRun(EMPTY, steps)
    ensures Inv(Run(EMPTY, steps))
  {
    if |steps| > 0 {
      RunKeeps(steps[..|steps| - 1]);
      NextKeeps(Run(EMPTY, steps[..|steps| - 1]), steps[|steps| - 1]);
    }
  }

  /** Exact inverses: a socket is listed under a user exactly when it maps back to that user, and a user is online
      exactly when some socket maps to them. */
  lemma MapsAreInverse(s: State, socket: nat, u: nat)
    requires Inv(s)
    ensures socket in SocketsOf(s, u) <==> socket in s.socketToUser && s.socketToUser[socket] == u
    ensures IsOnline(s, u) <==> exists x :: x in s.socketToUser && s.socketToUser[x] == u
  {
    if u in s.userSockets {
      assert UserOk(s, u);
      assert s.userSockets[u][0] in s.socketToUser;
    }
    forall x | x in s.socketToUser && s.socketToUser[x] == u ensures x in SocketsOf(s, u) {
      assert SocketOk(s, x);
    }
  }

  // ----- The rate limit, whatever else the gateway does in between -----

  predicate Hits(step: Step, socket: nat, bucket: RateLimit.Bucket) {
    step.Attempt? && step.socket == socket && step.bucket == bucket
  }

  /** The times at which the socket's events reached the limiter. */
  function Times(steps: seq<Step>, socket: nat, bucket: RateLimit.Bucket): seq<int> {
    if |steps| == 0 then []
    else (if Hits(steps[0], socket, bucket) then [steps[0].now] else []) + Times(steps[1..], socket, bucket)
  }

  /** How many of the socket's events are accepted from time lo up to and including hi. */
  function AcceptedIn(s: State, steps: seq<Step>, socket: nat, bucket: RateLimit.Bucket, lo: int, hi: int): nat
    decreases |steps|
  {
    if |steps| == 0 then 0
    else
      (if Hits(steps[0], socket, bucket) && Accepted(s, socket, bucket, steps[0].now) && lo <= steps[0].now <= hi
       then 1 else 0)
      + AcceptedIn(Next(s, steps[0]), steps[1..], socket, bucket, lo, hi)
  }

  predicate NoReconnect(steps: seq<Step>, socket: nat) {
    forall i :: 0 <= i < |steps| && steps[i].Connect? ==> steps[i].socket != socket
  }

  lemma {:induction false} GoneIsSilent(s: State, steps: seq<Step>, socket: nat, bucket: RateLimit.Bucket,
                                        lo: int, hi: int)
    requires socket !in s.socketToUser && NoReconnect(steps, socket)
    ensures AcceptedIn(s, steps, socket, bucket, lo, hi) == 0
    decreases |steps|
  {
    if |steps| > 0 {
      assert steps[0].Connect? ==> steps[0].socket != socket;
      GoneIsSilent(Next(s, steps[0]), steps[1..], socket, bucket, lo, hi);
    }
  }

  /** A socket's slot is its own: only its own events in the same bucket, and its disconnection, touch it. */
  lemma OthersLeaveSlot(s: State, step: Step, socket: nat, bucket: RateLimit.Bucket)
    requires socket in s.rates && socket in s.socketToUser && !Hits(step, socket, bucket)
    ensures var next := Next(s, step);
      if step == Disconnect(socket) then socket !in next.socketToUser
      else
        socket in next.socketToUser && socket in next.rates
        && next.rates[socket].Get(bucket) == s.rates[socket].Get(bucket)
  {
  }

  /** So the gateway accepts no more than the socket's own slot would. */
  lemma {:induction false} SlotDecides(s: State, steps: seq<Step>, socket: nat, bucket: RateLimit.Bucket,
                                        lo: int, hi: int)
    requires socket in s.rates && socket in s.socketToUser && NoReconnect(steps, socket)
    ensures AcceptedIn(s, steps, socket, bucket, lo, hi)
         <= RateLimit.AcceptedIn(s.rates[socket].Get(bucket), Times(steps, socket, bucket),
           RateLimit.Ceiling(bucket), lo, hi)
    decreases |steps|
  {
    if |steps| > 0 {
      var next, times := Next(s, steps[0]), Times(steps[1..], socket, bucket);
      if Hits(steps[0], socket, bucket) {
        assert Times(steps, socket, bucket)[1..] == times;
        SlotDecides(next, steps[1..], socket, bucket, lo, hi);
      } else {
        assert Times(steps, socket, bucket) == times;
        OthersLeaveSlot(s, steps[0], socket, bucket);
        if steps[0] == Disconnect(socket) {
          GoneIsSilent(next, steps[1..], socket, bucket, lo, hi);
        } else {
          SlotDecides(next, steps[1..], socket, bucket, lo, hi);
        }
      }
    }
  }

  predicate ClockOk(steps: seq<Step>) {
    forall i, j :: 0 <= i < j < |steps| && steps[i].Attempt? && steps[j].Attempt? ==> steps[i].now <= steps[j].now
  }

  lemma {:induction false} TimesOrdered(steps: seq<Step>, socket: nat, bucket: RateLimit.Bucket)
    requires ClockOk(steps)
    ensures RateLimit.Ordered(Times(steps, socket, bucket))
    ensures forall t <- Times(steps, socket, bucket) ::
      exists i :: 0 <= i < |steps| && steps[i].Attempt? && steps[i].now == t
  {
    if |steps| > 0 {
      var rest := steps[1..];
      assert forall i :: 0 <= i < |rest| ==> rest[i] == steps[i + 1];
      TimesOrdered(rest, socket, bucket);
      forall t | t in Times(rest, socket, bucket)
        ensures exists i :: 0 < i < |steps| && steps[i].Attempt? && steps[i].now == t
      {
        var i :| 0 <= i < |rest| && rest[i].Attempt? && rest[i].now == t;
        assert steps[i + 1].Attempt? && steps[i + 1].now == t;
      }
      var times, later := Times(steps, socket, bucket), Times(rest, socket, bucket);
      assert forall t <- later :: steps[0].Attempt? ==> steps[0].now <= t;
      assert forall i :: 0 <= i < |later| ==> later[i] in later;
      assert times == if Hits(steps[0], socket, bucket) then [steps[0].now] + later else later;
    }
  }

  /** From a socket's connection on, whatever the other handlers and sockets do, any 60 seconds see at most twice the
      ceiling of its events accepted. */
  lemma {:induction false} AtMostTwice(s: State, steps: seq<Step>, socket: nat, bucket: RateLimit.Bucket, lo: int)
    requires socket in s.socketToUser && socket !in s.rates && NoReconnect(steps, socket) && ClockOk(steps)
    ensures AcceptedIn(s, steps, socket, bucket, lo, lo + RateLimit.WINDOW) <= 2 * RateLimit.Ceiling(bucket)
    decreases |steps|
  {
    if |steps| > 0 {
      var hi, step, rest := lo + RateLimit.WINDOW, steps[0], steps[1..];
      assert NoReconnect(rest, socket) && ClockOk(rest);
      if step.Attempt? && step.socket == socket {
        // The first event of either bucket finds, in effect, two fresh slots.
        var known := s.(rates := s.rates[socket := RateLimit.Fresh(step.now)]);
        assert known.rates[socket := Next(known, step).rates[socket]] == s.rates[socket := Next(s, step).rates[socket]];
        assert AcceptedIn(known, steps, socket, bucket, lo, hi) == AcceptedIn(s, steps, socket, bucket, lo, hi);
        SlotDecides(known, steps, socket, bucket, lo, hi);
        TimesOrdered(steps, socket, bucket);
        var slot := RateLimit.Slot(0, step.now + RateLimit.WINDOW);
        RateLimit.AtMostTwice(slot, Times(steps, socket, bucket), RateLimit.Ceiling(bucket), lo);
      } else if step == Disconnect(socket) {
        GoneIsSilent(Next(s, step), rest, socket, bucket, lo, hi);
      } else {
        StillUntouched(s, step, socket);
        AtMostTwice(Next(s, step), rest, socket, bucket, lo);
      }
    }
  }

  lemma StillUntouched(s: State, step: Step, socket: nat)
    requires socket in s.socketToUser && socket !in s.rates
    requires step != Disconnect(socket) && !(step.Attempt? && step.socket == socket)
    ensures socket in Next(s, step).socketToUser && socket !in Next(s, step).rates
  {
  }
}
