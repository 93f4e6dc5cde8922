/** The gateway's maps, changed in place by each handler. */
module GatewayServer {
  import opened Basics
  import RateLimit
  import G = Gateway

  class GatewayServer {
    var userSockets: map<nat, seq<nat>>
    var socketToUser: map<nat, nat>
    var userConversations: map<nat, set<nat>>
    var rateLimits: map<nat, RateLimit.Buckets>
    ghost var presence: seq<G.Event>

    ghost function View(): G.State
      reads this
    {
      G.State(userSockets, socketToUser, userConversations, rateLimits, presence)
    }

    constructor ()
      ensures View() == G.EMPTY
    {
      userSockets, socketToUser, userConversations, rateLimits, presence := map[], map[], map[], map[], [];
    }

    /** The handshake of an authenticated user; `emitted` is the presence event sent to the user's partners. */
    method HandleConnection(client: nat, user: nat) returns (emitted: Option<G.Event>)
      modifies this
      ensures View() == G.Connected(old(View()), client, user)
      ensures presence == if emitted.Some? then old(presence) + [emitted.value] else old(presence)
    {
      var existing := if user in userSockets then userSockets[user] else [];
      if |existing| >= G.MAX_SOCKETS_PER_USER {
        return None;
      }
      existing := existing + [client];
      userSockets := userSockets[user := existing];
      socketToUser := socketToUser[client := user];
      if |existing| == 1 {
        presence := presence + [G.Event(user, true)];
        return Some(G.Event(user, true));
      }
      return None;
    }

    method HandleDisconnect(client: nat) returns (emitted: Option<G.Event>)
      modifies this
      ensures View() == G.Disconnected(old(View()), client)
      ensures presence == if emitted.Some? then old(presence) + [emitted.value] else old(presence)
    {
      var user := if client in socketToUser then Some(socketToUser[client]) else None;
      socketToUser := socketToUser - {client};
      rateLimits := rateLimits - {client};
      if user.None? {
        return None;
      }
      var u := user.value;
      var sockets := if u in userSockets then userSockets[u] else [];
      var filtered: seq<nat> := [];
      for i := 0 to |sockets|
        invariant filtered + G.Without(sockets[i..], client) == G.Without(sockets, client)
      {
        assert sockets[i..][0] == sockets[i] && sockets[i..][1..] == sockets[i + 1..];
        if sockets[i] != client {
          filtered := filtered + [sockets[i]];
        }
      }
      assert filtered + [] == filtered;
      if |filtered| == 0 {
        userSockets := userSockets - {u};
        userConversations := userConversations - {u};
        presence := presence + [G.Event(u, false)];
        return Some(G.Event(u, false));
      } else {
        userSockets := userSockets[u := filtered];
        return None;
      }
    }

    /** Checks and ticks one of a connected socket's buckets. */
    method CheckRate(socket: nat, bucket: RateLimit.Bucket, now: int) returns (allowed: bool)
      requires socket in socketToUser
      modifies this`rateLimits
      ensures View() == G.Attempted(old(View()), socket, bucket, now)
      ensures allowed == G.Accepted(old(View()), socket, bucket, now)
    {
      var state := if socket in rateLimits then rateLimits[socket] else RateLimit.Fresh(now);
      var slot := state.Get(bucket);
      if slot.resetAt <= now {
        slot := RateLimit.Slot(0, now + RateLimit.WINDOW);
      }
      if slot.count >= RateLimit.Ceiling(bucket) {
        // The state object was changed in place, and is in the map: a fresh slot is below every ceiling.
        rateLimits := rateLimits[socket := state.Set(bucket, slot)];
        return false;
      }
      slot := slot.(count := slot.count + 1);
      rateLimits := rateLimits[socket := state.Set(bucket, slot)];
      return true;
    }

    method HandleJoinConversation(client: nat, conversation: nat, participant: bool) returns (joined: bool)
      modifies this`userConversations
      ensures View() == G.Next(old(View()), G.Join(client, conversation, participant))
      ensures joined <==> client in socketToUser && participant
    {
      if client !in socketToUser || !participant {
        return false;
      }
      var u := socketToUser[client];
      var conversations := if u in userConversations then userConversations[u] else {};
      userConversations := userConversations[u := conversations + {conversation}];
      return true;
    }

    method HandleLeaveConversation(client: nat, conversation: nat)
      modifies this`userConversations
      ensures View() == G.Next(old(View()), G.Leave(client, conversation))
    {
      if client in socketToUser && socketToUser[client] in userConversations {
        var u := socketToUser[client];
        var left := userConversations[u] - {conversation};
        userConversations := userConversations[u := left];
        if |left| == 0 {
          userConversations := userConversations - {u};
        }
      }
    }

    method IsUserOnline(user: nat) returns (online: bool)
      requires G.Inv(View())
      ensures online <==> exists x :: x in socketToUser && socketToUser[x] == user
    {
      G.MapsAreInverse(View(), 0, user);
      return user in userSockets && |userSockets[user]| > 0;
    }
  }
}
