/** The registry of connected sockets: a Map from user to a Set of sockets, changed in place. */
module ChatSockets {
  import opened ChatRooms

  class ChatSocketRegistry {
    var hasServer: bool
    var socketsByUserId: map<nat, set<nat>>
    /** The rooms the sockets have joined: (conversation, socket). */
    var rooms: set<(nat, nat)>
    var emits: seq<Emit>

    constructor ()
      ensures !hasServer && socketsByUserId == map[] && rooms == {} && emits == []
    {
      hasServer, socketsByUserId, rooms, emits := false, map[], {}, [];
    }

    method RegisterUserSocket(userId: nat, socket: nat)
      modifies this`socketsByUserId
      ensures socketsByUserId == Register(old(socketsByUserId), userId, socket)
    {
      var sockets := if userId in socketsByUserId then socketsByUserId[userId] else {};
      sockets := sockets + {socket};
      socketsByUserId := socketsByUserId[userId := sockets];
    }

    method UnregisterUserSocket(userId: nat, socket: nat)
      modifies this`socketsByUserId
      ensures socketsByUserId == Unregister(old(socketsByUserId), userId, socket)
    {
      if userId !in socketsByUserId { return; }
      var sockets := socketsByUserId[userId] - {socket};
      socketsByUserId := socketsByUserId[userId := sockets];
      if |sockets| == 0 {
        socketsByUserId := socketsByUserId - {userId};
      }
    }

    ghost function SocketsOf(userIds: set<nat>): set<nat>
      reads this
    {
      set u, k | u in userIds && u in socketsByUserId && k in socketsByUserId[u] :: k
    }

    /** Joins every socket of every participant to the room and then emits once to the whole room. */
    method EmitConversationJoinedToParticipants(conversationId: nat, participantUserIds: seq<nat>)
      modifies this`rooms, this`emits
      ensures !hasServer ==> rooms == old(rooms) && emits == old(emits)
      ensures hasServer ==>
                && (forall c, k :: (c, k) in rooms <==>
                      (c, k) in old(rooms)
                      || (c == conversationId && k in SocketsOf(set u | u in participantUserIds && u > 0)))
                && emits == old(emits) + [Emit(conversationId, set p | p in rooms && p.0 == conversationId :: p.1)]
    {
      if !hasServer { return; }
      ghost var unique := set u | u in participantUserIds && u > 0;
      var pendingUsers := set u | u in participantUserIds && u > 0;
      while pendingUsers != {}
        invariant pendingUsers <= unique
        invariant emits == old(emits)
        invariant forall c, k :: (c, k) in rooms <==>
          (c, k) in old(rooms) || (c == conversationId && k in SocketsOf(unique - pendingUsers))
      {
        var userId :| userId in pendingUsers;
        ghost var before := rooms;
        var sockets := if userId in socketsByUserId then socketsByUserId[userId] else {};
        ghost var all := sockets;
        while sockets != {}
          invariant sockets <= all
          invariant emits == old(emits)
          invariant forall c, k :: (c, k) in rooms <==> (c, k) in before || (c == conversationId && k in all - sockets)
        {
          var socket :| socket in sockets;
          rooms := rooms + {(conversationId, socket)};
          sockets := sockets - {socket};
        }
        assert SocketsOf(unique - (pendingUsers - {userId})) == SocketsOf(unique - pendingUsers) + all;
        pendingUsers := pendingUsers - {userId};
      }
      assert unique - pendingUsers == unique;
      emits := emits + [Emit(conversationId, set p | p in rooms && p.0 == conversationId :: p.1)];
    }
  }

  datatype Event = Connected(user: nat, socket: nat) | Disconnected(user: nat, socket: nat)

  function Registry(events: seq<Event>): map<nat, set<nat>> {
    if events == [] then map[]
    else
      var before := Registry(events[..|events| - 1]);
      match events[|events| - 1]
      case Connected(u, k) => Register(before, u, k)
      case Disconnected(u, k) => Unregister(before, u, k)
  }

  /** The last event about this user and socket is a connect. */
  ghost predicate IsConnected(events: seq<Event>, u: nat, k: nat) {
    exists i :: 0 <= i < |events| && events[i] == Connected(u, k)
             && forall j :: i < j < |events| ==> events[j] != Disconnected(u, k)
  }

  /** After every sequence of connects and disconnects a socket is registered for a user exactly if its last event for
      that user was a connect, and no user is kept with an empty set. */
  lemma {:induction false} RegistryIsConnected(events: seq<Event>, u: nat, k: nat)
    ensures u in Registry(events) && k in Registry(events)[u] <==> IsConnected(events, u, k)
    ensures u in Registry(events) ==> Registry(events)[u] != {}
  {
    if events != [] {
      var n := |events| - 1;
      var before := events[..n];
      RegistryIsConnected(before, u, k);
      if events[n] != Connected(u, k) && events[n] != Disconnected(u, k) {
        if IsConnected(before, u, k) {
          var i :| && 0 <= i < |before| && before[i] == Connected(u, k)
                   && forall j :: i < j < |before| ==> before[j] != Disconnected(u, k);
          assert events[i] == Connected(u, k);
        }
        if IsConnected(events, u, k) {
          var i :| && 0 <= i < |events| && events[i] == Connected(u, k)
                   && forall j :: i < j < |events| ==> events[j] != Disconnected(u, k);
          assert before[i] == Connected(u, k);
        }
      }
    }
  }
}
