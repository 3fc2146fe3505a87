/**
 What chat requests answer and write, field by field: whole requests first, then the statements that only the
 interleaved machine has.
 */
module ChatEffects {
  import opened Common
  import opened ChatTables
  import opened ChatRequests
  import Rooms = ChatRooms
  import ChatOverlaps

  // ----- Checks -----

  /** A check refuses a missing conversation, then a stranger, then a pair with a block in either direction. */
  lemma CheckRefusals(db: Db, c: nat, u: nat)
    ensures Assert(db, c, u) == Some(NotFound) <==> c !in db.conversations
    ensures c in db.conversations ==>
              (Assert(db, c, u) == Some(NotParticipant) <==> db.conversations[c].a != u && db.conversations[c].b != u)
    ensures Assert(db, c, u) == Some(ConversationBlocked) <==>
              && c in db.conversations
              && (|| (db.conversations[c].a == u
                      && ((u, db.conversations[c].b) in db.blocks || (db.conversations[c].b, u) in db.blocks))
                  || (db.conversations[c].b == u && db.conversations[c].a != u
                      && ((u, db.conversations[c].a) in db.blocks || (db.conversations[c].a, u) in db.blocks)))
  {
  }

  /** A product can be discussed unless it is missing or deleted, or belongs to neither user and is not available. */
  lemma ProductRefusals(db: Db, p: nat, u: nat, v: nat)
    ensures ProductProblem(db, None, u, v) == None
    ensures ProductProblem(db, Some(p), u, v) == Some(ProductNotFound) <==> p !in db.products || db.products[p].deleted
    ensures ProductProblem(db, Some(p), u, v) == Some(ProductUnavailable) <==>
              && p in db.products && !db.products[p].deleted && !db.products[p].available
              && db.products[p].owner != u && db.products[p].owner != v
    ensures ProductProblem(db, Some(p), u, v) == None <==>
              && p in db.products && !db.products[p].deleted
              && (db.products[p].available || db.products[p].owner == u || db.products[p].owner == v)
  {
  }

  // ----- Opening a conversation -----

  /** db and after agree on everything but one conversation. */
  ghost predicate OnlyConversation(db: Db, after: Db, c: nat) {
    && after.messages == db.messages && after.blocks == db.blocks && after.users == db.users
    && after.products == db.products && after.now == db.now && after.nextMessage == db.nextMessage
    && after.conversations.Keys == db.conversations.Keys + {c}
    && (forall d :: d in db.conversations && d != c ==> after.conversations[d] == db.conversations[d])
  }

  /** The conversation c of u and v is in `after`, about the product it had before, or else about this one. */
  ghost predicate Opened(db: Db, after: Db, c: nat, u: nat, v: nat, product: Option<nat>) {
    && OnlyConversation(db, after, c)
    && {after.conversations[c].a, after.conversations[c].b} == {u, v} && u != v
    && after.conversations[c].a < after.conversations[c].b
    && (if c in db.conversations then
          && after.conversations[c].product
             == (if db.conversations[c].product.Some? then db.conversations[c].product else product)
          && after.conversations[c].last == db.conversations[c].last
          && after.conversations[c].createdAt == db.conversations[c].createdAt
        else
          && after.conversations[c].product == product
          && after.conversations[c].last == None && after.conversations[c].createdAt == db.now)
  }

  lemma InsertOpens(db: Db, a: nat, b: nat, product: Option<nat>)
    requires Sound(db) && a < b
    ensures Opened(db, InsertConversation(db, a, b, product), db.nextConversation, a, b, product)
  {
    var after := InsertConversation(db, a, b, product);
    assert after.conversations.Keys == db.conversations.Keys + {db.nextConversation};
    assert db.nextConversation !in db.conversations;
  }

  lemma FoundOpens(db: Db, c: nat, a: nat, b: nat, product: Option<nat>)
    requires a < b && c in db.conversations && HasPair(db.conversations[c], a, b)
    ensures var attached := product.Some? && db.conversations[c].product.None?;
            Opened(db, if attached then SetProduct(db, c, product.value) else db, c, a, b, product)
  {
    assert db.conversations.Keys + {c} == db.conversations.Keys;
    if product.Some? && db.conversations[c].product.None? {
      assert SetProduct(db, c, product.value).conversations.Keys == db.conversations.Keys;
    }
  }

  /** A request that answers with a conversation has opened it; every other answer leaves the tables as they were. */
  lemma CreateOpens(db: Db, u: nat, v: nat, product: Option<nat>)
    requires Sound(db)
    ensures var (after, outcome) := GetOrCreate(db, u, v, product);
            if outcome.Done? then Opened(db, after, outcome.id, u, v, product) else after == db
  {
    var a, b := if u < v then u else v, if u < v then v else u;
    if u != v {
      assert {a, b} == {u, v};
      if PairTaken(db, a, b) {
        FoundOpens(db, PairOf(db, a, b), a, b, product);
      } else {
        InsertOpens(db, a, b, product);
      }
    }
  }

  /** It is answered exactly if the two differ, the other exists, no block stands and the product can be discussed. */
  lemma CreateAnswers(db: Db, u: nat, v: nat, product: Option<nat>)
    ensures var outcome := GetOrCreate(db, u, v, product).1;
            && (outcome == SelfConversation <==> u == v)
            && (outcome == ParticipantNotFound <==> u != v && v !in db.users)
            && (outcome == Denied(ConversationBlocked) <==>
                  u != v && v in db.users && ((u, v) in db.blocks || (v, u) in db.blocks))
            && (outcome.Done? <==>
                  && u != v && v in db.users && (u, v) !in db.blocks && (v, u) !in db.blocks
                  && ProductProblem(db, product, u, v) == None)
  {
  }

  /** A second request of the two, whichever of them makes it, finds the same conversation. */
  lemma CreateTwice(db: Db, u: nat, v: nat, product: Option<nat>, other: Option<nat>)
    requires Sound(db) && u in db.users
    requires GetOrCreate(db, u, v, product).1.Done?
    ensures var (after, outcome) := GetOrCreate(db, u, v, product);
            GetOrCreate(after, v, u, other).1.Done? ==> GetOrCreate(after, v, u, other).1 == outcome
  {
    var (after, outcome) := GetOrCreate(db, u, v, product);
    CreateOpens(db, u, v, product);
    RequestKeepsSound(db, Create(u, v, product));
    var a, b := if u < v then u else v, if u < v then v else u;
    assert HasPair(after.conversations[outcome.id], a, b);
    OneConversationPerPair(after, outcome.id, PairOf(after, a, b), u, v);
  }

  /** The interleaved INSERT stores the same row: the request's pair and product, and no last message. */
  lemma InsertStatementOpens(s: Rooms.State, r: nat)
    requires Rooms.Invariant(s) && r in s.flights && s.flights[r].CreateMissing?
    ensures var f := s.flights[r];
            var t := Rooms.Next(s, Rooms.CreateInsert(r));
            if PairTaken(s.db, f.a, f.b) then t.db == s.db
            else Opened(s.db, t.db, s.db.nextConversation, f.a, f.b, f.product)
                 && r in t.flights && t.flights[r] == Rooms.CreateReady(f.user, s.db.nextConversation)
  {
    var f := s.flights[r];
    assert Rooms.FlightOk(s, f);
    var t := Rooms.InsertPair(s, r);
    if !PairTaken(s.db, f.a, f.b) {
      assert t.db.conversations.Keys == s.db.conversations.Keys + {s.db.nextConversation};
    }
  }

  /** And the interleaved UPDATE attaches the request's product. */
  lemma AttachStatementWrites(s: Rooms.State, r: nat)
    requires Rooms.Invariant(s) && r in s.flights && s.flights[r].CreateAttaching?
    ensures var f := s.flights[r];
            var t := Rooms.Next(s, Rooms.CreateAttach(r));
            && OnlyConversation(s.db, t.db, f.c) && t.db.conversations[f.c].product == Some(f.newProduct)
            && t.db.conversations[f.c].last == s.db.conversations[f.c].last
            && t.db.conversations[f.c].a == s.db.conversations[f.c].a
            && t.db.conversations[f.c].b == s.db.conversations[f.c].b
  {
    var f := s.flights[r];
    assert Rooms.FlightOk(s, f);
    var t := Rooms.Attach(s, r);
    assert t.db.conversations.Keys == s.db.conversations.Keys + {f.c};
  }

  // ----- Messages -----

  /** A send is answered with the id of the message it stored: new, unread, from this user, sent now, and the
      conversation's last.  Every other answer leaves the tables as they were. */
  lemma SendStores(db: Db, u: nat, c: nat, text: string)
    requires Sound(db)
    ensures var (after, outcome) := SendMessage(db, u, c, text);
            && (outcome == BlankText <==> Assert(db, c, u) == None && forall i :: 0 <= i < |text| ==> text[i] == ' ')
            && (outcome.Denied? <==> Assert(db, c, u) != None)
            && (outcome.Denied? ==> Some(outcome.why) == Assert(db, c, u))
            && (outcome.Done? || outcome.Denied? || outcome.BlankText?)
            && (if outcome.Done? then
                  && outcome.id !in db.messages && after.messages.Keys == db.messages.Keys + {outcome.id}
                  && after.messages[outcome.id].conversation == c && after.messages[outcome.id].sender == u
                  && after.messages[outcome.id].text == text && after.messages[outcome.id].sentAt == db.now
                  && after.messages[outcome.id].readAt == None
                  && (forall m :: m in db.messages ==> after.messages[m] == db.messages[m])
                  && after.conversations.Keys == db.conversations.Keys
                  && after.conversations[c].last == Some(outcome.id)
                  && after.conversations[c].product == db.conversations[c].product
                  && (forall d :: d in db.conversations && d != c ==> after.conversations[d] == db.conversations[d])
                else after == db)
  {
  }

  /** A first read mark is set to now; a later one changes nothing; only the recipient may set it. */
  lemma ReadMarks(db: Db, u: nat, m: nat)
    requires Sound(db)
    ensures var (after, outcome) := MarkRead(db, u, m);
            && (outcome.Done? <==>
                  && m in db.messages && db.messages[m].sender != u
                  && Assert(db, db.messages[m].conversation, u) == None)
            && (outcome == MessageNotFound <==> m !in db.messages)
            && (outcome == OwnMessage ==> m in db.messages && db.messages[m].sender == u)
            && (if outcome.Done? then
                  && outcome.id == m && after.messages.Keys == db.messages.Keys
                  && after.messages[m].readAt
                     == (if db.messages[m].readAt == None then Some(db.now) else db.messages[m].readAt)
                  && after.messages[m].(readAt := None) == db.messages[m].(readAt := None)
                  && (forall n :: n in db.messages && n != m ==> after.messages[n] == db.messages[n])
                  && after.conversations == db.conversations
                else after == db)
  {
  }

  // ----- Blocks -----

  /** Blocking stores exactly this direction for two different users of whom the second exists; from then on neither can
      write to the other until every block between them is gone. */
  lemma BlockStores(db: Db, u: nat, v: nat, c: nat, text: string)
    ensures var (after, outcome) := BlockUser(db, u, v);
            && (outcome.Done? <==> u != v && v in db.users)
            && (if outcome.Done? then
                  && (forall x, y :: (x, y) in after.blocks <==> (x, y) in db.blocks || (x == u && y == v))
                  && after.conversations == db.conversations && after.messages == db.messages
                  && (Between(after, c, u, v) ==>
                        SendMessage(after, u, c, text).1 == Denied(ConversationBlocked)
                        && SendMessage(after, v, c, text).1 == Denied(ConversationBlocked))
                else after == db)
  {
  }

  lemma UnblockRemoves(db: Db, u: nat, v: nat)
    ensures var after := Apply(db, Unblock(u, v));
            && (forall x, y :: (x, y) in after.blocks <==> (x, y) in db.blocks && !(x == u && y == v))
            && after.conversations == db.conversations && after.messages == db.messages
  {
  }

  /** Time passes, accounts come and go, and products are put in stock, without any of it touching a conversation. */
  lemma SurroundingsChange(db: Db, elapsed: nat, u: nat, p: nat, row: Product)
    ensures Apply(db, Tick(elapsed)) == db.(now := db.now + elapsed)
    ensures forall w :: w in Apply(db, AddUser(u)).users <==> w in db.users || w == u
    ensures forall w :: w in Apply(db, DropUser(u)).users <==> w in db.users && w != u
    ensures var after := Apply(db, PutProduct(p, row)).products;
            p in after && after[p] == row && forall q :: q != p ==> (q in after <==> q in db.products)
    ensures forall q :: q in db.products && q != p ==> Apply(db, PutProduct(p, row)).products[q] == db.products[q]
  {
  }

  // ----- Lists -----

  /** Of a user's unblocked conversations, all are listed under "all", those about somebody else's product under "buy"
      and those about the user's own under "sell"; a deleted product puts a conversation under neither. */
  lemma ListedByScope(db: Db, u: nat, c: nat)
    requires Sound(db)
    ensures c !in db.conversations ==> !Listed(db, u, c, All) && !Listed(db, u, c, Buy) && !Listed(db, u, c, Sell)
    ensures c in db.conversations ==>
              var conv := db.conversations[c];
              var open := (conv.a == u && !Blocked(db, u, conv.b)) || (conv.b == u && !Blocked(db, u, conv.a));
              var about := conv.product.Some? && conv.product.value in db.products
                           && !db.products[conv.product.value].deleted;
              && (Listed(db, u, c, All) <==> open)
              && (Listed(db, u, c, Buy) <==> open && about && db.products[conv.product.value].owner != u)
              && (Listed(db, u, c, Sell) <==> open && about && db.products[conv.product.value].owner == u)
  {
  }

  // ----- Rooms -----

  /** A connect with a new socket registers it for its user; a disconnect takes it out of the registry and all rooms. */
  lemma ConnectRegisters(s: Rooms.State, sock: nat, u: nat)
    requires Rooms.Invariant(s)
    ensures sock !in s.auth ==>
              var t := Rooms.Next(s, Rooms.Connect(sock, u));
              && u in t.registry && sock in t.registry[u] && t.auth == s.auth[sock := u]
              && t.connected == s.connected + {sock} && t.rooms == s.rooms && t.db == s.db
    ensures sock in s.auth ==>
              var t := Rooms.Next(s, Rooms.Disconnect(sock));
              && (forall v :: v in t.registry ==> sock !in t.registry[v]) && sock !in t.connected
              && (forall c :: (c, sock) !in t.rooms)
              && (forall c, k :: k != sock ==> ((c, k) in t.rooms <==> (c, k) in s.rooms)) && t.db == s.db
  {
    if sock in s.auth {
      Rooms.StepKeeps(s, Rooms.Disconnect(sock));
      var t := Rooms.Next(s, Rooms.Disconnect(sock));
      forall v | v in t.registry ensures sock !in t.registry[v] {
        assert Rooms.Registered(t, v, sock) <==> Rooms.ConnectedAs(t, v, sock);
      }
    }
  }

  /** After a checked request the socket joins the room, and then the event goes to every socket in it, the requester's
      included. */
  lemma JoinThenEmit(s: Rooms.State, r: nat)
    requires r in s.flights && s.flights[r].JoinReady?
    ensures var c, sock := s.flights[r].c, s.flights[r].sock;
            var t := Rooms.Run(s, [Rooms.JoinRoom(r), Rooms.EmitRoom(r)]);
            && (forall d, k :: (d, k) in t.rooms <==> (d, k) in s.rooms || (d == c && k == sock))
            && |t.emits| == |s.emits| + 1 && t.emits[..|s.emits|] == s.emits
            && t.emits[|s.emits|].room == c && sock in t.emits[|s.emits|].to
            && (forall k :: k in t.emits[|s.emits|].to <==> (c, k) in s.rooms || k == sock)
            && r !in t.flights && t.db == s.db
  {
    var actions := [Rooms.JoinRoom(r), Rooms.EmitRoom(r)];
    ChatOverlaps.RunTwo(s, actions);
    var joined := Rooms.Next(s, actions[0]);
    var c, sock := s.flights[r].c, s.flights[r].sock;
    assert (c, sock) in joined.rooms;
    var t := Rooms.Next(joined, actions[1]);
    assert t.emits == s.emits + [Rooms.Emit(c, Rooms.Members(joined, c))];
    forall k: nat ensures k in Rooms.Members(joined, c) <==> (c, k) in s.rooms || k == sock {
      if (c, k) in joined.rooms {
        assert (c, k).1 == k;
      }
    }
  }

  /** The three requests of a socket that pass their check come to that point: nothing stands between an accepted join,
      send or read mark and its event. */
  lemma AcceptedRequestsEmit(s: Rooms.State, r: nat, sock: nat, c: nat, text: string, m: nat)
    requires r !in s.flights && sock in s.auth
    ensures Assert(s.db, c, s.auth[sock]) == None ==>
              Rooms.Next(s, Rooms.JoinCheck(r, sock, c)) == s.(flights := s.flights[r := Rooms.JoinReady(sock, c)])
    ensures SendMessage(s.db, s.auth[sock], c, text).1.Done? ==>
              var checked := Rooms.CheckSocket(s, r, sock, c, Rooms.SendChecked(sock, c));
              var t := Rooms.StoreLast(Rooms.StoreMessage(checked, r, text), r);
              t.flights == s.flights[r := Rooms.JoinReady(sock, c)]
    ensures MarkRead(s.db, s.auth[sock], m).1.Done? ==>
              var t := Rooms.MarkRead(Rooms.CheckRead(s, r, sock, m), r);
              t.flights == s.flights[r := Rooms.JoinReady(sock, s.db.messages[m].conversation)]
  {
    var checked := Rooms.CheckSocket(s, r, sock, c, Rooms.SendChecked(sock, c));
    if SendMessage(s.db, s.auth[sock], c, text).1.Done? {
      assert checked.flights == s.flights[r := Rooms.SendChecked(sock, c)];
      var stored := Rooms.StoreMessage(checked, r, text);
      assert stored.flights == s.flights[r := Rooms.SendStored(sock, c, s.db.nextMessage)];
    }
    if MarkRead(s.db, s.auth[sock], m).1.Done? {
      var marking := Rooms.CheckRead(s, r, sock, m);
      assert marking.flights == s.flights[r := Rooms.ReadChecked(sock, m)];
    }
  }

  /** After a REST request every registered socket of the two users can be joined, nobody else's, and one event goes to
      the room. */
  lemma RestJoinsRegistered(s: Rooms.State, r: nat, sock: nat)
    requires r in s.flights && s.flights[r].RestJoining?
    ensures var f := s.flights[r];
            var t := Rooms.Next(s, Rooms.RestJoin(r, sock));
            var registered := (f.a in s.registry && sock in s.registry[f.a])
                              || (f.b in s.registry && sock in s.registry[f.b]);
            && t.rooms == (if registered then s.rooms + {(f.c, sock)} else s.rooms) && t.flights == s.flights
    ensures var t := Rooms.Next(s, Rooms.RestEmit(r));
            && t.emits == s.emits + [Rooms.Emit(s.flights[r].c, set p | p in s.rooms && p.0 == s.flights[r].c :: p.1)]
            && r !in t.flights && t.rooms == s.rooms
  {
  }

  /** A created conversation that its user may see is handed over to that joining, with its two users. */
  lemma LoadedIsJoined(s: Rooms.State, r: nat)
    requires r in s.flights && s.flights[r].CreateReady?
    ensures var c := s.flights[r].c;
            var t := Rooms.Next(s, Rooms.CreateLoad(r));
            && (Assert(s.db, c, s.flights[r].user) == None ==>
                  t.flights == s.flights[r := Rooms.RestJoining(c, s.db.conversations[c].a, s.db.conversations[c].b)])
            && (Assert(s.db, c, s.flights[r].user) != None ==> t.flights == s.flights - {r})
            && t.db == s.db && t.rooms == s.rooms && t.emits == s.emits
  {
  }
}
