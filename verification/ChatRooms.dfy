/**
 The chat protocol as interleaved steps: sockets connect, join rooms, send, read and disconnect while REST requests
 create conversations and users block each other.  Every SQL statement, every room join and every emit is one step;
 a flight is what a request remembers between two of its steps.  An action whose guard fails changes nothing.
 */
module ChatRooms {
  import opened Common
  import opened ChatTables

  /** The sockets that were in the room of a conversation when an event was emitted to it. */
  datatype Emit = Emit(room: nat, to: set<nat>)

  datatype Flight =
    | JoinReady(sock: nat, c: nat)
    | EmitReady(c: nat)
    | SendChecked(sock: nat, c: nat)
    | SendStored(sock: nat, c: nat, m: nat)
    | ReadChecked(sock: nat, m: nat)
    | CreateChecked(user: nat, a: nat, b: nat, product: Option<nat>)
    | CreateMissing(user: nat, a: nat, b: nat, product: Option<nat>)
    | CreateAttaching(user: nat, c: nat, newProduct: nat)
    | CreateReady(user: nat, c: nat)
    | RestJoining(c: nat, a: nat, b: nat)

  /** auth: the user each socket ever connected proved to be; connected: the sockets that still are; registry:
      socketsByUserId; rooms: (conversation, socket). */
  datatype State = State(db: Db, auth: map<nat, nat>, connected: set<nat>, registry: map<nat, set<nat>>,
                         rooms: set<(nat, nat)>, flights: map<nat, Flight>, emits: seq<Emit>)

  const INIT: State := State(EMPTY_DB, map[], {}, map[], {}, map[], [])

  datatype Action =
    | Tick(elapsed: nat)
    | AddUser(u: nat)
    | DropUser(u: nat)
    | PutProduct(p: nat, row: Product)
    | Block(u: nat, v: nat)
    | Unblock(u: nat, v: nat)
    | Connect(sock: nat, u: nat)
    | Disconnect(sock: nat)
    | JoinCheck(r: nat, sock: nat, c: nat)
    | JoinRoom(r: nat)
    | EmitRoom(r: nat)
    | SendCheck(r: nat, sock: nat, c: nat)
    | SendInsert(r: nat, text: string)
    | SendLast(r: nat)
    | ReadCheck(r: nat, sock: nat, m: nat)
    | ReadMark(r: nat)
    | CreateCheck(r: nat, u: nat, v: nat, product: Option<nat>)
    | CreateFind(r: nat, found: Option<nat>)
    | CreateAttach(r: nat)
    | CreateInsert(r: nat)
    | CreateLoad(r: nat)
    | RestJoin(r: nat, sock: nat)
    | RestEmit(r: nat)

  // ----- Steps -----

  function Start(s: State, r: nat, f: Flight): State {
    if r in s.flights then s else s.(flights := s.flights[r := f])
  }

  function Members(s: State, c: nat): set<nat> {
    set p | p in s.rooms && p.0 == c :: p.1
  }

  function EmitTo(s: State, c: nat): State {
    s.(emits := s.emits + [Emit(c, Members(s, c))])
  }

  /** The participant check of a socket's request, which then proceeds to `f`. */
  function CheckSocket(s: State, r: nat, sock: nat, c: nat, f: Flight): State {
    if sock in s.auth && Assert(s.db, c, s.auth[sock]).None? then Start(s, r, f) else s
  }

  function Register(registry: map<nat, set<nat>>, u: nat, sock: nat): map<nat, set<nat>> {
    registry[u := (if u in registry then registry[u] else {}) + {sock}]
  }

  function Unregister(registry: map<nat, set<nat>>, u: nat, sock: nat): map<nat, set<nat>> {
    if u !in registry then registry
    else if registry[u] - {sock} == {} then registry - {u}
    else registry[u := registry[u] - {sock}]
  }

  function ConnectSocket(s: State, sock: nat, u: nat): State {
    s.(auth := s.auth[sock := u], connected := s.connected + {sock}, registry := Register(s.registry, u, sock))
  }

  function DisconnectSocket(s: State, sock: nat): State
    requires sock in s.auth
  {
    s.(connected := s.connected - {sock}, registry := Unregister(s.registry, s.auth[sock], sock),
       rooms := set p | p in s.rooms && p.1 != sock)
  }

  function StoreMessage(s: State, r: nat, text: string): State {
    if r in s.flights && s.flights[r].SendChecked? && s.flights[r].sock in s.auth && !IsBlank(text) then
      var f := s.flights[r];
      s.(db := InsertMessage(s.db, f.c, s.auth[f.sock], text),
         flights := s.flights[r := SendStored(f.sock, f.c, s.db.nextMessage)])
    else s
  }

  function StoreLast(s: State, r: nat): State {
    if r in s.flights && s.flights[r].SendStored? then
      var f := s.flights[r];
      s.(db := SetLast(s.db, f.c, f.m), flights := s.flights[r := JoinReady(f.sock, f.c)])
    else s
  }

  function MarkRead(s: State, r: nat): State {
    if r in s.flights && s.flights[r].ReadChecked? && s.flights[r].m in s.db.messages then
      var f := s.flights[r];
      s.(db := SetRead(s.db, f.m), flights := s.flights[r := JoinReady(f.sock, s.db.messages[f.m].conversation)])
    else s
  }

  function Attach(s: State, r: nat): State {
    if r in s.flights && s.flights[r].CreateAttaching? then
      var f := s.flights[r];
      s.(db := SetProduct(s.db, f.c, f.newProduct), flights := s.flights[r := CreateReady(f.user, f.c)])
    else s
  }

  function CheckRead(s: State, r: nat, sock: nat, m: nat): State {
    if sock in s.auth && m in s.db.messages && s.db.messages[m].sender != s.auth[sock]
    then CheckSocket(s, r, sock, s.db.messages[m].conversation, ReadChecked(sock, m)) else s
  }

  function CheckCreate(s: State, r: nat, u: nat, v: nat, product: Option<nat>): State {
    if u != v && v in s.db.users && !Blocked(s.db, u, v) && ProductProblem(s.db, product, u, v).None?
    then Start(s, r, if u < v then CreateChecked(u, u, v, product) else CreateChecked(u, v, u, product)) else s
  }

  function FindPair(s: State, r: nat, found: Option<nat>): State {
    if r in s.flights && s.flights[r].CreateChecked? then
      var f := s.flights[r];
      if found.Some? && found.value in s.db.conversations && HasPair(s.db.conversations[found.value], f.a, f.b) then
        if f.product.Some? && s.db.conversations[found.value].product.None?
        then s.(flights := s.flights[r := CreateAttaching(f.user, found.value, f.product.value)])
        else s.(flights := s.flights[r := CreateReady(f.user, found.value)])
      else if found.None? && !PairTaken(s.db, f.a, f.b)
      then s.(flights := s.flights[r := CreateMissing(f.user, f.a, f.b, f.product)])
      else s
    else s
  }

  function InsertPair(s: State, r: nat): State {
    if r in s.flights && s.flights[r].CreateMissing? then
      var f := s.flights[r];
      if CanInsertConversation(s.db, f.a, f.b)
      then s.(db := InsertConversation(s.db, f.a, f.b, f.product),
              flights := s.flights[r := CreateReady(f.user, s.db.nextConversation)])
      else s.(flights := s.flights - {r})
    else s
  }

  function LoadCreated(s: State, r: nat): State {
    if r in s.flights && s.flights[r].CreateReady? then
      var f := s.flights[r];
      if Assert(s.db, f.c, f.user).None?
      then s.(flights := s.flights[r := RestJoining(f.c, s.db.conversations[f.c].a, s.db.conversations[f.c].b)])
      else s.(flights := s.flights - {r})
    else s
  }

  function JoinRegistered(s: State, r: nat, sock: nat): State {
    if r in s.flights && s.flights[r].RestJoining? then
      var f := s.flights[r];
      if (f.a in s.registry && sock in s.registry[f.a]) || (f.b in s.registry && sock in s.registry[f.b])
      then s.(rooms := s.rooms + {(f.c, sock)}) else s
    else s
  }

  function Next(s: State, a: Action): State {
    match a
    case Tick(elapsed) => s.(db := s.db.(now := s.db.now + elapsed))
    case AddUser(u) => s.(db := s.db.(users := s.db.users + {u}))
    case DropUser(u) => s.(db := s.db.(users := s.db.users - {u}))
    case PutProduct(p, row) => s.(db := s.db.(products := s.db.products[p := row]))
    case Block(u, v) => s.(db := AddBlock(s.db, u, v))
    case Unblock(u, v) => s.(db := RemoveBlock(s.db, u, v))
    case Connect(sock, u) =>
      if sock in s.auth then s else ConnectSocket(s, sock, u)
    case Disconnect(sock) => if sock in s.auth then DisconnectSocket(s, sock) else s
    case JoinCheck(r, sock, c) => CheckSocket(s, r, sock, c, JoinReady(sock, c))
    case JoinRoom(r) =>
      if r in s.flights && s.flights[r].JoinReady?
      then s.(rooms := s.rooms + {(s.flights[r].c, s.flights[r].sock)},
              flights := s.flights[r := EmitReady(s.flights[r].c)]) else s
    case EmitRoom(r) =>
      if r in s.flights && s.flights[r].EmitReady? then EmitTo(s.(flights := s.flights - {r}), s.flights[r].c) else s
    case SendCheck(r, sock, c) => CheckSocket(s, r, sock, c, SendChecked(sock, c))
    case SendInsert(r, text) => StoreMessage(s, r, text)
    case SendLast(r) => StoreLast(s, r)
    case ReadCheck(r, sock, m) => CheckRead(s, r, sock, m)
    case ReadMark(r) => MarkRead(s, r)
    case CreateCheck(r, u, v, product) => CheckCreate(s, r, u, v, product)
    case CreateFind(r, found) => FindPair(s, r, found)
    case CreateAttach(r) => Attach(s, r)
    case CreateInsert(r) => InsertPair(s, r)
    case CreateLoad(r) => LoadCreated(s, r)
    case RestJoin(r, sock) => JoinRegistered(s, r, sock)
    case RestEmit(r) =>
      if r in s.flights && s.flights[r].RestJoining? then EmitTo(s.(flights := s.flights - {r}), s.flights[r].c) else s
  }

  function Run(s: State, actions: seq<Action>): State
    decreases |actions|
  {
    if actions == [] then s else Run(Next(s, actions[0]), actions[1..])
  }

  // ----- The invariant -----

  /** The socket proved to be a participant of the conversation. */
  ghost predicate Entitled(s: State, c: nat, sock: nat) {
    sock in s.auth && IsParticipant(s.db, c, s.auth[sock])
  }

  ghost predicate FlightOk(s: State, f: Flight) {
    match f
    case JoinReady(sock, c) => Entitled(s, c, sock)
    case SendChecked(sock, c) => Entitled(s, c, sock)
    case SendStored(sock, c, m) => Entitled(s, c, sock) && m in s.db.messages && s.db.messages[m].conversation == c
    case ReadChecked(sock, m) => m in s.db.messages && Entitled(s, s.db.messages[m].conversation, sock)
    case CreateChecked(_, a, b, _) => a < b
    case CreateMissing(_, a, b, _) => a < b
    case CreateAttaching(_, c, _) => c in s.db.conversations
    case RestJoining(c, a, b) => c in s.db.conversations && HasPair(s.db.conversations[c], a, b)
    case _ => true
  }

  ghost predicate FlightsOk(s: State) {
    forall r :: r in s.flights ==> FlightOk(s, s.flights[r])
  }

  /** A socket in the room of a conversation belongs to one of its participants. */
  ghost predicate RoomsOk(s: State) {
    forall c, sock :: (c, sock) in s.rooms ==> Entitled(s, c, sock)
  }

  predicate Registered(s: State, u: nat, sock: nat) {
    u in s.registry && sock in s.registry[u]
  }

  predicate ConnectedAs(s: State, u: nat, sock: nat) {
    sock in s.connected && sock in s.auth && s.auth[sock] == u
  }

  /** The registry lists exactly the connected sockets, each under its own user, and holds no empty set. */
  ghost predicate RegistryOk(s: State) {
    && s.connected <= s.auth.Keys
    && (forall u :: u in s.registry ==> s.registry[u] != {})
    && (forall u, sock :: Registered(s, u, sock) <==> ConnectedAs(s, u, sock))
  }

  /** Everything ever emitted to a room went to participants of its conversation only. */
  ghost predicate EmitsOk(s: State) {
    forall i, sock :: 0 <= i < |s.emits| && sock in s.emits[i].to ==> Entitled(s, s.emits[i].room, sock)
  }

  ghost predicate Invariant(s: State) {
    Sound(s.db) && FlightsOk(s) && RoomsOk(s) && RegistryOk(s) && EmitsOk(s)
  }

  ghost predicate Extends(s: State, t: State) {
    && Grows(s.db, t.db)
    && forall sock :: sock in s.auth ==> sock in t.auth && t.auth[sock] == s.auth[sock]
  }

  lemma EntitledStays(s: State, t: State, c: nat, sock: nat)
    requires Extends(s, t) && Entitled(s, c, sock)
    ensures Entitled(t, c, sock)
  {
  }

  lemma FlightStaysOk(s: State, t: State, f: Flight)
    requires Extends(s, t) && FlightOk(s, f)
    ensures FlightOk(t, f)
  {
    if f.SendStored? || f.ReadChecked? {
      assert t.db.messages[f.m].(readAt := None) == s.db.messages[f.m].(readAt := None);
    }
  }

  predicate SameSockets(s: State, t: State) {
    t.auth == s.auth && t.connected == s.connected && t.registry == s.registry
  }

  lemma RegistryStays(s: State, t: State)
    requires RegistryOk(s) && SameSockets(s, t)
    ensures RegistryOk(t)
  {
    forall u, sock ensures Registered(t, u, sock) <==> ConnectedAs(t, u, sock) {
      assert Registered(s, u, sock) <==> ConnectedAs(s, u, sock);
    }
  }

  /** A step keeps the invariant when it extends the tables and the sockets, admits at most one entitled socket to
      one room, starts only good flights, and emits at most to the members of one room. */
  lemma Preserved(s: State, t: State, c: nat, sock: nat)
    requires Invariant(s) && Sound(t.db) && Extends(s, t) && (SameSockets(s, t) || RegistryOk(t))
    requires t.rooms <= s.rooms || (t.rooms <= s.rooms + {(c, sock)} && Entitled(t, c, sock))
    requires forall r :: r in t.flights ==>
               (r in s.flights && t.flights[r] == s.flights[r]) || FlightOk(t, t.flights[r])
    requires t.emits == s.emits || t.emits == s.emits + [Emit(c, Members(s, c))]
    ensures Invariant(t)
  {
    if SameSockets(s, t) { RegistryStays(s, t); }
    forall r | r in t.flights ensures FlightOk(t, t.flights[r]) {
      if r in s.flights && t.flights[r] == s.flights[r] {
        FlightStaysOk(s, t, t.flights[r]);
      }
    }
    forall d, k | (d, k) in t.rooms ensures Entitled(t, d, k) {
      if (d, k) in s.rooms { EntitledStays(s, t, d, k); }
    }
    forall i, k | 0 <= i < |t.emits| && k in t.emits[i].to ensures Entitled(t, t.emits[i].room, k) {
      if i < |s.emits| {
        assert t.emits[i] == s.emits[i];
        EntitledStays(s, t, s.emits[i].room, k);
      } else {
        assert (c, k) in s.rooms;
        EntitledStays(s, t, c, k);
      }
    }
  }

  lemma GrowsReflexive(db: Db)
    ensures Grows(db, db)
  {
  }

  predicate IsEnvironment(a: Action) {
    a.Tick? || a.AddUser? || a.DropUser? || a.PutProduct? || a.Block? || a.Unblock?
  }

  lemma SameTables(db: Db, after: Db)
    requires Sound(db) && after.conversations == db.conversations && after.messages == db.messages
             && db.now <= after.now
    requires after.nextConversation == db.nextConversation && after.nextMessage == db.nextMessage
    ensures Sound(after) && Grows(db, after)
  {
  }

  lemma TablesOnlyKeep(s: State, t: State)
    requires Invariant(s) && t == s.(db := t.db) && Sound(t.db) && Grows(s.db, t.db)
    ensures Invariant(t) && Extends(s, t)
  {
    Preserved(s, t, 0, 0);
  }

  lemma EnvironmentKeeps(s: State, a: Action)
    requires Invariant(s) && IsEnvironment(a)
    ensures Invariant(Next(s, a)) && Extends(s, Next(s, a))
  {
    SameTables(s.db, Next(s, a).db);
    TablesOnlyKeep(s, Next(s, a));
  }

  lemma ConnectKeeps(s: State, sock: nat, u: nat)
    requires Invariant(s) && sock !in s.auth
    ensures Invariant(ConnectSocket(s, sock, u)) && Extends(s, ConnectSocket(s, sock, u))
  {
    var t := ConnectSocket(s, sock, u);
    GrowsReflexive(s.db);
    forall v, k ensures Registered(t, v, k) <==> ConnectedAs(t, v, k) {
      assert Registered(t, v, k) <==> Registered(s, v, k) || (v == u && k == sock);
      assert Registered(s, v, k) <==> ConnectedAs(s, v, k);
    }
    Preserved(s, t, 0, 0);
  }

  lemma UnregisterOne(registry: map<nat, set<nat>>, u: nat, sock: nat, v: nat, k: nat)
    ensures var after := Unregister(registry, u, sock);
            v in after && k in after[v] <==> v in registry && k in registry[v] && (v != u || k != sock)
  {
    if u in registry {
      assert k in registry[u] - {sock} <==> k in registry[u] && k != sock;
    }
  }

  lemma DisconnectKeeps(s: State, sock: nat)
    requires Invariant(s) && sock in s.auth
    ensures Invariant(DisconnectSocket(s, sock)) && Extends(s, DisconnectSocket(s, sock))
  {
    var t := DisconnectSocket(s, sock);
    GrowsReflexive(s.db);
    forall v, k ensures Registered(t, v, k) <==> ConnectedAs(t, v, k) {
      assert Registered(s, v, k) <==> ConnectedAs(s, v, k);
      UnregisterOne(s.registry, s.auth[sock], sock, v, k);
    }
    Preserved(s, t, 0, 0);
  }

  /** Steps that leave the tables alone and move one flight. */
  lemma FlightKeeps(s: State, t: State, r: nat)
    requires Invariant(s) && t == s.(flights := t.flights)
    requires forall q :: q in t.flights && q != r ==> q in s.flights && t.flights[q] == s.flights[q]
    requires r in t.flights ==> (r in s.flights && t.flights[r] == s.flights[r]) || FlightOk(t, t.flights[r])
    ensures Invariant(t) && Extends(s, t)
  {
    GrowsReflexive(s.db);
    Preserved(s, t, 0, 0);
  }

  /** Steps that run one statement and then move one flight. */
  lemma StatementKeeps(s: State, db: Db, r: nat, f: Flight)
    requires Invariant(s) && Sound(db) && Grows(s.db, db) && FlightOk(s.(db := db), f)
    ensures var t := s.(db := db, flights := s.flights[r := f]); Invariant(t) && Extends(s, t)
  {
    var t := s.(db := db, flights := s.flights[r := f]);
    assert FlightOk(t, f);
    Preserved(s, t, 0, 0);
  }

  lemma JoinKeeps(s: State, t: State, r: nat, c: nat, sock: nat)
    requires Invariant(s) && Entitled(s, c, sock)
    requires t == s.(rooms := s.rooms + {(c, sock)})
             || t == s.(rooms := s.rooms + {(c, sock)}, flights := s.flights[r := EmitReady(c)])
    ensures Invariant(t) && Extends(s, t)
  {
    GrowsReflexive(s.db);
    Preserved(s, t, c, sock);
  }

  lemma EmitKeeps(s: State, r: nat, c: nat)
    requires Invariant(s)
    ensures var t := EmitTo(s.(flights := s.flights - {r}), c); Invariant(t) && Extends(s, t)
  {
    GrowsReflexive(s.db);
    Preserved(s, EmitTo(s.(flights := s.flights - {r}), c), c, 0);
  }

  lemma CheckCreateKeeps(s: State, r: nat, u: nat, v: nat, product: Option<nat>)
    requires Invariant(s)
    ensures Invariant(CheckCreate(s, r, u, v, product)) && Extends(s, CheckCreate(s, r, u, v, product))
  {
    FlightKeeps(s, CheckCreate(s, r, u, v, product), r);
  }

  lemma FindPairKeeps(s: State, r: nat, found: Option<nat>)
    requires Invariant(s)
    ensures Invariant(FindPair(s, r, found)) && Extends(s, FindPair(s, r, found))
  {
    FlightKeeps(s, FindPair(s, r, found), r);
  }

  lemma LoadCreatedKeeps(s: State, r: nat)
    requires Invariant(s)
    ensures Invariant(LoadCreated(s, r)) && Extends(s, LoadCreated(s, r))
  {
    FlightKeeps(s, LoadCreated(s, r), r);
  }

  lemma AttachKeeps(s: State, r: nat)
    requires Invariant(s)
    ensures Invariant(Attach(s, r)) && Extends(s, Attach(s, r))
  {
    GrowsReflexive(s.db);
    if r in s.flights && s.flights[r].CreateAttaching? {
      var f := s.flights[r];
      SetProductKeeps(s.db, f.c, f.newProduct);
      StatementKeeps(s, SetProduct(s.db, f.c, f.newProduct), r, CreateReady(f.user, f.c));
    }
  }

  lemma InsertPairKeeps(s: State, r: nat)
    requires Invariant(s)
    ensures Invariant(InsertPair(s, r)) && Extends(s, InsertPair(s, r))
  {
    GrowsReflexive(s.db);
    if r in s.flights && s.flights[r].CreateMissing? {
      var f := s.flights[r];
      if CanInsertConversation(s.db, f.a, f.b) {
        InsertConversationKeeps(s.db, f.a, f.b, f.product);
        StatementKeeps(s, InsertConversation(s.db, f.a, f.b, f.product), r, CreateReady(f.user, s.db.nextConversation));
      } else {
        FlightKeeps(s, InsertPair(s, r), r);
      }
    }
  }

  lemma CreateReadKeeps(s: State, a: Action)
    requires Invariant(s) && (a.CreateCheck? || a.CreateFind? || a.CreateLoad?)
    ensures Invariant(Next(s, a)) && Extends(s, Next(s, a))
  {
    match a
    case CreateCheck(r, u, v, product) => CheckCreateKeeps(s, r, u, v, product);
    case CreateFind(r, found) => FindPairKeeps(s, r, found);
    case CreateLoad(r) => LoadCreatedKeeps(s, r);
  }

  lemma CreateWriteKeeps(s: State, a: Action)
    requires Invariant(s) && (a.CreateAttach? || a.CreateInsert?)
    ensures Invariant(Next(s, a)) && Extends(s, Next(s, a))
  {
    match a
    case CreateAttach(r) => AttachKeeps(s, r);
    case CreateInsert(r) => InsertPairKeeps(s, r);
  }

  lemma CheckSocketKeeps(s: State, r: nat, sock: nat, c: nat, f: Flight)
    requires Invariant(s) && (Entitled(s, c, sock) ==> FlightOk(s, f))
    ensures Invariant(CheckSocket(s, r, sock, c, f)) && Extends(s, CheckSocket(s, r, sock, c, f))
  {
    FlightStartKeeps(s, r, f);
    GrowsReflexive(s.db);
  }

  lemma FlightStartKeeps(s: State, r: nat, f: Flight)
    requires Invariant(s)
    ensures FlightOk(s, f) ==> Invariant(Start(s, r, f)) && Extends(s, Start(s, r, f))
  {
    if FlightOk(s, f) {
      FlightKeeps(s, Start(s, r, f), r);
    }
  }

  lemma StoreMessageKeeps(s: State, r: nat, text: string)
    requires Invariant(s) && StoreMessage(s, r, text) != s
    ensures Invariant(StoreMessage(s, r, text)) && Extends(s, StoreMessage(s, r, text))
  {
    var f := s.flights[r];
    assert FlightOk(s, f);
    InsertMessageKeeps(s.db, f.c, s.auth[f.sock], text);
    StatementKeeps(s, InsertMessage(s.db, f.c, s.auth[f.sock], text), r, SendStored(f.sock, f.c, s.db.nextMessage));
  }

  lemma StoreLastKeeps(s: State, r: nat)
    requires Invariant(s) && r in s.flights && s.flights[r].SendStored?
    ensures Invariant(StoreLast(s, r)) && Extends(s, StoreLast(s, r))
  {
    var f := s.flights[r];
    assert FlightOk(s, f);
    SetLastKeeps(s.db, f.c, f.m);
    EntitledStays(s, s.(db := SetLast(s.db, f.c, f.m)), f.c, f.sock);
    StatementKeeps(s, SetLast(s.db, f.c, f.m), r, JoinReady(f.sock, f.c));
  }

  lemma MarkReadKeeps(s: State, r: nat)
    requires Invariant(s) && r in s.flights && s.flights[r].ReadChecked? && s.flights[r].m in s.db.messages
    ensures Invariant(MarkRead(s, r)) && Extends(s, MarkRead(s, r))
  {
    var f := s.flights[r];
    var c := s.db.messages[f.m].conversation;
    assert FlightOk(s, f);
    SetReadKeeps(s.db, f.m);
    EntitledStays(s, s.(db := SetRead(s.db, f.m)), c, f.sock);
    StatementKeeps(s, SetRead(s.db, f.m), r, JoinReady(f.sock, c));
  }

  lemma CheckReadKeeps(s: State, r: nat, sock: nat, m: nat)
    requires Invariant(s)
    ensures Invariant(CheckRead(s, r, sock, m)) && Extends(s, CheckRead(s, r, sock, m))
  {
    GrowsReflexive(s.db);
    if m in s.db.messages {
      CheckSocketKeeps(s, r, sock, s.db.messages[m].conversation, ReadChecked(sock, m));
    }
  }

  lemma SocketCheckKeeps(s: State, a: Action)
    requires Invariant(s) && (a.SendCheck? || a.ReadCheck? || a.JoinCheck?)
    ensures Invariant(Next(s, a)) && Extends(s, Next(s, a))
  {
    match a
    case JoinCheck(r, sock, c) => CheckSocketKeeps(s, r, sock, c, JoinReady(sock, c));
    case SendCheck(r, sock, c) => CheckSocketKeeps(s, r, sock, c, SendChecked(sock, c));
    case ReadCheck(r, sock, m) => CheckReadKeeps(s, r, sock, m);
  }

  lemma MessageKeeps(s: State, a: Action)
    requires Invariant(s) && (a.SendInsert? || a.SendLast? || a.ReadMark?)
    ensures Invariant(Next(s, a)) && Extends(s, Next(s, a))
  {
    GrowsReflexive(s.db);
    match a
    case SendInsert(r, text) => if StoreMessage(s, r, text) != s { StoreMessageKeeps(s, r, text); }
    case SendLast(r) => if r in s.flights && s.flights[r].SendStored? { StoreLastKeeps(s, r); }
    case ReadMark(r) =>
      if r in s.flights && s.flights[r].ReadChecked? && s.flights[r].m in s.db.messages { MarkReadKeeps(s, r); }
  }

  lemma RestJoinKeeps(s: State, r: nat, sock: nat)
    requires Invariant(s)
    ensures Invariant(JoinRegistered(s, r, sock)) && Extends(s, JoinRegistered(s, r, sock))
  {
    var t := JoinRegistered(s, r, sock);
    GrowsReflexive(s.db);
    if t != s {
      var f := s.flights[r];
      assert FlightOk(s, f);
      assert Registered(s, f.a, sock) || Registered(s, f.b, sock);
      assert ConnectedAs(s, f.a, sock) || ConnectedAs(s, f.b, sock);
      JoinKeeps(s, t, r, f.c, sock);
    }
  }

  lemma JoinRoomKeeps(s: State, r: nat)
    requires Invariant(s) && r in s.flights && s.flights[r].JoinReady?
    ensures Invariant(Next(s, JoinRoom(r))) && Extends(s, Next(s, JoinRoom(r)))
  {
    assert FlightOk(s, s.flights[r]);
    JoinKeeps(s, Next(s, JoinRoom(r)), r, s.flights[r].c, s.flights[r].sock);
  }

  lemma RoomKeeps(s: State, a: Action)
    requires Invariant(s) && (a.JoinRoom? || a.EmitRoom? || a.RestJoin? || a.RestEmit?)
    ensures Invariant(Next(s, a)) && Extends(s, Next(s, a))
  {
    GrowsReflexive(s.db);
    match a
    case JoinRoom(r) => if r in s.flights && s.flights[r].JoinReady? { JoinRoomKeeps(s, r); }
    case EmitRoom(r) => if r in s.flights && s.flights[r].EmitReady? { EmitKeeps(s, r, s.flights[r].c); }
    case RestJoin(r, sock) => RestJoinKeeps(s, r, sock);
    case RestEmit(r) => if r in s.flights && s.flights[r].RestJoining? { EmitKeeps(s, r, s.flights[r].c); }
  }

  lemma StepKeeps(s: State, a: Action)
    requires Invariant(s)
    ensures Invariant(Next(s, a)) && Extends(s, Next(s, a))
  {
    GrowsReflexive(s.db);
    if IsEnvironment(a) {
      EnvironmentKeeps(s, a);
    } else if a.Connect? {
      if a.sock !in s.auth { ConnectKeeps(s, a.sock, a.u); }
    } else if a.Disconnect? {
      if a.sock in s.auth { DisconnectKeeps(s, a.sock); }
    } else if a.JoinRoom? || a.EmitRoom? || a.RestJoin? || a.RestEmit? {
      RoomKeeps(s, a);
    } else if a.CreateCheck? || a.CreateFind? || a.CreateLoad? {
      CreateReadKeeps(s, a);
    } else if a.CreateAttach? || a.CreateInsert? {
      CreateWriteKeeps(s, a);
    } else if a.SendCheck? || a.ReadCheck? || a.JoinCheck? {
      SocketCheckKeeps(s, a);
    } else {
      MessageKeeps(s, a);
    }
  }

  // ----- Every run -----

  lemma {:induction false} RunKeeps(s: State, actions: seq<Action>)
    requires Invariant(s)
    ensures Invariant(Run(s, actions)) && Grows(s.db, Run(s, actions).db)
    decreases |actions|
  {
    if actions == [] {
      GrowsReflexive(s.db);
    } else {
      var t := Next(s, actions[0]);
      StepKeeps(s, actions[0]);
      RunKeeps(t, actions[1..]);
      GrowsTransitive(s.db, t.db, Run(t, actions[1..]).db);
    }
  }

  /** In every run each socket in the room of a conversation is authenticated as one of its participants, every emit
      reached participants only, and the registry lists exactly honest, non-empty socket sets. */
  lemma RoomsArePrivate(actions: seq<Action>)
    ensures var s := Run(INIT, actions); RoomsOk(s) && EmitsOk(s) && RegistryOk(s)
  {
    RunKeeps(INIT, actions);
  }

  /** In every run there is one conversation per unordered pair, stored smaller id first, every sender takes part, and
      last_message_id names a message of the same conversation. */
  lemma TablesAreSound(actions: seq<Action>, u: nat, v: nat)
    requires u != v
    ensures var db := Run(INIT, actions).db;
            && Sound(db)
            && (forall c, d ::
                  (IsParticipant(db, c, u) && IsParticipant(db, c, v)) ==>
                  (IsParticipant(db, d, u) && IsParticipant(db, d, v)) ==> c == d)
  {
    RunKeeps(INIT, actions);
    var db := Run(INIT, actions).db;
    forall c, d | && IsParticipant(db, c, u) && IsParticipant(db, c, v)
                  && IsParticipant(db, d, u) && IsParticipant(db, d, v)
      ensures c == d
    {
      OneConversationPerPair(db, c, d, u, v);
    }
  }

  /** Whatever else happens, a stored message never changes and a read mark that is set keeps its time. */
  lemma ReadMarksAreFinal(before: seq<Action>, after: seq<Action>, m: nat)
    requires m in Run(INIT, before).db.messages
    ensures var s, t := Run(INIT, before), Run(Run(INIT, before), after);
            && m in t.db.messages
            && t.db.messages[m].text == s.db.messages[m].text && t.db.messages[m].sender == s.db.messages[m].sender
            && t.db.messages[m].conversation == s.db.messages[m].conversation
            && t.db.messages[m].sentAt == s.db.messages[m].sentAt
            && (s.db.messages[m].readAt.Some? ==> t.db.messages[m].readAt == s.db.messages[m].readAt)
  {
    RunKeeps(INIT, before);
    RunKeeps(Run(INIT, before), after);
    var s, t := Run(INIT, before), Run(Run(INIT, before), after);
    assert t.db.messages[m].(readAt := None) == s.db.messages[m].(readAt := None);
  }
}
