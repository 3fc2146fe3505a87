/**
 Whole chat requests as runs of the interleaved machine: the statements of one request, run alone, do to the tables
 what the request does, so every sequential run is one of the interleaved runs.
 */
module ChatRefinement {
  import opened Common
  import opened ChatTables
  import opened ChatRooms
  import ChatOverlaps
  import ChatRequests

  // ----- One request -----

  /** The statements of a create request; what the second one finds decides which of the others does anything. */
  ghost function CreateSteps(db: Db, r: nat, u: nat, v: nat, product: Option<nat>): seq<Action> {
    var a, b := if u < v then u else v, if u < v then v else u;
    [CreateCheck(r, u, v, product)]
    + [CreateFind(r, if PairTaken(db, a, b) then Some(ChatRequests.PairOf(db, a, b)) else None)]
    + [CreateAttach(r), CreateInsert(r)]
  }

  lemma RunOne(s: State, a: Action)
    ensures Run(s, [a]) == Next(s, a)
  {
    assert [a][1..] == [];
  }

  /** After its check a create request holds the ordered pair, or nothing when it was refused. */
  lemma CheckedCreate(s: State, r: nat, u: nat, v: nat, product: Option<nat>)
    requires r !in s.flights
    ensures var t := CheckCreate(s, r, u, v, product);
            t == if u != v && v in s.db.users && !Blocked(s.db, u, v) && ProductProblem(s.db, product, u, v).None?
                 then s.(flights := s.flights[r := if u < v then CreateChecked(u, u, v, product)
                                                   else CreateChecked(u, v, u, product)])
                 else s
  {
  }

  /** Finding the pair and then writing is attaching, inserting or nothing. */
  lemma FoundCreate(s: State, r: nat, u: nat, a: nat, b: nat, product: Option<nat>, found: Option<nat>)
    requires r in s.flights && s.flights[r] == CreateChecked(u, a, b, product) && a < b
    requires if found.Some? then found.value in s.db.conversations && HasPair(s.db.conversations[found.value], a, b)
             else !PairTaken(s.db, a, b)
    ensures InsertPair(Attach(FindPair(s, r, found), r), r).db
         == if found.None? then InsertConversation(s.db, a, b, product)
            else if product.Some? && s.db.conversations[found.value].product.None?
            then SetProduct(s.db, found.value, product.value) else s.db
  {
  }

  lemma RefusedCreate(s: State, r: nat, found: Option<nat>)
    requires r !in s.flights
    ensures InsertPair(Attach(FindPair(s, r, found), r), r) == s
  {
  }

  lemma CreateAlone(s: State, r: nat, u: nat, v: nat, product: Option<nat>)
    requires r !in s.flights
    ensures Run(s, CreateSteps(s.db, r, u, v, product)).db == ChatRequests.GetOrCreate(s.db, u, v, product).0
  {
    var a, b := if u < v then u else v, if u < v then v else u;
    var found := if PairTaken(s.db, a, b) then Some(ChatRequests.PairOf(s.db, a, b)) else None;
    var checked := CheckCreate(s, r, u, v, product);
    RunCreate(s, r, u, v, product, found);
    CheckedCreate(s, r, u, v, product);
    if checked == s {
      RefusedCreate(s, r, found);
    } else {
      FoundCreate(checked, r, u, a, b, product, found);
    }
  }

  lemma RunCreate(s: State, r: nat, u: nat, v: nat, product: Option<nat>, found: Option<nat>)
    ensures Run(s, [CreateCheck(r, u, v, product)] + [CreateFind(r, found)] + [CreateAttach(r), CreateInsert(r)])
         == InsertPair(Attach(FindPair(CheckCreate(s, r, u, v, product), r, found), r), r)
  {
    var check, find := [CreateCheck(r, u, v, product)], [CreateFind(r, found)];
    var write := [CreateAttach(r), CreateInsert(r)];
    var checked := CheckCreate(s, r, u, v, product);
    ChatOverlaps.RunAppend(s, check + find, write);
    ChatOverlaps.RunAppend(s, check, find);
    RunOne(s, check[0]);
    RunOne(checked, find[0]);
    ChatOverlaps.RunTwo(FindPair(checked, r, found), write);
  }

  /** A send over a socket: check, insert, record. */
  function SendSteps(r: nat, sock: nat, c: nat, text: string): seq<Action> {
    [SendCheck(r, sock, c)] + [SendInsert(r, text), SendLast(r)]
  }

  lemma SendAlone(s: State, r: nat, sock: nat, c: nat, text: string)
    requires r !in s.flights && sock in s.auth
    ensures Run(s, SendSteps(r, sock, c, text)).db == ChatRequests.SendMessage(s.db, s.auth[sock], c, text).0
  {
    var checked := CheckSocket(s, r, sock, c, SendChecked(sock, c));
    ChatOverlaps.RunAppend(s, [SendCheck(r, sock, c)], [SendInsert(r, text), SendLast(r)]);
    RunOne(s, SendCheck(r, sock, c));
    ChatOverlaps.RunTwo(checked, [SendInsert(r, text), SendLast(r)]);
    assert Run(s, SendSteps(r, sock, c, text)) == StoreLast(StoreMessage(checked, r, text), r);
  }

  /** A read mark over a socket: check, mark. */
  function ReadSteps(r: nat, sock: nat, m: nat): seq<Action> {
    [ReadCheck(r, sock, m), ReadMark(r)]
  }

  lemma RunRead(s: State, r: nat, sock: nat, m: nat)
    ensures Run(s, ReadSteps(r, sock, m)) == MarkRead(CheckRead(s, r, sock, m), r)
  {
    ChatOverlaps.RunTwo(s, ReadSteps(r, sock, m));
    assert Next(s, ReadCheck(r, sock, m)) == CheckRead(s, r, sock, m);
  }

  /** The check lets a read mark through exactly when the whole request would make it. */
  lemma CheckedRead(s: State, r: nat, sock: nat, m: nat)
    requires r !in s.flights && sock in s.auth
    ensures CheckRead(s, r, sock, m)
         == if ChatRequests.MarkRead(s.db, s.auth[sock], m).1.Done?
            then s.(flights := s.flights[r := ReadChecked(sock, m)]) else s
  {
  }

  lemma ReadAlone(s: State, r: nat, sock: nat, m: nat)
    requires r !in s.flights && sock in s.auth
    ensures Run(s, ReadSteps(r, sock, m)).db == ChatRequests.MarkRead(s.db, s.auth[sock], m).0
  {
    RunRead(s, r, sock, m);
    CheckedRead(s, r, sock, m);
  }

  // ----- Every sequential run -----

  /** The step of a request that is one statement. */
  function Single(q: ChatRequests.Request): Action
    requires !q.Create? && !q.Send? && !q.Read?
  {
    match q
    case Block(u, v) => Block(u, v)
    case Unblock(u, v) => Unblock(u, v)
    case Tick(elapsed) => Tick(elapsed)
    case AddUser(u) => AddUser(u)
    case DropUser(u) => DropUser(u)
    case PutProduct(p, row) => PutProduct(p, row)
  }

  lemma SingleAlone(s: State, q: ChatRequests.Request)
    requires !q.Create? && !q.Send? && !q.Read?
    ensures Run(s, [Single(q)]).db == ChatRequests.Apply(s.db, q)
  {
    RunOne(s, Single(q));
  }

  /** The block of steps is the request run alone: under an id nobody uses, and over a socket of the user, connected
      for the purpose if need be. */
  ghost predicate IsAlone(s: State, q: ChatRequests.Request, block: seq<Action>) {
    match q
    case Create(u, v, product) => exists r :: r !in s.flights && block == CreateSteps(s.db, r, u, v, product)
    case Send(u, c, text) =>
      exists r, connect, sock ::
        r !in s.flights && Connects(s, u, connect, sock) && block == connect + SendSteps(r, sock, c, text)
    case Read(u, m) =>
      exists r, connect, sock ::
        r !in s.flights && Connects(s, u, connect, sock) && block == connect + ReadSteps(r, sock, m)
    case _ => block == [Single(q)]
  }

  /** The socket is the user's already, or it is connected first. */
  predicate Connects(s: State, u: nat, connect: seq<Action>, sock: nat) {
    || (connect == [] && sock in s.auth && s.auth[sock] == u)
    || (connect == [Connect(sock, u)] && sock !in s.auth)
  }

  /** The blocks are the requests one after another, none of them overlapping with another. */
  ghost predicate IsSerial(s: State, requests: seq<ChatRequests.Request>, blocks: seq<seq<Action>>)
    decreases |requests|
  {
    && |blocks| == |requests|
    && (requests != [] ==>
          IsAlone(s, requests[0], blocks[0]) && IsSerial(Run(s, blocks[0]), requests[1..], blocks[1..]))
  }

  function Joined(blocks: seq<seq<Action>>): seq<Action> {
    if blocks == [] then [] else blocks[0] + Joined(blocks[1..])
  }

  lemma ConnectFirst(s: State, u: nat, connect: seq<Action>, sock: nat)
    requires Connects(s, u, connect, sock)
    ensures var t := Run(s, connect);
            t.db == s.db && t.flights == s.flights && sock in t.auth && t.auth[sock] == u
  {
    if connect != [] { RunOne(s, connect[0]); }
  }

  lemma SendConnected(s: State, u: nat, r: nat, connect: seq<Action>, sock: nat, c: nat, text: string)
    requires r !in s.flights && Connects(s, u, connect, sock)
    ensures Run(s, connect + SendSteps(r, sock, c, text)).db == ChatRequests.SendMessage(s.db, u, c, text).0
  {
    ConnectFirst(s, u, connect, sock);
    SendAlone(Run(s, connect), r, sock, c, text);
    ChatOverlaps.RunAppend(s, connect, SendSteps(r, sock, c, text));
  }

  lemma ReadConnected(s: State, u: nat, r: nat, connect: seq<Action>, sock: nat, m: nat)
    requires r !in s.flights && Connects(s, u, connect, sock)
    ensures Run(s, connect + ReadSteps(r, sock, m)).db == ChatRequests.MarkRead(s.db, u, m).0
  {
    ConnectFirst(s, u, connect, sock);
    ReadAlone(Run(s, connect), r, sock, m);
    ChatOverlaps.RunAppend(s, connect, ReadSteps(r, sock, m));
  }

  /** A request run alone, from any state, does to the tables what the request does. */
  lemma RequestAlone(s: State, q: ChatRequests.Request, block: seq<Action>)
    requires IsAlone(s, q, block)
    ensures Run(s, block).db == ChatRequests.Apply(s.db, q)
  {
    match q
    case Create(u, v, product) =>
      var r :| r !in s.flights && block == CreateSteps(s.db, r, u, v, product);
      CreateAlone(s, r, u, v, product);
    case Send(u, c, text) =>
      var r, connect, sock :|
        r !in s.flights && Connects(s, u, connect, sock) && block == connect + SendSteps(r, sock, c, text);
      SendConnected(s, u, r, connect, sock, c, text);
    case Read(u, m) =>
      var r, connect, sock :|
        r !in s.flights && Connects(s, u, connect, sock) && block == connect + ReadSteps(r, sock, m);
      ReadConnected(s, u, r, connect, sock, m);
    case _ => SingleAlone(s, q);
  }

  lemma AloneExists(s: State, q: ChatRequests.Request) returns (block: seq<Action>)
    ensures IsAlone(s, q, block)
  {
    var r := UnusedId(s.flights.Keys);
    var sock := UnusedId(s.auth.Keys);
    match q
    case Create(u, v, product) => block := CreateSteps(s.db, r, u, v, product);
    case Send(u, c, text) =>
      assert Connects(s, u, [Connect(sock, u)], sock);
      block := [Connect(sock, u)] + SendSteps(r, sock, c, text);
    case Read(u, m) =>
      assert Connects(s, u, [Connect(sock, u)], sock);
      block := [Connect(sock, u)] + ReadSteps(r, sock, m);
    case _ => block := [Single(q)];
  }

  /** Requests that do not overlap do to the tables what the sequential run does, under whatever ids and sockets. */
  lemma {:induction false} SerialIsSequential(s: State, requests: seq<ChatRequests.Request>, blocks: seq<seq<Action>>)
    requires IsSerial(s, requests, blocks)
    ensures Run(s, Joined(blocks)).db == ChatRequests.Run(s.db, requests)
    decreases |requests|
  {
    if requests != [] {
      RequestAlone(s, requests[0], blocks[0]);
      SerialIsSequential(Run(s, blocks[0]), requests[1..], blocks[1..]);
      ChatOverlaps.RunAppend(s, blocks[0], Joined(blocks[1..]));
    }
  }

  lemma {:induction false} SerialExists(s: State, requests: seq<ChatRequests.Request>)
    returns (blocks: seq<seq<Action>>)
    ensures IsSerial(s, requests, blocks)
    decreases |requests|
  {
    if requests == [] {
      blocks := [];
    } else {
      var first := AloneExists(s, requests[0]);
      var rest := SerialExists(Run(s, first), requests[1..]);
      blocks := [first] + rest;
      assert blocks[1..] == rest;
    }
  }

  /** Every sequential run is an interleaved run of its requests that do not overlap, with the same tables. */
  lemma SequentialRunsAreInterleaved(requests: seq<ChatRequests.Request>)
    ensures exists blocks ::
              && IsSerial(INIT, requests, blocks)
              && Run(INIT, Joined(blocks)).db == ChatRequests.Run(EMPTY_DB, requests)
  {
    var blocks := SerialExists(INIT, requests);
    SerialIsSequential(INIT, requests, blocks);
  }
}
