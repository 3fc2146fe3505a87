/**
 Blocks and overlapping requests: which requests get through a block that comes after their check, and exactly when one
 of them still changes the conversation.
 */
module ChatBlocks {
  import opened Common
  import opened ChatTables
  import opened ChatRooms
  import ChatOverlaps
  import ChatRequests

  /** A request that passed its check before the block and can still change the conversation of x and y. */
  ghost predicate CanTouch(s: State, r: nat, x: nat, y: nat) {
    r in s.flights &&
    match s.flights[r]
    case SendChecked(_, c) => ChatRequests.Between(s.db, c, x, y)
    case SendStored(_, c, _) => ChatRequests.Between(s.db, c, x, y)
    case ReadChecked(_, m) => m in s.db.messages && ChatRequests.Between(s.db, s.db.messages[m].conversation, x, y)
    case CreateChecked(_, a, b, _) => {a, b} == {x, y}
    case CreateMissing(_, a, b, _) => {a, b} == {x, y}
    case CreateAttaching(_, c, _) => ChatRequests.Between(s.db, c, x, y)
    case _ => false
  }

  /** The request on whose behalf a step writes to conversations or messages. */
  function Writer(a: Action): Option<nat> {
    match a
    case SendInsert(r, _) => Some(r)
    case SendLast(r) => Some(r)
    case ReadMark(r) => Some(r)
    case CreateAttach(r) => Some(r)
    case CreateInsert(r) => Some(r)
    case _ => None
  }

  lemma BetweenStays(s: State, t: State, c: nat, x: nat, y: nat)
    requires Extends(s, t) && c in s.db.conversations
    ensures ChatRequests.Between(t.db, c, x, y) <==> ChatRequests.Between(s.db, c, x, y)
  {
  }

  /** Where a flight that a step started or moved on comes from. */
  ghost predicate ComesFrom(s: State, r: nat, f: Flight) {
    match f
    case SendChecked(sock, c) => sock in s.auth && Assert(s.db, c, s.auth[sock]).None?
    case SendStored(sock, c, _) => r in s.flights && s.flights[r] == SendChecked(sock, c)
    case ReadChecked(sock, m) =>
      sock in s.auth && m in s.db.messages && Assert(s.db, s.db.messages[m].conversation, s.auth[sock]).None?
    case CreateChecked(_, a, b, _) => !Blocked(s.db, a, b)
    case CreateMissing(_, a, b, _) =>
      r in s.flights && s.flights[r].CreateChecked? && s.flights[r].a == a && s.flights[r].b == b
      && !PairTaken(s.db, a, b)
    case CreateAttaching(_, c, _) =>
      r in s.flights && s.flights[r].CreateChecked? && s.flights[r].product.Some? && c in s.db.conversations
      && HasPair(s.db.conversations[c], s.flights[r].a, s.flights[r].b) && s.db.conversations[c].product.None?
    case _ => true
  }

  ghost predicate FlightsComeFrom(s: State, t: State) {
    forall r :: r in t.flights && !(r in s.flights && s.flights[r] == t.flights[r]) ==> ComesFrom(s, r, t.flights[r])
  }

  lemma SocketFlightsComeFrom(s: State, a: Action)
    requires a.JoinCheck? || a.JoinRoom? || a.EmitRoom? || a.SendCheck? || a.ReadCheck? || a.RestJoin? || a.RestEmit?
    ensures FlightsComeFrom(s, Next(s, a))
  {
  }

  lemma CreateFlightsComeFrom(s: State, a: Action)
    requires a.CreateCheck? || a.CreateFind? || a.CreateAttach? || a.CreateInsert? || a.CreateLoad?
    ensures FlightsComeFrom(s, Next(s, a))
  {
  }

  lemma StepFlightsComeFrom(s: State, a: Action)
    ensures FlightsComeFrom(s, Next(s, a))
  {
    if a.CreateCheck? || a.CreateFind? || a.CreateAttach? || a.CreateInsert? || a.CreateLoad? {
      CreateFlightsComeFrom(s, a);
    } else if a.JoinCheck? || a.JoinRoom? || a.EmitRoom? || a.SendCheck? || a.ReadCheck? || a.RestJoin? || a.RestEmit? {
      SocketFlightsComeFrom(s, a);
    }
  }

  /** While the block stands, no request newly comes to be able to change the conversation. */
  lemma NobodyNewCanTouch(s: State, a: Action, r: nat, x: nat, y: nat)
    requires Invariant(s) && Blocked(s.db, x, y) && CanTouch(Next(s, a), r, x, y)
    ensures CanTouch(s, r, x, y)
  {
    var t := Next(s, a);
    StepKeeps(s, a);
    if r in s.flights && s.flights[r] == t.flights[r] {
      KeptTouch(s, t, r, x, y);
    } else {
      StepFlightsComeFrom(s, a);
      NewTouch(s, t, r, x, y);
    }
  }

  lemma KeptTouch(s: State, t: State, r: nat, x: nat, y: nat)
    requires Invariant(s) && Extends(s, t) && r in s.flights && r in t.flights && s.flights[r] == t.flights[r]
    requires CanTouch(t, r, x, y)
    ensures CanTouch(s, r, x, y)
  {
    var f := s.flights[r];
    assert FlightOk(s, f);
    if f.SendChecked? || f.SendStored? || f.CreateAttaching? {
      BetweenStays(s, t, f.c, x, y);
    } else if f.ReadChecked? {
      assert t.db.messages[f.m].(readAt := None) == s.db.messages[f.m].(readAt := None);
      BetweenStays(s, t, s.db.messages[f.m].conversation, x, y);
    }
  }

  lemma CheckRefusesBlocked(db: Db, c: nat, u: nat, x: nat, y: nat)
    requires Blocked(db, x, y) && Assert(db, c, u).None?
    ensures !ChatRequests.Between(db, c, x, y)
  {
  }

  /** A check that lets a request through is about another conversation. */
  lemma CheckedElsewhere(s: State, t: State, r: nat, x: nat, y: nat)
    requires Extends(s, t) && Blocked(s.db, x, y) && r in t.flights && ComesFrom(s, r, t.flights[r])
    ensures t.flights[r].SendChecked? || t.flights[r].ReadChecked? || t.flights[r].CreateChecked? ==>
            !CanTouch(t, r, x, y)
  {
    match t.flights[r]
    case SendChecked(sock, c) =>
      CheckRefusesBlocked(s.db, c, s.auth[sock], x, y);
      BetweenStays(s, t, c, x, y);
    case ReadChecked(sock, m) =>
      CheckRefusesBlocked(s.db, s.db.messages[m].conversation, s.auth[sock], x, y);
      assert t.db.messages[m].(readAt := None) == s.db.messages[m].(readAt := None);
      BetweenStays(s, t, s.db.messages[m].conversation, x, y);
    case _ =>
  }

  lemma NewTouch(s: State, t: State, r: nat, x: nat, y: nat)
    requires Invariant(s) && Extends(s, t) && Blocked(s.db, x, y)
    requires r in t.flights && ComesFrom(s, r, t.flights[r]) && CanTouch(t, r, x, y)
    ensures CanTouch(s, r, x, y)
  {
    CheckedElsewhere(s, t, r, x, y);
    var f := t.flights[r];
    if f.SendStored? || f.CreateAttaching? {
      assert FlightOk(s, s.flights[r]);
      BetweenStays(s, t, f.c, x, y);
    }
  }

  lemma ReadersTouchNothing(s: State, a: Action)
    requires Writer(a).None?
    ensures Next(s, a).db.conversations == s.db.conversations && Next(s, a).db.messages == s.db.messages
  {
  }

  lemma SendTouchesOwn(s: State, a: Action, x: nat, y: nat)
    requires Invariant(s) && (a.SendInsert? || a.SendLast?) && !CanTouch(s, a.r, x, y)
    ensures ChatRequests.SameBetween(s.db, Next(s, a).db, x, y)
  {
    var t := Next(s, a);
    if t != s {
      assert FlightOk(s, s.flights[a.r]);
      if a.SendLast? {
        ChatRequests.OtherConversation(s.db, t.db, s.flights[a.r].c, x, y);
      }
    }
  }

  lemma ReadTouchesOwn(s: State, a: Action, x: nat, y: nat)
    requires Invariant(s) && a.ReadMark? && !CanTouch(s, a.r, x, y)
    ensures ChatRequests.SameBetween(s.db, Next(s, a).db, x, y)
  {
    if a.r in s.flights && s.flights[a.r].ReadChecked? && s.flights[a.r].m in s.db.messages {
      MarkTouchesOwn(s.db, s.flights[a.r].m, x, y);
    }
  }

  lemma MarkTouchesOwn(db: Db, m: nat, x: nat, y: nat)
    requires m in db.messages && !ChatRequests.Between(db, db.messages[m].conversation, x, y)
    ensures ChatRequests.SameBetween(db, SetRead(db, m), x, y)
  {
  }

  lemma CreateTouchesOwn(s: State, a: Action, x: nat, y: nat)
    requires Invariant(s) && (a.CreateAttach? || a.CreateInsert?) && !CanTouch(s, a.r, x, y)
    ensures ChatRequests.SameBetween(s.db, Next(s, a).db, x, y)
  {
    var t := Next(s, a);
    if t.db != s.db {
      assert FlightOk(s, s.flights[a.r]);
      var c := if a.CreateAttach? then s.flights[a.r].c else s.db.nextConversation;
      ChatRequests.OtherConversation(s.db, t.db, c, x, y);
    } else {
      ChatRequests.SameConversationsFrozen(s.db, t.db, x, y);
    }
  }

  /** A step of a request that cannot touch the conversation leaves it alone. */
  lemma TouchesOwn(s: State, a: Action, x: nat, y: nat)
    requires Invariant(s) && (Writer(a).Some? ==> !CanTouch(s, Writer(a).value, x, y))
    ensures ChatRequests.SameBetween(s.db, Next(s, a).db, x, y)
  {
    if Writer(a).None? {
      ReadersTouchNothing(s, a);
      ChatRequests.SameConversationsFrozen(s.db, Next(s, a).db, x, y);
    } else if a.SendInsert? || a.SendLast? {
      SendTouchesOwn(s, a, x, y);
    } else if a.ReadMark? {
      ReadTouchesOwn(s, a, x, y);
    } else {
      CreateTouchesOwn(s, a, x, y);
    }
  }

  ghost predicate BlockedAlong(s: State, actions: seq<Action>, x: nat, y: nat)
    decreases |actions|
  {
    Blocked(s.db, x, y) && (actions != [] ==> BlockedAlong(Next(s, actions[0]), actions[1..], x, y))
  }

  /** While a block between two users stands, whatever overlaps, every step that changes their conversation belongs to a
      request that had passed its check when the block came. */
  lemma {:induction false} EachChangeWasChecked(s: State, actions: seq<Action>, i: nat, x: nat, y: nat)
    requires Invariant(s) && BlockedAlong(s, actions, x, y) && i < |actions|
    ensures var before := Run(s, actions[..i]);
            !ChatRequests.SameBetween(before.db, Next(before, actions[i]).db, x, y) ==>
              Writer(actions[i]).Some? && CanTouch(s, Writer(actions[i]).value, x, y)
    decreases |actions|
  {
    if i == 0 {
      if Writer(actions[0]).None? || !CanTouch(s, Writer(actions[0]).value, x, y) {
        TouchesOwn(s, actions[0], x, y);
      }
    } else {
      var t, rest := Next(s, actions[0]), actions[1..];
      assert actions[..i][1..] == rest[..i - 1] && rest[i - 1] == actions[i];
      StepKeeps(s, actions[0]);
      EachChangeWasChecked(t, rest, i - 1, x, y);
      if Writer(actions[i]).Some? && CanTouch(t, Writer(actions[i]).value, x, y) {
        NobodyNewCanTouch(s, actions[0], Writer(actions[i]).value, x, y);
      }
    }
  }

  /** So without steps of those requests the conversation is frozen. */
  lemma {:induction false} BlockStopsNewRequests(s: State, actions: seq<Action>, x: nat, y: nat)
    requires Invariant(s) && BlockedAlong(s, actions, x, y)
    requires forall i :: 0 <= i < |actions| && Writer(actions[i]).Some? ==> !CanTouch(s, Writer(actions[i]).value, x, y)
    ensures ChatRequests.SameBetween(s.db, Run(s, actions).db, x, y)
    decreases |actions|
  {
    if actions != [] {
      var t := Next(s, actions[0]);
      StepKeeps(s, actions[0]);
      TouchesOwn(s, actions[0], x, y);
      forall i | 0 <= i < |actions[1..]| && Writer(actions[1..][i]).Some?
        ensures !CanTouch(t, Writer(actions[1..][i]).value, x, y)
      {
        assert actions[1..][i] == actions[i + 1];
        if CanTouch(t, Writer(actions[i + 1]).value, x, y) {
          NobodyNewCanTouch(s, actions[0], Writer(actions[i + 1]).value, x, y);
        }
      }
      BlockStopsNewRequests(t, actions[1..], x, y);
      ChatRequests.SameBetweenTransitive(s.db, t.db, Run(s, actions).db, x, y);
    }
  }

  // ----- Exactly when a change is still to come -----

  /** This request, if it goes on now, changes the conversation of x and y: it would store, record, mark, attach or
      insert something that is not there yet. */
  ghost predicate CanChange(s: State, r: nat, x: nat, y: nat) {
    CanTouch(s, r, x, y) &&
    match s.flights[r]
    case SendStored(_, c, m) => s.db.conversations[c].last != Some(m)
    case ReadChecked(_, m) => s.db.messages[m].readAt.None?
    case CreateChecked(_, a, b, product) =>
      !PairTaken(s.db, a, b) || (product.Some? && exists c :: IsOpen(s.db, c, a, b))
    case CreateMissing(_, a, b, _) => !PairTaken(s.db, a, b)
    case CreateAttaching(_, c, p) => s.db.conversations[c].product != Some(p)
    case _ => true
  }

  /** The pair's conversation, without a product. */
  predicate IsOpen(db: Db, c: nat, a: nat, b: nat) {
    c in db.conversations && HasPair(db.conversations[c], a, b) && db.conversations[c].product.None?
  }

  /** The step of a request that would change nothing leaves all conversations and messages as they are. */
  lemma IdleWrite(s: State, a: Action, x: nat, y: nat)
    requires Invariant(s) && Writer(a).Some?
    requires CanTouch(s, Writer(a).value, x, y) && !CanChange(s, Writer(a).value, x, y)
    ensures Next(s, a).db.conversations == s.db.conversations && Next(s, a).db.messages == s.db.messages
  {
    var f := s.flights[Writer(a).value];
    assert FlightOk(s, f);
    if f.SendStored? {
      assert s.db.conversations[f.c].(last := Some(f.m)) == s.db.conversations[f.c];
    } else if f.ReadChecked? {
      assert s.db.messages[f.m].(readAt := s.db.messages[f.m].readAt) == s.db.messages[f.m];
    } else if f.CreateAttaching? {
      assert s.db.conversations[f.c].(product := Some(f.newProduct)) == s.db.conversations[f.c];
    }
  }

  lemma NoChangeStep(s: State, a: Action, x: nat, y: nat)
    requires Invariant(s) && (Writer(a).Some? ==> !CanChange(s, Writer(a).value, x, y))
    ensures ChatRequests.SameBetween(s.db, Next(s, a).db, x, y)
  {
    if Writer(a).Some? && CanTouch(s, Writer(a).value, x, y) {
      IdleWrite(s, a, x, y);
      ChatRequests.SameConversationsFrozen(s.db, Next(s, a).db, x, y);
    } else {
      TouchesOwn(s, a, x, y);
    }
  }

  /** What can change the conversation after a step that left it alone could do so before. */
  lemma NobodyNewCanChange(s: State, a: Action, r: nat, x: nat, y: nat)
    requires Invariant(s) && Blocked(s.db, x, y) && CanChange(Next(s, a), r, x, y)
    requires ChatRequests.SameBetween(s.db, Next(s, a).db, x, y)
    ensures CanChange(s, r, x, y)
  {
    var t := Next(s, a);
    StepKeeps(s, a);
    NobodyNewCanTouch(s, a, r, x, y);
    if s.flights[r] == t.flights[r] {
      KeptChange(s, t, r, x, y);
    } else {
      StepFlightsComeFrom(s, a);
      NewChange(s, t, r, x, y);
    }
  }

  lemma KeptChange(s: State, t: State, r: nat, x: nat, y: nat)
    requires Invariant(s) && Invariant(t) && Extends(s, t) && r in t.flights && CanTouch(s, r, x, y)
    requires s.flights[r] == t.flights[r] && ChatRequests.SameBetween(s.db, t.db, x, y) && CanChange(t, r, x, y)
    ensures CanChange(s, r, x, y)
  {
    var f := s.flights[r];
    assert FlightOk(s, f);
    match f
    case SendStored(_, c, _) => assert ChatRequests.Between(s.db, c, x, y);
    case ReadChecked(_, m) => assert ChatRequests.InConversation(s.db, m, s.db.messages[m].conversation);
    case CreateAttaching(_, c, _) => assert ChatRequests.Between(s.db, c, x, y);
    case CreateChecked(_, a, b, _) => SamePair(s, t, a, b, x, y);
    case CreateMissing(_, a, b, _) => SamePair(s, t, a, b, x, y);
    case _ =>
  }

  lemma SamePair(s: State, t: State, a: nat, b: nat, x: nat, y: nat)
    requires a < b && {a, b} == {x, y} && ChatRequests.SameBetween(s.db, t.db, x, y)
    ensures PairTaken(s.db, a, b) <==> PairTaken(t.db, a, b)
    ensures forall c :: IsOpen(t.db, c, a, b) <==> IsOpen(s.db, c, a, b)
  {
    forall c | c in t.db.conversations && HasPair(t.db.conversations[c], a, b)
      ensures c in s.db.conversations && s.db.conversations[c] == t.db.conversations[c]
    {
      assert ChatRequests.Between(t.db, c, x, y);
    }
    forall c | c in s.db.conversations && HasPair(s.db.conversations[c], a, b)
      ensures c in t.db.conversations && s.db.conversations[c] == t.db.conversations[c]
    {
      assert ChatRequests.Between(s.db, c, x, y);
    }
  }

  lemma NewChange(s: State, t: State, r: nat, x: nat, y: nat)
    requires Extends(s, t) && Blocked(s.db, x, y) && CanTouch(s, r, x, y)
    requires r in t.flights && s.flights[r] != t.flights[r] && ComesFrom(s, r, t.flights[r]) && CanTouch(t, r, x, y)
    ensures CanChange(s, r, x, y)
  {
    CheckedElsewhere(s, t, r, x, y);
    if t.flights[r].CreateAttaching? {
      assert IsOpen(s.db, t.flights[r].c, s.flights[r].a, s.flights[r].b);
    }
  }

  lemma {:induction false} NothingLeftToChange(s: State, actions: seq<Action>, x: nat, y: nat)
    requires Invariant(s) && BlockedAlong(s, actions, x, y) && forall r :: !CanChange(s, r, x, y)
    ensures ChatRequests.SameBetween(s.db, Run(s, actions).db, x, y)
    decreases |actions|
  {
    if actions != [] {
      var t := Next(s, actions[0]);
      StepKeeps(s, actions[0]);
      NoChangeStep(s, actions[0], x, y);
      forall r ensures !CanChange(t, r, x, y) {
        if CanChange(t, r, x, y) { NobodyNewCanChange(s, actions[0], r, x, y); }
      }
      NothingLeftToChange(t, actions[1..], x, y);
      ChatRequests.SameBetweenTransitive(s.db, t.db, Run(s, actions).db, x, y);
    }
  }

  /** Its next steps, alone, make the change. */
  ghost function Finishing(s: State, r: nat): seq<Action>
    requires r in s.flights
  {
    match s.flights[r]
    case SendChecked(_, _) => [SendInsert(r, "a")]
    case SendStored(_, _, _) => [SendLast(r)]
    case ReadChecked(_, _) => [ReadMark(r)]
    case CreateChecked(_, a, b, _) =>
      if PairTaken(s.db, a, b) then [CreateFind(r, Some(ChatRequests.PairOf(s.db, a, b))), CreateAttach(r)]
      else [CreateFind(r, None), CreateInsert(r)]
    case CreateMissing(_, _, _, _) => [CreateInsert(r)]
    case _ => [CreateAttach(r)]
  }

  lemma OneStep(s: State, a: Action, x: nat, y: nat)
    requires Blocked(s.db, x, y) && Writer(a).Some?
    ensures BlockedAlong(s, [a], x, y) && Run(s, [a]) == Next(s, a)
  {
    assert [a][1..] == [];
    assert Next(s, a).db.blocks == s.db.blocks;
  }

  lemma SendChanges(s: State, r: nat, x: nat, y: nat)
    requires Invariant(s) && CanChange(s, r, x, y) && s.flights[r].SendChecked?
    ensures !ChatRequests.SameBetween(s.db, Next(s, SendInsert(r, "a")).db, x, y)
  {
    assert Next(s, SendInsert(r, "a")) == StoreMessage(s, r, "a");
    assert FlightOk(s, s.flights[r]);
    assert "a"[0] != ' ';
    assert ChatRequests.InConversation(StoreMessage(s, r, "a").db, s.db.nextMessage, s.flights[r].c);
    assert ChatRequests.Between(s.db, s.flights[r].c, x, y);
  }

  lemma RecordChanges(s: State, r: nat, x: nat, y: nat)
    requires Invariant(s) && CanChange(s, r, x, y) && s.flights[r].SendStored?
    ensures !ChatRequests.SameBetween(s.db, Next(s, SendLast(r)).db, x, y)
  {
    assert Next(s, SendLast(r)) == StoreLast(s, r);
    var c := s.flights[r].c;
    assert StoreLast(s, r).db.conversations[c].last == Some(s.flights[r].m);
    assert ChatRequests.Between(s.db, c, x, y);
  }

  lemma MarkChanges(s: State, r: nat, x: nat, y: nat)
    requires Invariant(s) && CanChange(s, r, x, y) && s.flights[r].ReadChecked?
    ensures !ChatRequests.SameBetween(s.db, Next(s, ReadMark(r)).db, x, y)
  {
    assert Next(s, ReadMark(r)) == MarkRead(s, r);
    var m := s.flights[r].m;
    assert MarkRead(s, r).db.messages[m].readAt.Some?;
    assert ChatRequests.InConversation(s.db, m, s.db.messages[m].conversation);
  }

  lemma AttachChanges(s: State, r: nat, x: nat, y: nat)
    requires Invariant(s) && CanChange(s, r, x, y) && s.flights[r].CreateAttaching?
    ensures !ChatRequests.SameBetween(s.db, Next(s, CreateAttach(r)).db, x, y)
  {
    assert Next(s, CreateAttach(r)) == Attach(s, r);
    var c := s.flights[r].c;
    assert FlightOk(s, s.flights[r]);
    assert Attach(s, r).db.conversations[c].product == Some(s.flights[r].newProduct);
    assert ChatRequests.Between(s.db, c, x, y);
  }

  lemma InsertChanges(s: State, r: nat, x: nat, y: nat)
    requires Invariant(s) && CanChange(s, r, x, y) && s.flights[r].CreateMissing?
    ensures !ChatRequests.SameBetween(s.db, Next(s, CreateInsert(r)).db, x, y)
  {
    assert Next(s, CreateInsert(r)) == InsertPair(s, r);
    assert FlightOk(s, s.flights[r]);
    assert s.db.nextConversation !in s.db.conversations;
    assert ChatRequests.Between(InsertPair(s, r).db, s.db.nextConversation, x, y);
  }

  /** A create request that finds what it found now goes on to attach or to insert. */
  lemma FindNow(s: State, r: nat, x: nat, y: nat)
    requires Invariant(s) && CanChange(s, r, x, y) && s.flights[r].CreateChecked?
    ensures var f := s.flights[r];
            Next(s, Finishing(s, r)[0])
            == s.(flights := s.flights[r := if PairTaken(s.db, f.a, f.b)
                                            then CreateAttaching(f.user, ChatRequests.PairOf(s.db, f.a, f.b),
                                                                 f.product.GetOr(0))
                                            else CreateMissing(f.user, f.a, f.b, f.product)])
    ensures PairTaken(s.db, s.flights[r].a, s.flights[r].b) ==>
              && s.flights[r].product.Some?
              && IsOpen(s.db, ChatRequests.PairOf(s.db, s.flights[r].a, s.flights[r].b), s.flights[r].a, s.flights[r].b)
  {
    var f := s.flights[r];
    assert FlightOk(s, f);
    if PairTaken(s.db, f.a, f.b) {
      OnlyOpen(s.db, ChatRequests.PairOf(s.db, f.a, f.b), f.a, f.b);
    }
  }

  lemma FoundCanChange(s: State, t: State, r: nat, x: nat, y: nat)
    requires Invariant(s) && CanChange(s, r, x, y) && s.flights[r].CreateChecked? && t.db == s.db && r in t.flights
    requires var f := s.flights[r];
             || (t.flights[r] == CreateMissing(f.user, f.a, f.b, f.product) && !PairTaken(s.db, f.a, f.b))
             || (t.flights[r].CreateAttaching? && IsOpen(s.db, t.flights[r].c, f.a, f.b))
    ensures CanChange(t, r, x, y)
  {
    assert FlightOk(s, s.flights[r]);
  }

  lemma FindThenChange(s: State, r: nat, x: nat, y: nat)
    requires Invariant(s) && Blocked(s.db, x, y) && CanChange(s, r, x, y) && s.flights[r].CreateChecked?
    ensures var after := Finishing(s, r);
            BlockedAlong(s, after, x, y) && !ChatRequests.SameBetween(s.db, Run(s, after).db, x, y)
  {
    var after := Finishing(s, r);
    var found := Next(s, after[0]);
    StepKeeps(s, after[0]);
    FindNow(s, r, x, y);
    FoundCanChange(s, found, r, x, y);
    if found.flights[r].CreateAttaching? { AttachChanges(found, r, x, y); } else { InsertChanges(found, r, x, y); }
    assert after == [after[0]] + [after[1]] && after[1..] == [after[1]];
    OneStep(found, after[1], x, y);
  }

  lemma OnlyOpen(db: Db, c: nat, a: nat, b: nat)
    requires Sound(db) && a < b && c in db.conversations && HasPair(db.conversations[c], a, b)
    requires exists d :: IsOpen(db, d, a, b)
    ensures IsOpen(db, c, a, b)
  {
    var d :| IsOpen(db, d, a, b);
    OneConversationPerPair(db, c, d, a, b);
  }

  lemma FinisherChanges(s: State, r: nat, x: nat, y: nat)
    requires Invariant(s) && Blocked(s.db, x, y) && CanChange(s, r, x, y)
    ensures var after := Finishing(s, r);
            BlockedAlong(s, after, x, y) && !ChatRequests.SameBetween(s.db, Run(s, after).db, x, y)
  {
    if s.flights[r].CreateChecked? {
      FindThenChange(s, r, x, y);
    } else {
      OneStep(s, Finishing(s, r)[0], x, y);
      match s.flights[r]
      case SendChecked(_, _) => SendChanges(s, r, x, y);
      case SendStored(_, _, _) => RecordChanges(s, r, x, y);
      case ReadChecked(_, _) => MarkChanges(s, r, x, y);
      case CreateMissing(_, _, _, _) => InsertChanges(s, r, x, y);
      case CreateAttaching(_, _, _) => AttachChanges(s, r, x, y);
    }
  }

  /** While a block stands, the conversation of the two users can still change, in some continuation, exactly when a
      request is under way that passed its check and has something left to change. */
  lemma ChangesIffUnderWay(s: State, x: nat, y: nat)
    requires Invariant(s) && Blocked(s.db, x, y)
    ensures (exists after ::
               BlockedAlong(s, after, x, y) && !ChatRequests.SameBetween(s.db, Run(s, after).db, x, y)) <==>
            (exists r :: CanChange(s, r, x, y))
  {
    if r :| CanChange(s, r, x, y) {
      FinisherChanges(s, r, x, y);
    } else {
      forall after | BlockedAlong(s, after, x, y) ensures ChatRequests.SameBetween(s.db, Run(s, after).db, x, y) {
        NothingLeftToChange(s, after, x, y);
      }
    }
  }

  /** A run from the empty tables after which a block stands and the conversation changes nevertheless: a send passed
      its check, the block came, and then the message was stored. */
  lemma BlockCanBeOvertaken()
    ensures exists actions, after ::
              var s := Run(INIT, actions);
              BlockedAlong(s, after, 1, 2) && !ChatRequests.SameBetween(s.db, Run(s, after).db, 1, 2)
  {
    var checks := ChatOverlaps.ReachTwoChecks();
    var block := [Block(1, 2)];
    assert block[1..] == [];
    ChatOverlaps.RunAppend(INIT, checks, block);
    RunKeeps(INIT, checks + block);
    BlockedNow();
    FinisherChanges(Run(INIT, checks + block), 1, 1, 2);
  }

  lemma BlockedNow()
    ensures var s := Next(ChatOverlaps.TwoChecked(), Block(1, 2)); Blocked(s.db, 1, 2) && CanChange(s, 1, 1, 2)
  {
    assert (1, 2) in AddBlock(ChatOverlaps.TwoChecked().db, 1, 2).blocks;
  }
}
