/**
 What overlapping chat requests can break, and exactly when: the recorded last message and attached products.  Every
 statement here is about all interleavings of the statements.
 */
module ChatOverlaps {
  import opened Common
  import opened ChatTables
  import opened ChatRooms
  import ChatRequests

  // ----- The recorded last message -----

  /** n is later than m: by the time it was sent, or by its id, which is the order in which messages are stored. */
  predicate IsLater(db: Db, m: nat, n: nat, byTime: bool) {
    if byTime then m in db.messages && n in db.messages && db.messages[m].sentAt < db.messages[n].sentAt else m < n
  }

  /** A message of the conversation later than the one recorded as its last. */
  ghost predicate Above(db: Db, c: nat, m: nat, byTime: bool)
    requires c in db.conversations
  {
    && ChatRequests.InConversation(db, m, c)
    && (db.conversations[c].last.None? || IsLater(db, db.conversations[c].last.value, m, byTime))
  }

  /** Later messages do not have earlier times. */
  ghost predicate TimesFollowIds(db: Db) {
    forall m, n :: m in db.messages && n in db.messages && m < n ==> db.messages[m].sentAt <= db.messages[n].sentAt
  }

  lemma NewestIffNothingAbove(db: Db, c: nat)
    requires Sound(db) && TimesFollowIds(db) && c in db.conversations
    ensures ChatRequests.LastIsNewest(db, c) <==> forall m: nat :: !Above(db, c, m, false)
  {
    var last := db.conversations[c].last;
    if last.Some? {
      assert ChatRequests.InConversation(db, last.value, c);
    }
    if forall m: nat :: !Above(db, c, m, false) {
      forall m: nat | ChatRequests.InConversation(db, m, c)
        ensures last.Some? && m <= last.value && db.messages[m].sentAt <= db.messages[last.value].sentAt
      {
        assert !Above(db, c, m, false);
      }
    }
  }

  lemma RecomputedIffNothingAbove(db: Db, c: nat)
    requires Sound(db) && c in db.conversations
    ensures ChatRequests.IsRecomputed(db, c, db.conversations[c].last) <==> forall m: nat :: !Above(db, c, m, true)
  {
    var last := db.conversations[c].last;
    if last.Some? {
      assert ChatRequests.InConversation(db, last.value, c);
    }
    forall m: nat | ChatRequests.InConversation(db, m, c)
      ensures Above(db, c, m, true) <==> last.None? || db.messages[last.value].sentAt < db.messages[m].sentAt
    {
    }
  }

  lemma SetLastNewest(db: Db, c: nat, m: nat)
    requires Sound(db) && TimesFollowIds(db) && c in db.conversations && ChatRequests.InConversation(db, m, c)
    ensures ChatRequests.LastIsNewest(SetLast(db, c, m), c) <==>
            forall n: nat :: ChatRequests.InConversation(db, n, c) ==> n <= m
  {
    var after := SetLast(db, c, m);
    SetLastKeeps(db, c, m);
    NewestIffNothingAbove(after, c);
    forall n: nat ensures Above(after, c, n, false) <==> ChatRequests.InConversation(db, n, c) && m < n {}
  }

  /** The step records a message of c as its last. */
  predicate Records(s: State, a: Action, c: nat) {
    a.SendLast? && a.r in s.flights && s.flights[a.r].SendStored? && s.flights[a.r].c == c
  }

  /** The message it records has been overtaken: a later one of the same conversation is stored already. */
  predicate Overtaken(s: State, a: Action, byTime: bool) {
    && a.SendLast? && a.r in s.flights && s.flights[a.r].SendStored?
    && exists m :: && m in s.db.messages && s.db.messages[m].conversation == s.flights[a.r].c
                   && IsLater(s.db, s.flights[a.r].m, m, byTime)
  }

  /** What a step makes of the flag that tells whether the last recording for c was overtaken. */
  function OvertakenBy(s: State, a: Action, c: nat, byTime: bool, overtaken: bool): bool {
    if Records(s, a, c) then Overtaken(s, a, byTime) else overtaken
  }

  /** Whether the last recording for c along a run recorded an overtaken message. */
  function EndsOvertaken(s: State, actions: seq<Action>, c: nat, byTime: bool, overtaken: bool): bool
    decreases |actions|
  {
    if actions == [] then overtaken
    else
      EndsOvertaken(Next(s, actions[0]), actions[1..], c, byTime, OvertakenBy(s, actions[0], c, byTime, overtaken))
  }

  /** A send to c that has stored message m and not yet recorded it. */
  predicate IsStored(s: State, r: nat, c: nat, m: nat) {
    r in s.flights && s.flights[r].SendStored? && s.flights[r].c == c && s.flights[r].m == m
  }

  ghost predicate Tracked(s: State, c: nat, byTime: bool, overtaken: bool) {
    if c !in s.db.conversations then !overtaken
    else if overtaken then exists m: nat :: Above(s.db, c, m, byTime)
    else forall m: nat :: Above(s.db, c, m, byTime) ==> exists r :: IsStored(s, r, c, m)
  }

  /** What statements other than storing and recording a message leave alone. */
  ghost predicate SameLastTables(db: Db, after: Db) {
    && (forall m: nat, c: nat :: ChatRequests.InConversation(after, m, c) <==> ChatRequests.InConversation(db, m, c))
    && (forall m :: m in db.messages ==> m in after.messages && after.messages[m].sentAt == db.messages[m].sentAt)
    && (forall c :: c in db.conversations ==>
          c in after.conversations && after.conversations[c].last == db.conversations[c].last)
    && (forall c :: c in after.conversations && c !in db.conversations ==>
          after.conversations[c].last.None? && forall m: nat :: !ChatRequests.InConversation(db, m, c))
  }

  ghost predicate SameLasts(s: State, t: State) {
    && SameLastTables(s.db, t.db)
    && (forall r :: r in s.flights && s.flights[r].SendStored? ==> r in t.flights && t.flights[r] == s.flights[r])
  }

  lemma SameLastsTracked(s: State, t: State, c: nat, byTime: bool, overtaken: bool)
    requires Sound(s.db) && SameLasts(s, t) && Tracked(s, c, byTime, overtaken)
    ensures Tracked(t, c, byTime, overtaken)
  {
    if c in s.db.conversations {
      assert forall m: nat :: Above(t.db, c, m, byTime) <==> Above(s.db, c, m, byTime);
      forall m: nat, r | Above(s.db, c, m, byTime) && IsStored(s, r, c, m) ensures IsStored(t, r, c, m) {}
    } else if c in t.db.conversations {
      assert forall m: nat :: !Above(t.db, c, m, byTime);
    }
  }

  lemma StoreTracked(s: State, r: nat, text: string, c: nat, byTime: bool, overtaken: bool)
    requires Invariant(s) && Tracked(s, c, byTime, overtaken)
    ensures Tracked(StoreMessage(s, r, text), c, byTime, overtaken)
  {
    var t := StoreMessage(s, r, text);
    if t != s && c in s.db.conversations {
      var d, id := s.flights[r].c, s.db.nextMessage;
      assert IsStored(t, r, d, id);
      forall m: nat ensures Above(t.db, c, m, byTime) ==> Above(s.db, c, m, byTime) || (m == id && c == d) {}
      forall m: nat ensures Above(s.db, c, m, byTime) ==> Above(t.db, c, m, byTime) {}
      forall m: nat, q | IsStored(s, q, c, m) ensures IsStored(t, q, c, m) {}
    }
  }

  lemma RecordTracked(s: State, a: Action, c: nat, byTime: bool, overtaken: bool)
    requires Invariant(s) && a.SendLast? && Tracked(s, c, byTime, overtaken)
    ensures Tracked(Next(s, a), c, byTime, OvertakenBy(s, a, c, byTime, overtaken))
  {
    var t := Next(s, a);
    if a.r in s.flights && s.flights[a.r].SendStored? {
      assert FlightOk(s, s.flights[a.r]);
      if s.flights[a.r].c == c {
        forall m: nat
          ensures Above(t.db, c, m, byTime) <==>
                  ChatRequests.InConversation(s.db, m, c) && IsLater(s.db, s.flights[a.r].m, m, byTime)
        {
        }
        if Overtaken(s, a, byTime) {
          var m :| && m in s.db.messages && s.db.messages[m].conversation == c
                   && IsLater(s.db, s.flights[a.r].m, m, byTime);
          assert Above(t.db, c, m, byTime);
        }
      } else if c in s.db.conversations {
        forall m: nat ensures Above(t.db, c, m, byTime) <==> Above(s.db, c, m, byTime) {}
        forall m: nat, q | IsStored(s, q, c, m) ensures IsStored(t, q, c, m) {}
      }
    }
  }

  lemma EnvironmentSameLasts(s: State, a: Action)
    requires IsEnvironment(a) || a.Connect? || a.Disconnect?
    ensures SameLasts(s, Next(s, a))
  {
    assert Next(s, a).db.messages == s.db.messages && Next(s, a).db.conversations == s.db.conversations;
  }

  lemma SocketSameLasts(s: State, a: Action)
    requires a.JoinCheck? || a.JoinRoom? || a.EmitRoom? || a.SendCheck? || a.ReadCheck? || a.RestJoin? || a.RestEmit?
    ensures SameLasts(s, Next(s, a))
  {
    assert Next(s, a).db == s.db;
  }

  lemma CreateReadSameLasts(s: State, a: Action)
    requires a.CreateCheck? || a.CreateFind? || a.CreateLoad?
    ensures SameLasts(s, Next(s, a))
  {
    assert Next(s, a).db == s.db;
  }

  lemma AttachSameLasts(s: State, r: nat)
    ensures SameLasts(s, Attach(s, r))
  {
    assert Attach(s, r).db.messages == s.db.messages;
  }

  lemma InsertSameTables(db: Db, a: nat, b: nat, product: Option<nat>)
    requires Sound(db)
    ensures SameLastTables(db, InsertConversation(db, a, b, product))
  {
    assert forall m: nat :: !ChatRequests.InConversation(db, m, db.nextConversation);
  }

  lemma InsertSameLasts(s: State, r: nat)
    requires Sound(s.db)
    ensures SameLasts(s, InsertPair(s, r))
  {
    if r in s.flights && s.flights[r].CreateMissing? {
      InsertSameTables(s.db, s.flights[r].a, s.flights[r].b, s.flights[r].product);
    }
  }

  lemma ReadSameLasts(s: State, r: nat)
    ensures SameLasts(s, MarkRead(s, r))
  {
  }

  lemma OtherSameLasts(s: State, a: Action)
    requires Sound(s.db) && !a.SendInsert? && !a.SendLast?
    ensures SameLasts(s, Next(s, a))
  {
    if a.ReadMark? {
      ReadSameLasts(s, a.r);
    } else if IsEnvironment(a) || a.Connect? || a.Disconnect? {
      EnvironmentSameLasts(s, a);
    } else if a.CreateAttach? {
      AttachSameLasts(s, a.r);
    } else if a.CreateInsert? {
      InsertSameLasts(s, a.r);
    } else if a.CreateCheck? || a.CreateFind? || a.CreateLoad? {
      CreateReadSameLasts(s, a);
    } else {
      SocketSameLasts(s, a);
    }
  }

  lemma TrackedStep(s: State, a: Action, c: nat, byTime: bool, overtaken: bool)
    requires Invariant(s) && Tracked(s, c, byTime, overtaken)
    ensures Tracked(Next(s, a), c, byTime, OvertakenBy(s, a, c, byTime, overtaken))
  {
    if a.SendInsert? {
      StoreTracked(s, a.r, a.text, c, byTime, overtaken);
    } else if a.SendLast? {
      RecordTracked(s, a, c, byTime, overtaken);
    } else {
      OtherSameLasts(s, a);
      SameLastsTracked(s, Next(s, a), c, byTime, overtaken);
    }
  }

  lemma OtherStepsAddNoMessage(s: State, a: Action)
    requires !a.SendInsert?
    ensures Next(s, a).db.messages.Keys == s.db.messages.Keys
  {
  }

  lemma KeptTime(s: State, a: Action, m: nat)
    requires Invariant(s) && m in s.db.messages
    ensures m in Next(s, a).db.messages && Next(s, a).db.messages[m].sentAt == s.db.messages[m].sentAt
  {
    StepKeeps(s, a);
    assert Next(s, a).db.messages[m].(readAt := None) == s.db.messages[m].(readAt := None);
  }

  /** A message that a step adds has the next id and the time of the step. */
  lemma AddedMessage(s: State, a: Action, m: nat)
    requires m in Next(s, a).db.messages && m !in s.db.messages
    ensures m == s.db.nextMessage && Next(s, a).db.messages[m].sentAt == s.db.now
  {
    if !a.SendInsert? {
      OtherStepsAddNoMessage(s, a);
    }
  }

  lemma TimesStep(s: State, a: Action)
    requires Invariant(s) && TimesFollowIds(s.db)
    ensures TimesFollowIds(Next(s, a).db)
  {
    var after := Next(s, a).db.messages;
    forall m, n | m in after && n in after && m < n ensures after[m].sentAt <= after[n].sentAt {
      if m in s.db.messages { KeptTime(s, a, m); } else { AddedMessage(s, a, m); }
      if n in s.db.messages { KeptTime(s, a, n); } else { AddedMessage(s, a, n); }
    }
  }

  lemma {:induction false} TrackedRun(s: State, actions: seq<Action>, c: nat, byTime: bool, overtaken: bool)
    requires Invariant(s) && TimesFollowIds(s.db) && Tracked(s, c, byTime, overtaken)
    ensures Tracked(Run(s, actions), c, byTime, EndsOvertaken(s, actions, c, byTime, overtaken))
    ensures Invariant(Run(s, actions)) && TimesFollowIds(Run(s, actions).db)
    decreases |actions|
  {
    if actions != [] {
      StepKeeps(s, actions[0]);
      TimesStep(s, actions[0]);
      TrackedStep(s, actions[0], c, byTime, overtaken);
      TrackedRun(Next(s, actions[0]), actions[1..], c, byTime, OvertakenBy(s, actions[0], c, byTime, overtaken));
    }
  }

  /** A send to c is half way, and the message it stored is later than the recorded one. */
  predicate StoredAbove(s: State, r: nat, c: nat, byTime: bool) {
    && r in s.flights && s.flights[r].SendStored? && s.flights[r].c == c && c in s.db.conversations
    && (s.db.conversations[c].last.None? || IsLater(s.db, s.db.conversations[c].last.value, s.flights[r].m, byTime))
  }

  lemma NothingAboveIff(actions: seq<Action>, c: nat, byTime: bool)
    requires c in Run(INIT, actions).db.conversations
    ensures var s := Run(INIT, actions);
            (forall m: nat :: !Above(s.db, c, m, byTime)) <==>
              !EndsOvertaken(INIT, actions, c, byTime, false) && forall r :: !StoredAbove(s, r, c, byTime)
  {
    var s := Run(INIT, actions);
    TrackedRun(INIT, actions, c, byTime, false);
    forall r | StoredAbove(s, r, c, byTime) ensures Above(s.db, c, s.flights[r].m, byTime) {
      assert FlightOk(s, s.flights[r]);
    }
    if !EndsOvertaken(INIT, actions, c, byTime, false) {
      forall m: nat | Above(s.db, c, m, byTime) ensures exists r :: StoredAbove(s, r, c, byTime) {
        var r :| IsStored(s, r, c, m);
        assert StoredAbove(s, r, c, byTime);
      }
    }
  }

  /** After every interleaved run last_message_id names the message of a conversation that was stored last exactly when
      the last recording for it was not overtaken and no message stored later still waits to be recorded; and it agrees
      with recomputation exactly when the same holds with "later" meaning a later time. */
  lemma LastIsNewestIff(actions: seq<Action>, c: nat)
    requires c in Run(INIT, actions).db.conversations
    ensures var s := Run(INIT, actions);
            && (ChatRequests.LastIsNewest(s.db, c) <==>
                  !EndsOvertaken(INIT, actions, c, false, false) && forall r :: !StoredAbove(s, r, c, false))
            && (ChatRequests.IsRecomputed(s.db, c, s.db.conversations[c].last) <==>
                  !EndsOvertaken(INIT, actions, c, true, false) && forall r :: !StoredAbove(s, r, c, true))
  {
    var s := Run(INIT, actions);
    TrackedRun(INIT, actions, c, false, false);
    NewestIffNothingAbove(s.db, c);
    RecomputedIffNothingAbove(s.db, c);
    NothingAboveIff(actions, c, false);
    NothingAboveIff(actions, c, true);
  }

  lemma RunTwo(s: State, a: seq<Action>)
    requires |a| == 2
    ensures Run(s, a) == Next(Next(s, a[0]), a[1])
  {
    assert a[1..] == [a[1]] && a[1..][1..] == [];
    assert Run(Next(s, a[0]), a[1..]) == Run(Next(Next(s, a[0]), a[1]), []);
  }

  lemma RunFive(s: State, a: seq<Action>)
    requires |a| == 5
    ensures Run(s, a) == Next(Next(Next(Next(Next(s, a[0]), a[1]), a[2]), a[3]), a[4])
  {
    var s2 := Next(Next(s, a[0]), a[1]);
    assert a == a[..2] + a[2..] && a[2..] == a[2..4] + a[4..] && a[4..] == [a[4]] && a[4..][1..] == [];
    RunTwo(s, a[..2]);
    RunAppend(s, a[..2], a[2..]);
    RunTwo(s2, a[2..4]);
    RunAppend(s2, a[2..4], a[4..]);
  }

  lemma {:induction false} RunAppend(s: State, a: seq<Action>, b: seq<Action>)
    ensures Run(s, a + b) == Run(Run(s, a), b)
    decreases |a|
  {
    if a == [] {
      assert a + b == b;
    } else {
      assert (a + b)[1..] == a[1..] + b;
      RunAppend(Next(s, a[0]), a[1..], b);
    }
  }

  /** The five steps of two checked sends to one conversation that record their messages in the wrong order. */
  function Crossing(r1: nat, r2: nat, text1: string, text2: string, elapsed: nat): seq<Action> {
    [SendInsert(r1, text1), Tick(elapsed), SendInsert(r2, text2), SendLast(r2), SendLast(r1)]
  }

  /** What these steps do to the tables. */
  function CrossedTables(db: Db, c: nat, u1: nat, u2: nat, text1: string, text2: string, elapsed: nat): Db {
    var first := InsertMessage(db, c, u1, text1);
    var second := InsertMessage(first.(now := db.now + elapsed), c, u2, text2);
    SetLast(SetLast(second, c, db.nextMessage + 1), c, db.nextMessage)
  }

  lemma CrossingRecords(s: State, r1: nat, r2: nat)
    requires r1 != r2 && r1 in s.flights && r2 in s.flights
    requires s.flights[r1].SendStored? && s.flights[r2].SendStored?
    ensures StoreLast(StoreLast(s, r2), r1).db
         == SetLast(SetLast(s.db, s.flights[r2].c, s.flights[r2].m), s.flights[r1].c, s.flights[r1].m)
  {
    assert StoreLast(s, r2).flights[r1] == s.flights[r1];
  }

  lemma RunCrossing(s: State, r1: nat, r2: nat, text1: string, text2: string, elapsed: nat)
    ensures var later := Next(StoreMessage(s, r1, text1), Tick(elapsed));
            Run(s, Crossing(r1, r2, text1, text2, elapsed))
            == StoreLast(StoreLast(StoreMessage(later, r2, text2), r2), r1)
  {
    RunFive(s, Crossing(r1, r2, text1, text2, elapsed));
  }

  lemma CheckedStores(s: State, r: nat, text: string)
    requires r in s.flights && s.flights[r].SendChecked? && s.flights[r].sock in s.auth && !IsBlank(text)
    ensures var f := s.flights[r];
            StoreMessage(s, r, text)
            == s.(db := InsertMessage(s.db, f.c, s.auth[f.sock], text),
                  flights := s.flights[r := SendStored(f.sock, f.c, s.db.nextMessage)])
  {
  }

  lemma CrossingTables(s: State, r1: nat, r2: nat, text1: string, text2: string, elapsed: nat)
    requires r1 != r2 && r1 in s.flights && r2 in s.flights
    requires s.flights[r1].SendChecked? && s.flights[r2].SendChecked? && s.flights[r1].c == s.flights[r2].c
    requires s.flights[r1].sock in s.auth && s.flights[r2].sock in s.auth && !IsBlank(text1) && !IsBlank(text2)
    ensures Run(s, Crossing(r1, r2, text1, text2, elapsed)).db
         == CrossedTables(s.db, s.flights[r1].c, s.auth[s.flights[r1].sock], s.auth[s.flights[r2].sock], text1, text2,
                          elapsed)
  {
    RunCrossing(s, r1, r2, text1, text2, elapsed);
    CheckedStores(s, r1, text1);
    var first := StoreMessage(s, r1, text1);
    var later := first.(db := first.db.(now := first.db.now + elapsed));
    assert Next(first, Tick(elapsed)) == later && later.flights[r2] == s.flights[r2];
    CheckedStores(later, r2, text2);
    var stored := StoreMessage(later, r2, text2);
    assert stored.flights[r1] == SendStored(s.flights[r1].sock, s.flights[r1].c, s.db.nextMessage);
    CrossingRecords(stored, r1, r2);
  }

  lemma CrossedIsOlder(db: Db, c: nat, u1: nat, u2: nat, text1: string, text2: string, elapsed: nat)
    requires c in db.conversations && elapsed > 0
    ensures var after := CrossedTables(db, c, u1, u2, text1, text2, elapsed);
            && c in after.conversations && after.conversations[c].last == Some(db.nextMessage)
            && !ChatRequests.IsRecomputed(after, c, after.conversations[c].last)
  {
    var after := CrossedTables(db, c, u1, u2, text1, text2, elapsed);
    var older := db.nextMessage;
    assert after.messages[older].sentAt == db.now && after.messages[older + 1].sentAt == db.now + elapsed;
    assert ChatRequests.InConversation(after, older + 1, c);
  }

  /** Whenever two checked sends to one conversation cross so, with time passing between their messages,
      last_message_id names the older one and disagrees with recomputation. */
  lemma OverlappingSendsRecordTheOlder(s: State, r1: nat, r2: nat, text1: string, text2: string, elapsed: nat)
    requires Invariant(s) && r1 != r2 && r1 in s.flights && r2 in s.flights && elapsed > 0
    requires s.flights[r1].SendChecked? && s.flights[r2].SendChecked? && s.flights[r1].c == s.flights[r2].c
    requires !IsBlank(text1) && !IsBlank(text2)
    ensures var c := s.flights[r1].c;
            var db := Run(s, Crossing(r1, r2, text1, text2, elapsed)).db;
            && c in db.conversations && db.conversations[c].last == Some(s.db.nextMessage)
            && !ChatRequests.IsRecomputed(db, c, db.conversations[c].last)
  {
    assert FlightOk(s, s.flights[r1]) && FlightOk(s, s.flights[r2]);
    CrossingTables(s, r1, r2, text1, text2, elapsed);
    CrossedIsOlder(s.db, s.flights[r1].c, s.auth[s.flights[r1].sock], s.auth[s.flights[r2].sock], text1, text2,
                   elapsed);
  }

  /** Users 1 and 2 have conversation 1, and user 1 is connected with socket 10. */
  function Acquainted(): State {
    State(Db({2}, map[], map[1 := Conversation(1, 2, None, None, 0)], map[], {}, 2, 1, 0),
          map[10 := 1], {10}, map[1 := {10}], {}, map[0 := CreateReady(1, 1)], [])
  }

  lemma ReachConnected()
    ensures Next(Next(INIT, AddUser(2)), Connect(10, 1))
         == State(EMPTY_DB.(users := {2}), map[10 := 1], {10}, map[1 := {10}], {}, map[], [])
  {
    assert {} + {10} == {10} && {} + {2} == {2};
    assert Register(map[], 1, 10) == map[1 := {10}];
  }

  lemma FirstConversation(s: State)
    requires s.flights == map[] && s.db == EMPTY_DB.(users := {2})
    ensures InsertPair(FindPair(CheckCreate(s, 0, 1, 2, None), 0, None), 0)
         == s.(db := Acquainted().db, flights := map[0 := CreateReady(1, 1)])
  {
    var checked := CheckCreate(s, 0, 1, 2, None);
    assert checked.flights == map[0 := CreateChecked(1, 1, 2, None)];
    var missing := FindPair(checked, 0, None);
    assert missing.flights == map[0 := CreateMissing(1, 1, 2, None)] && missing.db == s.db;
    var inserted := InsertPair(missing, 0);
    assert inserted.flights == map[0 := CreateReady(1, 1)];
  }

  lemma CreateStatements(s: State, r: nat, u: nat, v: nat)
    ensures Next(Next(Next(s, CreateCheck(r, u, v, None)), CreateFind(r, None)), CreateInsert(r))
         == InsertPair(FindPair(CheckCreate(s, r, u, v, None), r, None), r)
  {
  }

  lemma ReachAcquainted() returns (actions: seq<Action>)
    ensures Run(INIT, actions) == Acquainted()
  {
    actions := [AddUser(2), Connect(10, 1), CreateCheck(0, 1, 2, None), CreateFind(0, None), CreateInsert(0)];
    ReachConnected();
    var connected := Next(Next(INIT, actions[0]), actions[1]);
    CreateStatements(connected, 0, 1, 2);
    FirstConversation(connected);
    RunFive(INIT, actions);
  }

  /** Two sends of user 1 to that conversation have passed their checks. */
  function TwoChecked(): State {
    Acquainted().(flights := map[0 := CreateReady(1, 1), 1 := SendChecked(10, 1), 2 := SendChecked(10, 1)])
  }

  lemma ReachTwoChecks() returns (actions: seq<Action>)
    ensures Run(INIT, actions) == TwoChecked()
  {
    var setup := ReachAcquainted();
    var checks := [SendCheck(1, 10, 1), SendCheck(2, 10, 1)];
    var first := Next(Acquainted(), checks[0]);
    assert first.flights == map[0 := CreateReady(1, 1), 1 := SendChecked(10, 1)];
    RunTwo(Acquainted(), checks);
    RunAppend(INIT, setup, checks);
    actions := setup + checks;
  }

  /** A run from the empty tables after which last_message_id disagrees with recomputation. */
  lemma LastCanStayBehind()
    ensures exists actions, c ::
              var db := Run(INIT, actions).db;
              c in db.conversations && !ChatRequests.IsRecomputed(db, c, db.conversations[c].last)
  {
    var checks := ReachTwoChecks();
    var crossing := Crossing(1, 2, "a", "b", 1);
    RunKeeps(INIT, checks);
    assert "a"[0] != ' ' && "b"[0] != ' ';
    OverlappingSendsRecordTheOlder(Run(INIT, checks), 1, 2, "a", "b", 1);
    RunAppend(INIT, checks, crossing);
    var db := Run(INIT, checks + crossing).db;
    assert 1 in db.conversations && !ChatRequests.IsRecomputed(db, 1, db.conversations[1].last);
  }

  // ----- Attached products -----

  /** The step attaches a product to a conversation that has another one by now. */
  predicate Overwrites(s: State, a: Action) {
    && a.CreateAttach? && a.r in s.flights && s.flights[a.r].CreateAttaching?
    && s.flights[a.r].c in s.db.conversations
    && s.db.conversations[s.flights[a.r].c].product.Some?
    && s.db.conversations[s.flights[a.r].c].product.value != s.flights[a.r].newProduct
  }

  lemma OtherStepsKeepConversations(s: State, a: Action)
    requires !a.SendLast? && !a.CreateAttach? && !a.CreateInsert?
    ensures Next(s, a).db.conversations == s.db.conversations
  {
  }

  lemma OtherStepsKeepProducts(s: State, a: Action, c: nat)
    requires Sound(s.db) && c in s.db.conversations && !a.CreateAttach?
    ensures c in Next(s, a).db.conversations && Next(s, a).db.conversations[c].product == s.db.conversations[c].product
  {
    if !a.SendLast? && !a.CreateInsert? {
      OtherStepsKeepConversations(s, a);
    }
  }

  /** One step keeps every attached product unless it overwrites one, and then it does not. */
  lemma ProductStep(s: State, a: Action)
    requires Sound(s.db)
    ensures ChatRequests.ProductsKept(s.db, Next(s, a).db) <==> !Overwrites(s, a)
  {
    if a.CreateAttach? {
      var t := Attach(s, a.r);
      if Overwrites(s, a) {
        var c := s.flights[a.r].c;
        assert t.db.conversations[c].product != s.db.conversations[c].product;
      }
    } else {
      forall c | c in s.db.conversations
        ensures c in Next(s, a).db.conversations
                && Next(s, a).db.conversations[c].product == s.db.conversations[c].product
      {
        OtherStepsKeepProducts(s, a, c);
      }
    }
  }

  ghost predicate AlwaysKept(s: State, actions: seq<Action>)
    decreases |actions|
  {
    actions != [] ==>
      ChatRequests.ProductsKept(s.db, Next(s, actions[0]).db) && AlwaysKept(Next(s, actions[0]), actions[1..])
  }

  predicate NeverOverwrites(s: State, actions: seq<Action>)
    decreases |actions|
  {
    actions != [] ==> !Overwrites(s, actions[0]) && NeverOverwrites(Next(s, actions[0]), actions[1..])
  }

  /** All along an interleaved run attached products stay, exactly when no step of it overwrites one. */
  lemma {:induction false} KeptIffNeverOverwrites(s: State, actions: seq<Action>)
    requires Invariant(s)
    ensures AlwaysKept(s, actions) <==> NeverOverwrites(s, actions)
    ensures AlwaysKept(s, actions) ==> ChatRequests.ProductsKept(s.db, Run(s, actions).db)
    decreases |actions|
  {
    if actions != [] {
      StepKeeps(s, actions[0]);
      ProductStep(s, actions[0]);
      KeptIffNeverOverwrites(Next(s, actions[0]), actions[1..]);
    }
  }

  predicate IsAttaching(s: State, r: nat, c: nat) {
    r in s.flights && s.flights[r].CreateAttaching? && s.flights[r].c == c
  }

  /** No two requests are about to attach a product to one conversation. */
  ghost predicate AttachesApart(s: State) {
    forall r, q, c :: IsAttaching(s, r, c) && IsAttaching(s, q, c) ==> r == q
  }

  ghost predicate AlwaysApart(s: State, actions: seq<Action>)
    decreases |actions|
  {
    AttachesApart(s) && (actions != [] ==> AlwaysApart(Next(s, actions[0]), actions[1..]))
  }

  ghost predicate AttachesToNone(s: State) {
    forall r, c :: IsAttaching(s, r, c) ==> c in s.db.conversations && s.db.conversations[c].product.None?
  }

  /** A step lets a request start attaching only to a conversation without a product. */
  lemma AttachingStep(s: State, a: Action, r: nat, c: nat)
    requires Invariant(s) && !a.CreateAttach? && IsAttaching(Next(s, a), r, c)
    requires AttachesToNone(s)
    ensures c in s.db.conversations && s.db.conversations[c].product.None?
  {
    if !IsAttaching(s, r, c) {
      NewAttaching(s, a, r, c);
    }
  }

  lemma NewAttaching(s: State, a: Action, r: nat, c: nat)
    requires IsAttaching(Next(s, a), r, c) && !IsAttaching(s, r, c)
    ensures c in s.db.conversations && s.db.conversations[c].product.None?
  {
  }

  lemma ApartStep(s: State, a: Action)
    requires Invariant(s) && AttachesApart(s) && AttachesToNone(s)
    ensures AttachesToNone(Next(s, a)) && !Overwrites(s, a)
  {
    var t := Next(s, a);
    if Overwrites(s, a) {
      assert IsAttaching(s, a.r, s.flights[a.r].c);
    }
    forall r, c | IsAttaching(t, r, c) ensures c in t.db.conversations && t.db.conversations[c].product.None? {
      if a.CreateAttach? {
        assert IsAttaching(s, r, c);
        if a.r in s.flights && s.flights[a.r].CreateAttaching? {
          assert IsAttaching(s, a.r, s.flights[a.r].c);
        }
      } else {
        AttachingStep(s, a, r, c);
        OtherStepsKeepProducts(s, a, c);
      }
    }
  }

  lemma {:induction false} ApartRun(s: State, actions: seq<Action>)
    requires Invariant(s) && AttachesToNone(s) && AlwaysApart(s, actions)
    ensures NeverOverwrites(s, actions)
    decreases |actions|
  {
    if actions != [] {
      StepKeeps(s, actions[0]);
      ApartStep(s, actions[0]);
      ApartRun(Next(s, actions[0]), actions[1..]);
    }
  }

  /** In every interleaved run in which no two requests are about to attach a product to one conversation at once,
      whatever else overlaps, a product that is attached stays. */
  lemma ProductIsWriteOnce(actions: seq<Action>)
    requires AlwaysApart(INIT, actions)
    ensures AlwaysKept(INIT, actions)
  {
    ApartRun(INIT, actions);
    KeptIffNeverOverwrites(INIT, actions);
  }

  /** Whenever two requests are about to attach different products to one conversation, letting both write overwrites
      the first product. */
  lemma OverlappingAttachesOverwrite(s: State, r1: nat, r2: nat, c: nat)
    requires r1 != r2 && IsAttaching(s, r1, c) && IsAttaching(s, r2, c) && c in s.db.conversations
    requires s.flights[r1].newProduct != s.flights[r2].newProduct
    ensures Overwrites(Next(s, CreateAttach(r1)), CreateAttach(r2))
  {
    assert Attach(s, r1).flights[r2] == s.flights[r2];
  }

  lemma ReachTwoAttaches() returns (actions: seq<Action>)
    ensures var s := Run(INIT, actions);
            && IsAttaching(s, 1, 1) && IsAttaching(s, 2, 1) && 1 in s.db.conversations
            && s.flights[1].newProduct == 5 && s.flights[2].newProduct == 6
  {
    var row := Product(2, true, false);
    var setup := ReachAcquainted();
    var puts := [PutProduct(5, row), PutProduct(6, row)];
    var stocked := Next(Next(Acquainted(), puts[0]), puts[1]);
    assert stocked.db == Acquainted().db.(products := map[5 := row, 6 := row])
      && stocked.flights == Acquainted().flights;
    RunTwo(Acquainted(), puts);
    RunAppend(INIT, setup, puts);
    var checks := [CreateCheck(1, 1, 2, Some(5)), CreateCheck(2, 1, 2, Some(6))];
    TwoCreateChecks(stocked, checks);
    var checked := Run(stocked, checks);
    RunAppend(INIT, setup + puts, checks);
    var finds := [CreateFind(1, Some(1)), CreateFind(2, Some(1))];
    TwoFinds(checked, finds);
    RunAppend(INIT, setup + puts + checks, finds);
    actions := setup + puts + checks + finds;
  }

  lemma TwoCreateChecks(s: State, checks: seq<Action>)
    requires checks == [CreateCheck(1, 1, 2, Some(5)), CreateCheck(2, 1, 2, Some(6))]
    requires 1 !in s.flights && 2 !in s.flights && 2 in s.db.users && s.db.blocks == {}
    requires ProductProblem(s.db, Some(5), 1, 2).None? && ProductProblem(s.db, Some(6), 1, 2).None?
    ensures Run(s, checks) == s.(flights := s.flights[1 := CreateChecked(1, 1, 2, Some(5))]
                                                     [2 := CreateChecked(1, 1, 2, Some(6))])
  {
    RunTwo(s, checks);
  }

  lemma TwoFinds(s: State, finds: seq<Action>)
    requires finds == [CreateFind(1, Some(1)), CreateFind(2, Some(1))]
    requires 1 in s.flights && s.flights[1] == CreateChecked(1, 1, 2, Some(5))
    requires 2 in s.flights && s.flights[2] == CreateChecked(1, 1, 2, Some(6))
    requires 1 in s.db.conversations && s.db.conversations[1] == Conversation(1, 2, None, None, 0)
    ensures var t := Run(s, finds);
            && 1 in t.flights && t.flights[1] == CreateAttaching(1, 1, 5)
            && 2 in t.flights && t.flights[2] == CreateAttaching(1, 1, 6) && t.db == s.db
  {
    RunTwo(s, finds);
    var found := FindPair(s, 1, Some(1));
    assert found.flights[2] == s.flights[2] && found.db == s.db;
  }

  /** A run from the empty tables with a step that replaces an attached product. */
  lemma ProductCanBeOverwritten()
    ensures exists actions, a ::
              var s := Run(INIT, actions); !ChatRequests.ProductsKept(s.db, Next(s, a).db)
  {
    var attaches := ReachTwoAttaches();
    var s := Run(INIT, attaches);
    RunKeeps(INIT, attaches);
    OverlappingAttachesOverwrite(s, 1, 2, 1);
    StepKeeps(s, CreateAttach(1));
    ProductStep(Next(s, CreateAttach(1)), CreateAttach(2));
    var last := [CreateAttach(1)];
    assert last[1..] == [];
    RunAppend(INIT, attaches, last);
    assert Run(INIT, attaches + last) == Next(s, CreateAttach(1));
  }
}
