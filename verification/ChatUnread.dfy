/**
 Unread counts under overlapping requests: along every interleaved run the unread messages of a user are those that
 were stored for the user, less the read marks that came first.
 */
module ChatUnread {
  import opened Common
  import opened ChatTables
  import opened ChatRooms
  import ChatRequests

  /** The step stores a message in c that u did not send. */
  predicate StoresFor(s: State, a: Action, c: nat, u: nat) {
    && a.SendInsert? && a.r in s.flights && s.flights[a.r].SendChecked? && s.flights[a.r].c == c
    && s.flights[a.r].sock in s.auth && s.auth[s.flights[a.r].sock] != u && !IsBlank(a.text)
  }

  /** The step sets the read mark of this message, which had none. */
  predicate FirstMark(s: State, a: Action, m: nat) {
    && a.ReadMark? && a.r in s.flights && s.flights[a.r].ReadChecked? && s.flights[a.r].m == m
    && m in s.db.messages && s.db.messages[m].readAt.None?
  }

  /** The step is the first read mark of a message in c that u did not send. */
  predicate MarksFor(s: State, a: Action, c: nat, u: nat) {
    && a.ReadMark? && a.r in s.flights && s.flights[a.r].ReadChecked? && FirstMark(s, a, s.flights[a.r].m)
    && s.db.messages[s.flights[a.r].m].conversation == c && s.db.messages[s.flights[a.r].m].sender != u
  }

  function Unread(s: State, c: nat, u: nat): set<nat> {
    ChatRequests.UnreadBy(s.db, c, u)
  }

  lemma OtherStepsKeepMessages(s: State, a: Action)
    requires !a.SendInsert? && !a.ReadMark?
    ensures Next(s, a).db.messages == s.db.messages
  {
  }

  lemma StoreUnread(s: State, a: Action, c: nat, u: nat)
    requires Sound(s.db) && a.SendInsert?
    ensures Unread(Next(s, a), c, u) == Unread(s, c, u) + (if StoresFor(s, a, c, u) then {s.db.nextMessage} else {})
  {
    var t := StoreMessage(s, a.r, a.text);
    if t != s {
      assert t.db.messages.Keys == s.db.messages.Keys + {s.db.nextMessage};
    }
  }

  lemma MarkUnread(s: State, a: Action, c: nat, u: nat)
    requires a.ReadMark?
    ensures Unread(Next(s, a), c, u) == Unread(s, c, u) - (if MarksFor(s, a, c, u) then {s.flights[a.r].m} else {})
    ensures MarksFor(s, a, c, u) ==> s.flights[a.r].m in Unread(s, c, u)
  {
    if a.r in s.flights && s.flights[a.r].ReadChecked? && s.flights[a.r].m in s.db.messages {
      ChatRequests.MarkedIsRead(s.db, s.flights[a.r].m, c, u);
    }
  }

  /** One statement of any request adds one unread message, takes one off, or leaves the count alone. */
  lemma UnreadStep(s: State, a: Action, c: nat, u: nat)
    requires Sound(s.db)
    ensures |Unread(Next(s, a), c, u)|
         == |Unread(s, c, u)| + (if StoresFor(s, a, c, u) then 1 else 0) - (if MarksFor(s, a, c, u) then 1 else 0)
  {
    if a.SendInsert? {
      StoreUnread(s, a, c, u);
      assert s.db.nextMessage !in Unread(s, c, u);
    } else if a.ReadMark? {
      MarkUnread(s, a, c, u);
    } else {
      OtherStepsKeepMessages(s, a);
    }
  }

  function Stored(s: State, actions: seq<Action>, c: nat, u: nat): nat
    decreases |actions|
  {
    if actions == [] then 0
    else (if StoresFor(s, actions[0], c, u) then 1 else 0) + Stored(Next(s, actions[0]), actions[1..], c, u)
  }

  function Marked(s: State, actions: seq<Action>, c: nat, u: nat): nat
    decreases |actions|
  {
    if actions == [] then 0
    else (if MarksFor(s, actions[0], c, u) then 1 else 0) + Marked(Next(s, actions[0]), actions[1..], c, u)
  }

  /** Unread counts are conserved along every interleaved run. */
  lemma {:induction false} UnreadRun(s: State, actions: seq<Action>, c: nat, u: nat)
    requires Invariant(s)
    ensures |Unread(Run(s, actions), c, u)| + Marked(s, actions, c, u) == |Unread(s, c, u)| + Stored(s, actions, c, u)
    decreases |actions|
  {
    if actions != [] {
      UnreadStep(s, actions[0], c, u);
      StepKeeps(s, actions[0]);
      UnreadRun(Next(s, actions[0]), actions[1..], c, u);
    }
  }

  /** How often a run sets the read mark of one message. */
  function FirstMarks(s: State, actions: seq<Action>, m: nat): nat
    decreases |actions|
  {
    if actions == [] then 0
    else (if FirstMark(s, actions[0], m) then 1 else 0) + FirstMarks(Next(s, actions[0]), actions[1..], m)
  }

  predicate IsRead(s: State, m: nat) {
    m in s.db.messages && s.db.messages[m].readAt.Some?
  }

  lemma ReadStays(s: State, a: Action, m: nat)
    requires Invariant(s) && (IsRead(s, m) || FirstMark(s, a, m))
    ensures IsRead(Next(s, a), m)
  {
    if IsRead(s, m) {
      StepKeeps(s, a);
    }
  }

  /** However many read marks of one message overlap, at most one of them counts, and none once the message is read. */
  lemma {:induction false} OneMarkCounts(s: State, actions: seq<Action>, m: nat)
    requires Invariant(s)
    ensures FirstMarks(s, actions, m) <= (if IsRead(s, m) then 0 else 1)
    decreases |actions|
  {
    if actions != [] {
      StepKeeps(s, actions[0]);
      if IsRead(s, m) || FirstMark(s, actions[0], m) { ReadStays(s, actions[0], m); }
      OneMarkCounts(Next(s, actions[0]), actions[1..], m);
    }
  }

  /** From the empty tables: what a user has unread in a conversation is what others sent there less what was marked
      first, and only the peer sends there besides the user. */
  lemma UnreadIsSentLessRead(actions: seq<Action>, c: nat, u: nat)
    ensures var s := Run(INIT, actions);
            && |Unread(s, c, u)| == Stored(INIT, actions, c, u) - Marked(INIT, actions, c, u)
            && (IsParticipant(s.db, c, u) ==>
                  forall m :: m in Unread(s, c, u) ==> s.db.messages[m].sender == Peer(s.db, c, u))
  {
    UnreadRun(INIT, actions, c, u);
    RunKeeps(INIT, actions);
    assert Unread(INIT, c, u) == {};
  }
}
