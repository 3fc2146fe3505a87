/**
 Whole chat requests that do not overlap: the statements of each run without anything in between.  Here the last
 message is the newest one, a product is attached once, unread counts are conserved and a block freezes a conversation.
 */
module ChatRequests {
  import opened Common
  import opened ChatTables

  datatype Request =
    | Create(u: nat, v: nat, product: Option<nat>)
    | Send(u: nat, c: nat, text: string)
    | Read(u: nat, m: nat)
    | Block(u: nat, v: nat)
    | Unblock(u: nat, v: nat)
    | Tick(elapsed: nat)
    | AddUser(u: nat)
    | DropUser(u: nat)
    | PutProduct(p: nat, row: Product)

  // ----- Requests -----

  ghost function PairOf(db: Db, a: nat, b: nat): (c: nat)
    requires PairTaken(db, a, b)
    ensures c in db.conversations && HasPair(db.conversations[c], a, b)
  {
    var c :| c in db.conversations && HasPair(db.conversations[c], a, b);
    c
  }

  ghost function GetOrCreate(db: Db, u: nat, v: nat, product: Option<nat>): (Db, Outcome) {
    if u == v then (db, SelfConversation)
    else if v !in db.users then (db, ParticipantNotFound)
    else if Blocked(db, u, v) then (db, Denied(ConversationBlocked))
    else if ProductProblem(db, product, u, v).Some? then (db, ProductProblem(db, product, u, v).value)
    else
      var a, b := if u < v then u else v, if u < v then v else u;
      if PairTaken(db, a, b) then
        var c := PairOf(db, a, b);
        (if product.Some? && db.conversations[c].product.None? then SetProduct(db, c, product.value) else db, Done(c))
      else (InsertConversation(db, a, b, product), Done(db.nextConversation))
  }

  function SendMessage(db: Db, u: nat, c: nat, text: string): (Db, Outcome) {
    if Assert(db, c, u).Some? then (db, Denied(Assert(db, c, u).value))
    else if IsBlank(text) then (db, BlankText)
    else (SetLast(InsertMessage(db, c, u, text), c, db.nextMessage), Done(db.nextMessage))
  }

  function MarkRead(db: Db, u: nat, m: nat): (Db, Outcome) {
    if m !in db.messages then (db, MessageNotFound)
    else
      var c := db.messages[m].conversation;
      if Assert(db, c, u).Some? then (db, Denied(Assert(db, c, u).value))
      else if db.messages[m].sender == u then (db, OwnMessage)
      else (SetRead(db, m), Done(m))
  }

  function BlockUser(db: Db, u: nat, v: nat): (Db, Outcome) {
    if u == v then (db, SelfBlock)
    else if v !in db.users then (db, UserNotFound)
    else (AddBlock(db, u, v), Done(v))
  }

  ghost function Apply(db: Db, q: Request): Db {
    match q
    case Create(u, v, product) => GetOrCreate(db, u, v, product).0
    case Send(u, c, text) => SendMessage(db, u, c, text).0
    case Read(u, m) => MarkRead(db, u, m).0
    case Block(u, v) => BlockUser(db, u, v).0
    case Unblock(u, v) => RemoveBlock(db, u, v)
    case Tick(elapsed) => db.(now := db.now + elapsed)
    case AddUser(u) => db.(users := db.users + {u})
    case DropUser(u) => db.(users := db.users - {u})
    case PutProduct(p, row) => db.(products := db.products[p := row])
  }

  ghost function Run(db: Db, requests: seq<Request>): Db
    decreases |requests|
  {
    if requests == [] then db else Run(Apply(db, requests[0]), requests[1..])
  }

  // ----- The last message is the newest -----

  ghost predicate InConversation(db: Db, m: nat, c: nat) {
    m in db.messages && db.messages[m].conversation == c
  }

  /** `x` is what ORDER BY sent_at DESC LIMIT 1 may return for the conversation. */
  ghost predicate IsRecomputed(db: Db, c: nat, x: Option<nat>) {
    && (x.None? <==> forall m: nat :: !InConversation(db, m, c))
    && (x.Some? ==>
          && InConversation(db, x.value, c)
          && forall m: nat :: InConversation(db, m, c) ==> db.messages[m].sentAt <= db.messages[x.value].sentAt)
  }

  /** last_message_id agrees with recomputation, and among equal times names the message stored last. */
  ghost predicate LastIsNewest(db: Db, c: nat)
    requires c in db.conversations
  {
    var last := db.conversations[c].last;
    IsRecomputed(db, c, last) && (last.Some? ==> forall m: nat :: InConversation(db, m, c) ==> m <= last.value)
  }

  ghost predicate Current(db: Db) {
    Sound(db) && forall c :: c in db.conversations ==> LastIsNewest(db, c)
  }

  /** A product, once attached, stays. */
  ghost predicate ProductsKept(db: Db, after: Db) {
    forall c :: c in db.conversations && db.conversations[c].product.Some? ==>
      c in after.conversations && after.conversations[c].product == db.conversations[c].product
  }

  /** `after` is `db` with one more message, the newest of its conversation and recorded as its last. */
  ghost predicate Sent(db: Db, after: Db, c: nat, m: nat, row: Message) {
    && c in db.conversations && m !in db.messages && row.conversation == c
    && after.messages == db.messages[m := row]
    && after.conversations == db.conversations[c := db.conversations[c].(last := Some(m))]
  }

  lemma SendIsSent(db: Db, u: nat, c: nat, text: string)
    requires Sound(db) && c in db.conversations
    ensures Sent(db, SetLast(InsertMessage(db, c, u, text), c, db.nextMessage), c, db.nextMessage,
                 Message(c, u, text, db.now, None))
  {
  }

  lemma SentIsNewest(db: Db, after: Db, c: nat, m: nat, row: Message, d: nat)
    requires Sent(db, after, c, m, row) && d in db.conversations && LastIsNewest(db, d)
    requires forall n: nat :: n in db.messages ==> n < m && db.messages[n].sentAt <= row.sentAt
    ensures LastIsNewest(after, d)
  {
    assert forall n: nat :: InConversation(after, n, d) <==> InConversation(db, n, d) || (n == m && d == c);
    assert forall n: nat :: n in db.messages ==> after.messages[n] == db.messages[n];
    assert InConversation(after, m, c);
  }

  lemma SendKeepsCurrent(db: Db, u: nat, c: nat, text: string)
    requires Current(db) && IsParticipant(db, c, u)
    ensures var after := SetLast(InsertMessage(db, c, u, text), c, db.nextMessage);
            Current(after) && Grows(db, after) && ProductsKept(db, after)
  {
    var stored := InsertMessage(db, c, u, text);
    var after := SetLast(stored, c, db.nextMessage);
    InsertMessageKeeps(db, c, u, text);
    SetLastKeeps(stored, c, db.nextMessage);
    GrowsTransitive(db, stored, after);
    SendIsSent(db, u, c, text);
    SentIsCurrent(db, after, c, db.nextMessage, Message(c, u, text, db.now, None));
  }

  lemma SentIsCurrent(db: Db, after: Db, c: nat, m: nat, row: Message)
    requires Current(db) && Sound(after) && Sent(db, after, c, m, row) && m == db.nextMessage && row.sentAt == db.now
    ensures Current(after) && ProductsKept(db, after)
  {
    forall d | d in after.conversations ensures LastIsNewest(after, d) {
      assert LastIsNewest(db, d);
      SentIsNewest(db, after, c, m, row, d);
    }
  }

  /** Statements that touch neither the messages of a conversation nor its last message keep it current. */
  lemma SameLastKeepsCurrent(db: Db, after: Db)
    requires Current(db) && Sound(after)
    requires forall m: nat, c: nat :: InConversation(after, m, c) <==> InConversation(db, m, c)
    requires forall m: nat :: m in after.messages ==>
             m in db.messages && after.messages[m].sentAt == db.messages[m].sentAt
    requires forall c :: c in after.conversations ==>
      if c in db.conversations then after.conversations[c].last == db.conversations[c].last
      else after.conversations[c].last.None? && forall m: nat :: !InConversation(db, m, c)
    ensures Current(after)
  {
    forall c | c in after.conversations ensures LastIsNewest(after, c) {
      if c in db.conversations { assert LastIsNewest(db, c); }
    }
  }

  lemma AttachKeepsCurrent(db: Db, c: nat, product: nat)
    requires Current(db) && c in db.conversations && db.conversations[c].product.None?
    ensures var after := SetProduct(db, c, product); Current(after) && Grows(db, after) && ProductsKept(db, after)
  {
    SetProductKeeps(db, c, product);
    SameLastKeepsCurrent(db, SetProduct(db, c, product));
  }

  lemma InsertKeepsCurrent(db: Db, a: nat, b: nat, product: Option<nat>)
    requires Current(db) && CanInsertConversation(db, a, b)
    ensures var after := InsertConversation(db, a, b, product);
            Current(after) && Grows(db, after) && ProductsKept(db, after)
  {
    InsertConversationKeeps(db, a, b, product);
    assert forall m: nat :: !InConversation(db, m, db.nextConversation);
    SameLastKeepsCurrent(db, InsertConversation(db, a, b, product));
  }

  lemma CreateKeepsCurrent(db: Db, u: nat, v: nat, product: Option<nat>)
    requires Current(db)
    ensures var after := GetOrCreate(db, u, v, product).0; Current(after) && Grows(db, after) && ProductsKept(db, after)
  {
    OtherKeepsCurrent(db, db);
    var a, b := if u < v then u else v, if u < v then v else u;
    if u != v {
      if !PairTaken(db, a, b) {
        InsertKeepsCurrent(db, a, b, product);
      } else if product.Some? && db.conversations[PairOf(db, a, b)].product.None? {
        AttachKeepsCurrent(db, PairOf(db, a, b), product.value);
      }
    }
    CreateOutcomes(db, u, v, product);
  }

  /** The four tables a create request can leave behind. */
  lemma CreateOutcomes(db: Db, u: nat, v: nat, product: Option<nat>)
    ensures var after := GetOrCreate(db, u, v, product).0;
            var a, b := if u < v then u else v, if u < v then v else u;
            || after == db
            || (u != v && !PairTaken(db, a, b) && after == InsertConversation(db, a, b, product))
            || (u != v && PairTaken(db, a, b) && product.Some? && db.conversations[PairOf(db, a, b)].product.None?
                && after == SetProduct(db, PairOf(db, a, b), product.value))
  {
  }

  lemma ReadKeepsCurrent(db: Db, m: nat)
    requires Current(db)
    ensures Current(SetRead(db, m)) && Grows(db, SetRead(db, m)) && ProductsKept(db, SetRead(db, m))
  {
    SetReadKeeps(db, m);
    SameLastKeepsCurrent(db, SetRead(db, m));
  }

  lemma OtherKeepsCurrent(db: Db, after: Db)
    requires Current(db) && after.conversations == db.conversations && after.messages == db.messages
             && db.now <= after.now
    requires after.nextConversation == db.nextConversation && after.nextMessage == db.nextMessage
    ensures Current(after) && Grows(db, after) && ProductsKept(db, after)
  {
    assert Sound(after);
    SameLastKeepsCurrent(db, after);
  }

  lemma RequestKeepsCurrent(db: Db, q: Request)
    requires Current(db)
    ensures var after := Apply(db, q); Current(after) && Grows(db, after) && ProductsKept(db, after)
  {
    match q
    case Create(u, v, product) => CreateKeepsCurrent(db, u, v, product);
    case Send(u, c, text) => SendRequestKeepsCurrent(db, u, c, text);
    case Read(u, m) => ReadRequestKeepsCurrent(db, u, m);
    case _ => OtherKeepsCurrent(db, Apply(db, q));
  }

  lemma SendRequestKeepsCurrent(db: Db, u: nat, c: nat, text: string)
    requires Current(db)
    ensures var after := SendMessage(db, u, c, text).0; Current(after) && Grows(db, after) && ProductsKept(db, after)
  {
    OtherKeepsCurrent(db, db);
    if Assert(db, c, u).None? && !IsBlank(text) { SendKeepsCurrent(db, u, c, text); }
  }

  lemma ReadRequestKeepsCurrent(db: Db, u: nat, m: nat)
    requires Current(db)
    ensures var after := MarkRead(db, u, m).0; Current(after) && Grows(db, after) && ProductsKept(db, after)
  {
    if MarkRead(db, u, m).1.Done? {
      assert MarkRead(db, u, m).0 == SetRead(db, m);
      ReadKeepsCurrent(db, m);
    } else {
      assert MarkRead(db, u, m).0 == db;
      OtherKeepsCurrent(db, db);
    }
  }

  /** In every sequential run last_message_id names the newest message, agreeing with recomputation, and an attached
      product is never replaced. */
  lemma {:induction false} SequentialRuns(db: Db, requests: seq<Request>)
    requires Current(db)
    ensures Current(Run(db, requests)) && Grows(db, Run(db, requests)) && ProductsKept(db, Run(db, requests))
    decreases |requests|
  {
    if requests == [] {
      OtherKeepsCurrent(db, db);
    } else {
      var next := Apply(db, requests[0]);
      RequestKeepsCurrent(db, requests[0]);
      SequentialRuns(next, requests[1..]);
      GrowsTransitive(db, next, Run(next, requests[1..]));
    }
  }

  /** When the times within a conversation differ, recomputation has no other answer. */
  lemma RecomputationAgrees(requests: seq<Request>, c: nat, x: Option<nat>)
    requires var db := Run(EMPTY_DB, requests);
             && c in db.conversations && IsRecomputed(db, c, x)
             && forall m: nat, n: nat :: InConversation(db, m, c) && InConversation(db, n, c) && m != n ==>
                  db.messages[m].sentAt != db.messages[n].sentAt
    ensures x == Run(EMPTY_DB, requests).conversations[c].last
  {
    SequentialRuns(EMPTY_DB, requests);
    var db := Run(EMPTY_DB, requests);
    assert LastIsNewest(db, c);
    if x.Some? && db.conversations[c].last.Some? {
      assert InConversation(db, x.value, c) && InConversation(db, db.conversations[c].last.value, c);
    } else {
      assert x.Some? ==> InConversation(db, x.value, c);
    }
  }

  // ----- Unread counts -----

  function UnreadBy(db: Db, c: nat, u: nat): set<nat> {
    set m | && m in db.messages && db.messages[m].conversation == c
            && db.messages[m].sender != u && db.messages[m].readAt.None?
  }

  /** A message that was sent is one more unread for everybody but its sender, in its conversation only. */
  lemma SendAddsOneUnread(db: Db, u: nat, c: nat, text: string, d: nat, w: nat)
    requires Sound(db) && SendMessage(db, u, c, text).1.Done?
    ensures var after := SendMessage(db, u, c, text).0;
            |UnreadBy(after, d, w)| == |UnreadBy(db, d, w)| + (if d == c && w != u then 1 else 0)
  {
    SendIsSent(db, u, c, text);
    SentIsUnread(db, SendMessage(db, u, c, text).0, c, db.nextMessage, Message(c, u, text, db.now, None), d, w);
  }

  lemma SentIsUnread(db: Db, after: Db, c: nat, m: nat, row: Message, d: nat, w: nat)
    requires Sent(db, after, c, m, row) && row.readAt.None?
    ensures |UnreadBy(after, d, w)| == |UnreadBy(db, d, w)| + (if d == c && w != row.sender then 1 else 0)
  {
    assert UnreadBy(after, d, w) == UnreadBy(db, d, w) + (if d == c && w != row.sender then {m} else {});
  }

  /** The first read mark by the recipient takes exactly that message off the recipient's count; a repeated one
      takes nothing, and nobody else's count of other conversations moves. */
  lemma ReadTakesOneUnread(db: Db, u: nat, m: nat, d: nat)
    requires Sound(db) && MarkRead(db, u, m).1.Done?
    ensures var after := MarkRead(db, u, m).0;
            var c := db.messages[m].conversation;
            var first := d == c && db.messages[m].readAt.None?;
            && |UnreadBy(after, d, u)| == |UnreadBy(db, d, u)| - (if first then 1 else 0)
            && |UnreadBy(after, d, Peer(db, c, u))| == |UnreadBy(db, d, Peer(db, c, u))|
            && after.messages[m].readAt.Some?
  {
    var c := db.messages[m].conversation;
    assert db.messages[m].sender == Peer(db, c, u) != u;
    MarkedIsRead(db, m, d, u);
    MarkedIsRead(db, m, d, Peer(db, c, u));
  }

  lemma MarkedIsRead(db: Db, m: nat, d: nat, w: nat)
    requires m in db.messages
    ensures UnreadBy(SetRead(db, m), d, w) == UnreadBy(db, d, w) - {m}
    ensures var row := db.messages[m];
            m in UnreadBy(db, d, w) <==> row.conversation == d && row.sender != w && row.readAt.None?
  {
  }

  // ----- A block freezes the conversation -----

  datatype Scope = All | Buy | Sell

  /** WHERE of listConversations. */
  predicate Listed(db: Db, u: nat, c: nat, scope: Scope) {
    && IsParticipant(db, c, u)
    && !Blocked(db, u, Peer(db, c, u))
    && (scope.All? ||
          (&& db.conversations[c].product.Some? && db.conversations[c].product.value in db.products
           && !db.products[db.conversations[c].product.value].deleted
           && (scope.Sell? <==> db.products[db.conversations[c].product.value].owner == u)))
  }

  ghost predicate Between(db: Db, c: nat, u: nat, v: nat) {
    u != v && IsParticipant(db, c, u) && IsParticipant(db, c, v)
  }

  /** The two users' conversation, its messages and its read marks are the same in both states. */
  ghost predicate SameBetween(db: Db, after: Db, u: nat, v: nat) {
    forall c :: Between(db, c, u, v) || Between(after, c, u, v) ==>
      && c in db.conversations && c in after.conversations && after.conversations[c] == db.conversations[c]
      && forall m: nat :: InConversation(db, m, c) || InConversation(after, m, c) ==>
           m in db.messages && m in after.messages && after.messages[m] == db.messages[m]
  }

  /** Changing one conversation that is not theirs, or adding one, leaves two users' conversation alone. */
  lemma OtherConversation(db: Db, after: Db, c: nat, x: nat, y: nat)
    requires after.messages == db.messages
    requires c in after.conversations && after.conversations == db.conversations[c := after.conversations[c]]
    requires !Between(db, c, x, y) && !Between(after, c, x, y)
    ensures SameBetween(db, after, x, y)
  {
  }

  lemma CreateFrozen(db: Db, u: nat, v: nat, product: Option<nat>, x: nat, y: nat)
    requires Sound(db) && Blocked(db, x, y)
    ensures SameBetween(db, GetOrCreate(db, u, v, product).0, x, y)
  {
    var (after, outcome) := GetOrCreate(db, u, v, product);
    if u != v && outcome.Done? && after != db {
      var a, b := if u < v then u else v, if u < v then v else u;
      var c := outcome.id;
      assert HasPair(after.conversations[c], a, b);
      OtherConversation(db, after, c, x, y);
    }
  }

  lemma SendFrozen(db: Db, u: nat, c: nat, text: string, x: nat, y: nat)
    requires Sound(db) && Blocked(db, x, y)
    ensures SameBetween(db, SendMessage(db, u, c, text).0, x, y)
  {
    var after := SendMessage(db, u, c, text).0;
    if SendMessage(db, u, c, text).1.Done? {
      SendIsSent(db, u, c, text);
      SentElsewhere(db, after, c, db.nextMessage, Message(c, u, text, db.now, None), x, y);
    }
  }

  lemma SentElsewhere(db: Db, after: Db, c: nat, m: nat, row: Message, x: nat, y: nat)
    requires Sent(db, after, c, m, row) && !Between(db, c, x, y)
    ensures SameBetween(db, after, x, y)
  {
  }

  lemma ReadFrozen(db: Db, u: nat, m: nat, x: nat, y: nat)
    requires Sound(db) && Blocked(db, x, y)
    ensures SameBetween(db, MarkRead(db, u, m).0, x, y)
  {
    var after := MarkRead(db, u, m).0;
    if MarkRead(db, u, m).1.Done? {
      assert !Between(db, db.messages[m].conversation, x, y);
    }
  }

  lemma RequestFrozen(db: Db, q: Request, x: nat, y: nat)
    requires Sound(db) && Blocked(db, x, y)
    ensures SameBetween(db, Apply(db, q), x, y)
  {
    match q
    case Create(u, v, product) => CreateFrozen(db, u, v, product, x, y);
    case Send(u, c, text) => SendFrozen(db, u, c, text, x, y);
    case Read(u, m) => ReadFrozen(db, u, m, x, y);
    case _ => SameConversationsFrozen(db, Apply(db, q), x, y);
  }

  lemma SameConversationsFrozen(db: Db, after: Db, x: nat, y: nat)
    requires after.conversations == db.conversations && after.messages == db.messages
    ensures SameBetween(db, after, x, y)
  {
  }

  lemma SendKeepsSound(db: Db, u: nat, c: nat, text: string)
    requires Sound(db)
    ensures Sound(SendMessage(db, u, c, text).0)
  {
    if SendMessage(db, u, c, text).1.Done? {
      InsertMessageKeeps(db, c, u, text);
      SetLastKeeps(InsertMessage(db, c, u, text), c, db.nextMessage);
    }
  }

  lemma CreateKeepsSound(db: Db, u: nat, v: nat, product: Option<nat>)
    requires Sound(db)
    ensures Sound(GetOrCreate(db, u, v, product).0)
  {
    var a, b := if u < v then u else v, if u < v then v else u;
    CreateOutcomes(db, u, v, product);
    if u != v && PairTaken(db, a, b) && product.Some? {
      SetProductKeeps(db, PairOf(db, a, b), product.value);
    } else if u != v && !PairTaken(db, a, b) {
      InsertConversationKeeps(db, a, b, product);
    }
  }

  lemma ReadKeepsSound(db: Db, u: nat, m: nat)
    requires Sound(db)
    ensures Sound(MarkRead(db, u, m).0)
  {
    if MarkRead(db, u, m).1.Done? {
      assert MarkRead(db, u, m).0 == SetRead(db, m);
      SetReadKeeps(db, m);
    }
  }

  lemma OtherKeepsSound(db: Db, after: Db)
    requires Sound(db) && after.conversations == db.conversations && after.messages == db.messages
    requires after.nextConversation == db.nextConversation && after.nextMessage == db.nextMessage && db.now <= after.now
    ensures Sound(after)
  {
  }

  lemma RequestKeepsSound(db: Db, q: Request)
    requires Sound(db)
    ensures Sound(Apply(db, q))
  {
    match q
    case Create(u, v, product) => CreateKeepsSound(db, u, v, product);
    case Send(u, c, text) => SendKeepsSound(db, u, c, text);
    case Read(u, m) => ReadKeepsSound(db, u, m);
    case _ => OtherKeepsSound(db, Apply(db, q));
  }

  /** Some block between the two users stands before every request of the run. */
  ghost predicate BlockedThroughout(db: Db, requests: seq<Request>, u: nat, v: nat)
    decreases |requests|
  {
    Blocked(db, u, v) && (requests != [] ==> BlockedThroughout(Apply(db, requests[0]), requests[1..], u, v))
  }

  /** While any block between two users stands, no sequential run creates their conversation, adds or marks a message in
      it, attaches a product to it, or lists it for either of them. */
  lemma {:induction false} BlockFreezes(db: Db, requests: seq<Request>, u: nat, v: nat)
    requires Sound(db) && BlockedThroughout(db, requests, u, v)
    ensures SameBetween(db, Run(db, requests), u, v)
    ensures forall c, scope :: Between(Run(db, requests), c, u, v) ==>
              !Listed(Run(db, requests), u, c, scope) && !Listed(Run(db, requests), v, c, scope)
    decreases |requests|
  {
    if requests != [] {
      RequestFrozen(db, requests[0], u, v);
      RequestKeepsSound(db, requests[0]);
      BlockFreezes(Apply(db, requests[0]), requests[1..], u, v);
      SameBetweenTransitive(db, Apply(db, requests[0]), Run(db, requests), u, v);
    }
  }

  lemma SameBetweenTransitive(a: Db, b: Db, c: Db, u: nat, v: nat)
    requires SameBetween(a, b, u, v) && SameBetween(b, c, u, v)
    ensures SameBetween(a, c, u, v)
  {
    forall d | Between(a, d, u, v) || Between(c, d, u, v)
      ensures d in a.conversations && d in c.conversations && c.conversations[d] == a.conversations[d]
      ensures forall m: nat :: InConversation(a, m, d) || InConversation(c, m, d) ==>
                m in a.messages && m in c.messages && c.messages[m] == a.messages[m]
    {
      assert Between(b, d, u, v);
      forall m | InConversation(a, m, d) || InConversation(c, m, d)
        ensures m in a.messages && m in c.messages && c.messages[m] == a.messages[m]
      {
        assert InConversation(b, m, d);
      }
    }
  }

  /** Unblocking ends the freeze exactly when no block is left: the conversation is listed again for both. */
  lemma ListedAgain(db: Db, u: nat, v: nat, c: nat)
    requires Sound(db) && Between(db, c, u, v)
    ensures var after := RemoveBlock(db, u, v);
            && (Listed(after, u, c, All) <==> (v, u) !in db.blocks)
            && (Listed(after, v, c, All) <==> (v, u) !in db.blocks)
            && (Assert(after, c, u).None? <==> (v, u) !in db.blocks)
  {
  }
}
