/**
 The chat tables, one function per SQL statement that the chat and block services send, and what every order of
 those statements keeps.
 */
module ChatTables {
  import opened Common

  /** product is product_id, last is last_message_id. */
  datatype Conversation = Conversation(a: nat, b: nat, product: Option<nat>, last: Option<nat>, createdAt: int)

  datatype Message = Message(conversation: nat, sender: nat, text: string, sentAt: int, readAt: Option<int>)

  datatype Product = Product(owner: nat, available: bool, deleted: bool)

  /** `users` are the accounts that are not deleted; a block is (blocker, blocked). */
  datatype Db = Db(users: set<nat>, products: map<nat, Product>, conversations: map<nat, Conversation>,
                   messages: map<nat, Message>, blocks: set<(nat, nat)>, nextConversation: nat, nextMessage: nat,
                   now: int)

  const EMPTY_DB: Db := Db({}, map[], map[], map[], {}, 1, 1, 0)

  // ----- Reading -----

  predicate Blocked(db: Db, u: nat, v: nat) {
    (u, v) in db.blocks || (v, u) in db.blocks
  }

  predicate IsParticipant(db: Db, c: nat, u: nat) {
    c in db.conversations && (db.conversations[c].a == u || db.conversations[c].b == u)
  }

  function Peer(db: Db, c: nat, u: nat): nat
    requires c in db.conversations
  {
    if db.conversations[c].a == u then db.conversations[c].b else db.conversations[c].a
  }

  datatype Denial = NotFound | NotParticipant | ConversationBlocked

  /** assertConversationParticipant.  Participants never change, so reading them and the blocks is one step. */
  function Assert(db: Db, c: nat, u: nat): Option<Denial> {
    if c !in db.conversations then Some(NotFound)
    else if !IsParticipant(db, c, u) then Some(NotParticipant)
    else if Blocked(db, u, Peer(db, c, u)) then Some(ConversationBlocked)
    else None
  }

  /** What a request answers. */
  datatype Outcome =
    | Done(id: nat)
    | SelfConversation | ParticipantNotFound | ProductNotFound | ProductUnavailable
    | Denied(why: Denial)
    | MessageNotFound | OwnMessage | BlankText | SelfBlock | UserNotFound

  /** Why a product cannot be attached to a conversation of u and v. */
  function ProductProblem(db: Db, product: Option<nat>, u: nat, v: nat): Option<Outcome> {
    if product.None? then None
    else if product.value !in db.products || db.products[product.value].deleted then Some(ProductNotFound)
    else
      var row := db.products[product.value];
      if !row.available && row.owner != u && row.owner != v then Some(ProductUnavailable) else None
  }

  predicate HasPair(conv: Conversation, a: nat, b: nat) {
    conv.a == a && conv.b == b
  }

  predicate PairTaken(db: Db, a: nat, b: nat) {
    exists c :: c in db.conversations && HasPair(db.conversations[c], a, b)
  }

  // ----- Writing -----

  /** BTRIM strips spaces; a text of nothing else violates the CHECK. */
  predicate IsBlank(text: string) {
    forall i :: 0 <= i < |text| ==> text[i] == ' '
  }

  function InsertMessage(db: Db, c: nat, u: nat, text: string): Db {
    db.(messages := db.messages[db.nextMessage := Message(c, u, text, db.now, None)], nextMessage := db.nextMessage + 1)
  }

  function SetLast(db: Db, c: nat, m: nat): Db {
    if c in db.conversations
    then db.(conversations := db.conversations[c := db.conversations[c].(last := Some(m))]) else db
  }

  /** SET read_at = COALESCE(read_at, NOW()). */
  function SetRead(db: Db, m: nat): Db {
    if m in db.messages
    then db.(messages := db.messages[m := db.messages[m].(readAt := Some(db.messages[m].readAt.GetOr(db.now)))]) else db
  }

  predicate CanInsertConversation(db: Db, a: nat, b: nat) {
    a < b && !PairTaken(db, a, b)
  }

  function InsertConversation(db: Db, a: nat, b: nat, product: Option<nat>): Db {
    db.(conversations := db.conversations[db.nextConversation := Conversation(a, b, product, None, db.now)],
        nextConversation := db.nextConversation + 1)
  }

  function SetProduct(db: Db, c: nat, product: nat): Db {
    if c in db.conversations
    then db.(conversations := db.conversations[c := db.conversations[c].(product := Some(product))]) else db
  }

  function AddBlock(db: Db, u: nat, v: nat): Db {
    if u != v && v in db.users then db.(blocks := db.blocks + {(u, v)}) else db
  }

  function RemoveBlock(db: Db, u: nat, v: nat): Db {
    db.(blocks := db.blocks - {(u, v)})
  }

  // ----- What every statement keeps -----

  /** Ordered pairs, one conversation per pair, senders who take part, and a last message of the same conversation. */
  ghost predicate Sound(db: Db) {
    && (forall c :: c in db.conversations ==>
          c < db.nextConversation && db.conversations[c].a < db.conversations[c].b)
    && (forall c, d :: c in db.conversations && d in db.conversations && c != d ==>
          !HasPair(db.conversations[d], db.conversations[c].a, db.conversations[c].b))
    && (forall m :: m in db.messages ==>
          && m < db.nextMessage && db.messages[m].sentAt <= db.now
          && IsParticipant(db, db.messages[m].conversation, db.messages[m].sender))
    && (forall c :: c in db.conversations && db.conversations[c].last.Some? ==>
          db.conversations[c].last.value in db.messages
          && db.messages[db.conversations[c].last.value].conversation == c)
  }

  /** Nothing is deleted, participants and message contents are fixed, and a read mark, once set, stays. */
  ghost predicate Grows(db: Db, after: Db) {
    && db.now <= after.now
    && (forall c :: c in db.conversations ==>
          c in after.conversations && HasPair(after.conversations[c], db.conversations[c].a, db.conversations[c].b))
    && (forall m :: m in db.messages ==>
          && m in after.messages
          && after.messages[m].(readAt := None) == db.messages[m].(readAt := None)
          && (db.messages[m].readAt.Some? ==> after.messages[m].readAt == db.messages[m].readAt))
  }

  lemma GrowsTransitive(a: Db, b: Db, c: Db)
    requires Grows(a, b) && Grows(b, c)
    ensures Grows(a, c)
  {
    forall m | m in a.messages
      ensures m in c.messages && c.messages[m].(readAt := None) == a.messages[m].(readAt := None)
      ensures a.messages[m].readAt.Some? ==> c.messages[m].readAt == a.messages[m].readAt
    {
      assert b.messages[m].(readAt := None) == a.messages[m].(readAt := None);
    }
  }

  lemma InsertMessageKeeps(db: Db, c: nat, u: nat, text: string)
    requires Sound(db) && IsParticipant(db, c, u)
    ensures Sound(InsertMessage(db, c, u, text)) && Grows(db, InsertMessage(db, c, u, text))
  {
  }

  lemma SetLastKeeps(db: Db, c: nat, m: nat)
    requires Sound(db) && m in db.messages && db.messages[m].conversation == c
    ensures Sound(SetLast(db, c, m)) && Grows(db, SetLast(db, c, m))
  {
  }

  lemma SetReadKeeps(db: Db, m: nat)
    requires Sound(db)
    ensures Sound(SetRead(db, m)) && Grows(db, SetRead(db, m))
  {
  }

  lemma InsertConversationKeeps(db: Db, a: nat, b: nat, product: Option<nat>)
    requires Sound(db) && CanInsertConversation(db, a, b)
    ensures Sound(InsertConversation(db, a, b, product)) && Grows(db, InsertConversation(db, a, b, product))
  {
    assert forall c :: c in db.conversations ==> !HasPair(db.conversations[c], a, b);
    var after := InsertConversation(db, a, b, product);
    forall c, d | c in after.conversations && d in after.conversations && c != d
      ensures !HasPair(after.conversations[d], after.conversations[c].a, after.conversations[c].b)
    {
      if c != db.nextConversation && d != db.nextConversation {
        assert !HasPair(db.conversations[d], db.conversations[c].a, db.conversations[c].b);
      } else if c != db.nextConversation {
        assert !HasPair(db.conversations[c], a, b);
      }
    }
  }

  lemma SetProductKeeps(db: Db, c: nat, product: nat)
    requires Sound(db)
    ensures Sound(SetProduct(db, c, product)) && Grows(db, SetProduct(db, c, product))
  {
  }

  /** Sound tables hold at most one conversation for two users, whichever way round they are named. */
  lemma OneConversationPerPair(db: Db, c: nat, d: nat, u: nat, v: nat)
    requires Sound(db) && u != v
    requires IsParticipant(db, c, u) && IsParticipant(db, c, v) && IsParticipant(db, d, u) && IsParticipant(db, d, v)
    ensures c == d
  {
    assert HasPair(db.conversations[d], db.conversations[c].a, db.conversations[c].b);
  }
}
