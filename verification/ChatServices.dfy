/**
 The chat and block services updating their tables in place, and the socket registry.  Each service method runs one
 whole request and is proved to do what that request does on the tables.
 */
module ChatServices {
  import opened Common
  import opened ChatTables
  import ChatEffects
  import ChatRequests
  import opened MessagePages

  class ChatService {
    var users: set<nat>
    var products: map<nat, Product>
    var conversations: map<nat, Conversation>
    var messages: map<nat, Message>
    var blocks: set<(nat, nat)>
    var nextConversation: nat
    var nextMessage: nat
    var now: int

    function At(): Db
      reads this
    {
      Db(users, products, conversations, messages, blocks, nextConversation, nextMessage, now)
    }

    constructor ()
      ensures At() == EMPTY_DB && ChatRequests.Current(At())
    {
      users, products, conversations, messages, blocks := {}, map[], map[], map[], {};
      nextConversation, nextMessage, now := 1, 1, 0;
    }

    method GetOrCreateConversation(userId: nat, participantId: nat, productId: Option<nat>) returns (outcome: Outcome)
      requires Sound(At())
      modifies this
      ensures (At(), outcome) == ChatRequests.GetOrCreate(old(At()), userId, participantId, productId)
      ensures if outcome.Done? then ChatEffects.Opened(old(At()), At(), outcome.id, userId, participantId, productId)
              else At() == old(At())
    {
      ChatEffects.CreateOpens(At(), userId, participantId, productId);
      if userId == participantId { return SelfConversation; }
      if participantId !in users { return ParticipantNotFound; }
      if Blocked(At(), userId, participantId) { return Denied(ConversationBlocked); }
      var userAId, userBId := participantId, userId;
      if userId < participantId { userAId, userBId := userId, participantId; }
      if productId.Some? {
        if productId.value !in products || products[productId.value].deleted { return ProductNotFound; }
        var ownerId := products[productId.value].owner;
        if !products[productId.value].available && ownerId != userId && ownerId != participantId {
          return ProductUnavailable;
        }
      }
      if exists c :: c in conversations && HasPair(conversations[c], userAId, userBId) {
        var c :| c in conversations && HasPair(conversations[c], userAId, userBId);
        assert c == ChatRequests.PairOf(At(), userAId, userBId);
        if productId.Some? && conversations[c].product.None? {
          conversations := conversations[c := conversations[c].(product := productId)];
        }
        return Done(c);
      }
      var id := nextConversation;
      conversations := conversations[id := Conversation(userAId, userBId, productId, None, now)];
      nextConversation := nextConversation + 1;
      return Done(id);
    }

    method AssertConversationParticipant(conversationId: nat, userId: nat) returns (denial: Option<Denial>)
      ensures denial == Assert(At(), conversationId, userId)
    {
      if conversationId !in conversations { return Some(NotFound); }
      var conversation := conversations[conversationId];
      if conversation.a != userId && conversation.b != userId { return Some(NotParticipant); }
      var otherUserId := if conversation.a == userId then conversation.b else conversation.a;
      if (userId, otherUserId) in blocks || (otherUserId, userId) in blocks { return Some(ConversationBlocked); }
      return None;
    }

    ghost function RowsOf(c: nat): set<Row>
      reads this
    {
      set m | m in messages && messages[m].conversation == c :: Row(m, messages[m].sentAt)
    }

    /** One page of a conversation, newest first, for a participant only. */
    method ListMessages(userId: nat, conversationId: nat, limit: nat, before: Option<int>)
      returns (denial: Option<Denial>, page: seq<Row>)
      ensures denial == Assert(At(), conversationId, userId)
      ensures denial.None? ==> IsPage(RowsOf(conversationId), before, limit, page)
      ensures denial.Some? ==> page == []
    {
      page := [];
      denial := AssertConversationParticipant(conversationId, userId);
      if denial.None? {
        var rows := set m | m in messages && messages[m].conversation == conversationId :: Row(m, messages[m].sentAt);
        page := TakePage(rows, before, limit);
      }
    }

    method SendMessage(userId: nat, conversationId: nat, text: string) returns (outcome: Outcome)
      modifies this
      ensures (At(), outcome) == ChatRequests.SendMessage(old(At()), userId, conversationId, text)
    {
      var denial := AssertConversationParticipant(conversationId, userId);
      if denial.Some? { return Denied(denial.value); }
      if IsBlank(text) { return BlankText; }
      var messageId := nextMessage;
      messages := messages[messageId := Message(conversationId, userId, text, now, None)];
      nextMessage := nextMessage + 1;
      conversations := conversations[conversationId := conversations[conversationId].(last := Some(messageId))];
      return Done(messageId);
    }

    method MarkRead(userId: nat, messageId: nat) returns (outcome: Outcome)
      modifies this
      ensures (At(), outcome) == ChatRequests.MarkRead(old(At()), userId, messageId)
    {
      if messageId !in messages { return MessageNotFound; }
      var denial := AssertConversationParticipant(messages[messageId].conversation, userId);
      if denial.Some? { return Denied(denial.value); }
      if messages[messageId].sender == userId { return OwnMessage; }
      messages := messages[messageId := messages[messageId].(readAt := Some(messages[messageId].readAt.GetOr(now)))];
      return Done(messageId);
    }

    method BlockUser(userId: nat, blockedUserId: nat) returns (outcome: Outcome)
      modifies this`blocks
      ensures (At(), outcome) == ChatRequests.BlockUser(old(At()), userId, blockedUserId)
    {
      if userId == blockedUserId { return SelfBlock; }
      if blockedUserId !in users { return UserNotFound; }
      blocks := blocks + {(userId, blockedUserId)};
      return Done(blockedUserId);
    }

    /** Takes back this direction only: the two users' conversation is open to both of them again exactly when the other
        direction is not blocked, and no other pair of users is affected. */
    method UnblockUser(userId: nat, blockedUserId: nat)
      modifies this`blocks
      ensures At() == RemoveBlock(old(At()), userId, blockedUserId)
      ensures forall c :: ChatRequests.Between(At(), c, userId, blockedUserId) ==>
                && (Assert(At(), c, userId).None? <==> (blockedUserId, userId) !in old(blocks))
                && (Assert(At(), c, blockedUserId).None? <==> (blockedUserId, userId) !in old(blocks))
      ensures forall u: nat, v: nat :: {u, v} != {userId, blockedUserId} ==>
              (Blocked(At(), u, v) <==> Blocked(old(At()), u, v))
    {
      blocks := blocks - {(userId, blockedUserId)};
      OthersStayBlocked(old(At()), userId, blockedUserId);
    }
  }

  lemma OthersStayBlocked(db: Db, x: nat, y: nat)
    ensures forall u: nat, v: nat :: {u, v} != {x, y} ==> (Blocked(RemoveBlock(db, x, y), u, v) <==> Blocked(db, u, v))
  {
    forall u: nat, v: nat | {u, v} != {x, y} ensures Blocked(RemoveBlock(db, x, y), u, v) <==> Blocked(db, u, v) {
      assert (u == x && v == y) || (u == y && v == x) ==> {u, v} == {x, y};
    }
  }
}
