/**
 * MessagesManager.py: the name of an assistant's language model, creating a message through the
 * retrieval-augmented chat chain, reading one message, and deleting messages.
 */
module Messages {
  import opened Wrappers
  import opened Models
  import opened Store
  import Conversations

  /** `uri.split('/')[-1]`: the text after the last '/', or all of it when there is none. */
  function LastSegment(uri: string): (r: string)
    ensures '/' !in r
    ensures |r| <= |uri| && r == uri[|uri| - |r|..]
    ensures |r| < |uri| ==> uri[|uri| - |r| - 1] == '/'
  {
    if uri == [] then []
    else if uri[|uri| - 1] == '/' then []
    else
      var init := uri[..|uri| - 1];
      var r := LastSegment(init);
      assert uri[|uri| - |r| - 1..] == init[|init| - |r|..] + [uri[|uri| - 1]];
      r + [uri[|uri| - 1]]
  }

  /** Text without a '/' is its own last segment. */
  lemma {:induction false} LastSegmentNoSlash(s: string)
    requires '/' !in s
    ensures LastSegment(s) == s
  {
    if s != [] {
      assert '/' !in s[..|s| - 1] by {
        forall c | c in s[..|s| - 1] ensures c in s { }
      }
      LastSegmentNoSlash(s[..|s| - 1]);
      assert s == s[..|s| - 1] + [s[|s| - 1]];
    }
  }

  /** The last segment is what follows the last '/'. */
  lemma LastSegmentAfterSlash(prefix: string, s: string)
    requires '/' !in s
    ensures LastSegment(prefix + "/" + s) == s
  {
    var uri := prefix + "/" + s;
    var r := LastSegment(uri);
    LastSegmentNoSlash(s);
    assert uri[|uri| - |s|..] == s;
  }

  /** `extract_names_from_uri` applied to a last segment (MessagesManager.py line 47) changes nothing. */
  lemma LastSegmentIdempotent(uri: string)
    ensures LastSegment(LastSegment(uri)) == LastSegment(uri)
  {
    LastSegmentNoSlash(LastSegment(uri));
  }

  /** A pair `(value, error)` as `__get_llm_name__` and `create_message` return it. */
  datatype Reply = Reply(value: Option<string>, error: Option<string>)

  const AssistantNotFound := "Assistant not found"
  const LlmNotFound := "LLM resource not found"

  /** The resource a nullable id names: `Resource.id == None` is `id IS NULL`, which no primary key meets. */
  function ResourceNamed(resources: seq<Resource>, id: Option<string>): Lookup<Resource> {
    match id
    case None => NoRow
    case Some(k) => ScalarOneOrNone(resources, KeyIs(ResourceId, k))
  }

  /**
   * `__get_llm_name__` (MessagesManager.py lines 35-47): the assistant resource, then the resource its
   * `resource_llm_id` names, then the last segment of that resource's URI; either lookup raises when
   * it meets more than one row.
   */
  function GetLlmName(resources: seq<Resource>, assistantId: string): (r: Outcome<Reply>)
    ensures r.Ok? ==> (r.value.value.Some? <==> r.value.error.None?)
    ensures r.Ok? && r.value.error.Some? ==> r.value.error.value in [AssistantNotFound, LlmNotFound]
    ensures r.Ok? && r.value.value.Some? ==> '/' !in r.value.value.value
    ensures r == Ok(Reply(None, Some(AssistantNotFound))) <==> !HasKey(resources, ResourceId, assistantId)
  {
    KeyLookupNoRow(resources, ResourceId, assistantId);
    match ScalarOutcome(ScalarOneOrNone(resources, KeyIs(ResourceId, assistantId)))
    case Raised(e) => Raised(e)
    case Ok(None) => Ok(Reply(None, Some(AssistantNotFound)))
    case Ok(Some(assistant)) =>
      match ScalarOutcome(ResourceNamed(resources, assistant.resourceLlmId))
      case Raised(e) => Raised(e)
      case Ok(None) => Ok(Reply(None, Some(LlmNotFound)))
      case Ok(Some(llm)) => Ok(Reply(Some(LastSegment(LastSegment(llm.uri))), None))
  }

  /**
   * On a keyed resource table the lookup never raises, and the name is the last segment of the
   * URI of the resource that the assistant's `resource_llm_id` names.
   */
  lemma GetLlmNameKeyed(resources: seq<Resource>, assistant: Resource)
    requires Unique(resources, ResourceId) && assistant in resources
    ensures var r := GetLlmName(resources, assistant.id);
      var llmId := assistant.resourceLlmId;
      r.Ok? &&
      (r.value.error == Some(LlmNotFound) <==> llmId.None? || !HasKey(resources, ResourceId, llmId.value)) &&
      (forall llm :: llm in resources && Some(llm.id) == llmId ==> r.value == Reply(Some(LastSegment(llm.uri)), None))
  {
    var lookup := ScalarOneOrNone(resources, KeyIs(ResourceId, assistant.id));
    UniqueKeyLookup(resources, ResourceId, assistant.id);
    KeyLookupNoRow(resources, ResourceId, assistant.id);
    assert lookup.OneRow? by {
      var i :| 0 <= i < |resources| && resources[i] == assistant;
    }
    UniqueKeyFilter(resources, ResourceId, assistant.id);
    assert lookup.row == assistant by {
      assert assistant in Filter(resources, KeyIs(ResourceId, assistant.id));
    }
    var llmId := assistant.resourceLlmId;
    if llmId.Some? {
      var k := llmId.value;
      UniqueKeyLookup(resources, ResourceId, k);
      KeyLookupNoRow(resources, ResourceId, k);
      UniqueKeyFilter(resources, ResourceId, k);
      forall llm | llm in resources && llm.id == k
        ensures GetLlmName(resources, assistant.id).value == Reply(Some(LastSegment(llm.uri)), None)
      {
        assert llm in Filter(resources, KeyIs(ResourceId, k));
        LastSegmentIdempotent(llm.uri);
      }
    }
  }

  /** The fields of a `MessageCreateSchema` that `create_message` reads. */
  datatype MessageRequest = MessageRequest(
    assistantId: string, conversationId: Option<string>, prompt: string, voiceActive: string)

  /**
   * The retrieval-augmented chat chain (`RagManager.retrieve_and_generate_chat_context`): from the
   * assistant id, the prompt, the model name and the session id, the answer text or an exception.
   */
  type Chain = (string, string, string, string) -> Outcome<string>

  /** The session id of a message sent outside any conversation (line 91). */
  const TestingSession := "testing_session"

  const ConversationNotFound := "Conversation not found"

  const UnexpectedPrefix := "An unexpected error occurred while creating a message: "

  /** `str(e)`; texts the model does not carry are shortened to the exception's class name. */
  function ErrorText(e: Exception): string {
    match e
    case KeyError(key) => "'" + key + "'"
    case RuntimeError(message) => message
    case AttributeError(_) => "AttributeError"
    case MultipleResultsFound => "MultipleResultsFound"
    case Base64Error => "Error"
    case JsonDecodeError => "JSONDecodeError"
    case IntegrityError => "IntegrityError"
    case TypeError => "TypeError"
  }

  /** What `create_message` returns, and the message it saves, if any. */
  datatype Created = Created(reply: Reply, saved: Option<Message>)

  /** The handler of lines 95-96: any exception becomes an error reply. */
  function Unexpected(e: Exception): Created {
    Created(Reply(None, Some(UnexpectedPrefix + ErrorText(e))), None)
  }

  /** `if conversation_id:`: the id is given and not empty. */
  predicate Given(id: Option<string>) {
    id.Some? && id.value != ""
  }

  /**
   * `create_message` (MessagesManager.py lines 52-96). The conversation is looked up first, then
   * the language model's name; the chain runs under the conversation id, or under the testing
   * session when there is none. Only a message in a conversation is saved, under `newId` and with
   * the `now` timestamp; its id is the reply. Without a conversation the reply is the answer.
   */
  function CreateMessageOf(conversations: seq<Conversation>, resources: seq<Resource>, messages: seq<Message>,
                           request: MessageRequest, now: string, newId: string, chain: Chain): (c: Created)
    ensures c.reply.error.Some? <==> c.reply.value.None?
    ensures c.reply.error.Some? ==>
      c.reply.error.value in [ConversationNotFound, AssistantNotFound, LlmNotFound] ||
      UnexpectedPrefix <= c.reply.error.value
    ensures c.saved.Some? <==> Given(request.conversationId) && c.reply.error.None?
    ensures c.saved.Some? ==>
      c.reply.value == Some(newId) && !HasKey(messages, MessageId, newId) &&
      c.saved.value == Message(newId, request.assistantId, request.conversationId, now, request.prompt,
                               c.saved.value.chatResponse, request.voiceActive)
  {
    var id := request.conversationId;
    var found := if Given(id) then ScalarOutcome(ScalarOneOrNone(conversations, KeyIs(ConversationId, id.value)))
                 else Ok(None);
    if found.Raised? then Unexpected(found.error)
    else if Given(id) && found.value.None? then Created(Reply(None, Some(ConversationNotFound)), None)
    else Answered(resources, messages, request, now, newId, chain)
  }

  /** `create_message` once the conversation, if any, is found (lines 67-93). */
  function Answered(resources: seq<Resource>, messages: seq<Message>, request: MessageRequest, now: string,
                    newId: string, chain: Chain): (c: Created)
    ensures c.reply.error.Some? <==> c.reply.value.None?
    ensures c.reply.error.Some? ==>
      c.reply.error.value in [AssistantNotFound, LlmNotFound] || UnexpectedPrefix <= c.reply.error.value
    ensures c.saved.Some? <==> Given(request.conversationId) && c.reply.error.None?
    ensures c.saved.Some? ==>
      c.reply.value == Some(newId) && !HasKey(messages, MessageId, newId) &&
      c.saved.value == Message(newId, request.assistantId, request.conversationId, now, request.prompt,
                               c.saved.value.chatResponse, request.voiceActive)
  {
    match GetLlmName(resources, request.assistantId)
    case Raised(e) => Unexpected(e)
    case Ok(Reply(name, error)) =>
      if error.Some? then Created(Reply(None, error), None)
      else
        var id := request.conversationId;
        var session := if Given(id) then id.value else TestingSession;
        match chain(request.assistantId, request.prompt, name.value, session)
        case Raised(e) => Unexpected(e)
        case Ok(answer) =>
          if !Given(id) then Created(Reply(Some(answer), None), None)
          else Saved(messages, request, now, newId, answer)
  }

  /** `save_message` as `create_message` sees it (lines 85-89): the new message and its id, or the commit's exception. */
  function Saved(messages: seq<Message>, request: MessageRequest, now: string, newId: string, answer: string): (c: Created)
    ensures c.saved.Some? <==> !HasKey(messages, MessageId, newId)
    ensures c.saved.Some? ==>
      c.reply == Reply(Some(newId), None) &&
      c.saved.value == Message(newId, request.assistantId, request.conversationId, now, request.prompt, answer,
                               request.voiceActive)
    ensures c.saved.None? ==> c.reply.value.None? && c.reply.error.Some? && UnexpectedPrefix <= c.reply.error.value
  {
    if HasKey(messages, MessageId, newId) then Unexpected(IntegrityError)
    else
      var m := Message(newId, request.assistantId, request.conversationId, now, request.prompt, answer,
                       request.voiceActive);
      Created(Reply(Some(newId), None), Some(m))
  }

  /** An unknown conversation is reported before the assistant is looked up: nothing else matters. */
  lemma UnknownConversationFirst(conversations: seq<Conversation>, resources: seq<Resource>, messages: seq<Message>,
                                 request: MessageRequest, now: string, newId: string, chain: Chain)
    requires Given(request.conversationId)
    requires !HasKey(conversations, ConversationId, request.conversationId.value)
    ensures CreateMessageOf(conversations, resources, messages, request, now, newId, chain) ==
      Created(Reply(None, Some(ConversationNotFound)), None)
  {
    KeyLookupNoRow(conversations, ConversationId, request.conversationId.value);
  }

  /** In a known conversation, or outside any, an error of the name lookup is returned unchanged. */
  lemma LlmErrorReturned(conversations: seq<Conversation>, resources: seq<Resource>, messages: seq<Message>,
                         request: MessageRequest, now: string, newId: string, chain: Chain, error: string)
    requires Unique(conversations, ConversationId)
    requires Given(request.conversationId) ==> HasKey(conversations, ConversationId, request.conversationId.value)
    requires GetLlmName(resources, request.assistantId) == Ok(Reply(None, Some(error)))
    ensures CreateMessageOf(conversations, resources, messages, request, now, newId, chain) ==
      Created(Reply(None, Some(error)), None)
  {
    if Given(request.conversationId) {
      UniqueKeyLookup(conversations, ConversationId, request.conversationId.value);
      KeyLookupNoRow(conversations, ConversationId, request.conversationId.value);
    }
  }

  /** In a known conversation the answer is saved as one message under the new id, which is the reply. */
  lemma AnswerSaved(conversations: seq<Conversation>, resources: seq<Resource>, messages: seq<Message>,
                    request: MessageRequest, now: string, newId: string, chain: Chain, model: string, answer: string)
    requires Unique(conversations, ConversationId)
    requires Given(request.conversationId) && HasKey(conversations, ConversationId, request.conversationId.value)
    requires GetLlmName(resources, request.assistantId) == Ok(Reply(Some(model), None))
    requires chain(request.assistantId, request.prompt, model, request.conversationId.value) == Ok(answer)
    requires !HasKey(messages, MessageId, newId)
    ensures CreateMessageOf(conversations, resources, messages, request, now, newId, chain) ==
      Created(Reply(Some(newId), None),
              Some(Message(newId, request.assistantId, request.conversationId, now, request.prompt, answer,
                           request.voiceActive)))
  {
    UniqueKeyLookup(conversations, ConversationId, request.conversationId.value);
    KeyLookupNoRow(conversations, ConversationId, request.conversationId.value);
  }

  /** Outside a conversation the answer of the testing session is the reply and nothing is saved. */
  lemma AnswerReturned(conversations: seq<Conversation>, resources: seq<Resource>, messages: seq<Message>,
                       request: MessageRequest, now: string, newId: string, chain: Chain, model: string, answer: string)
    requires !Given(request.conversationId)
    requires GetLlmName(resources, request.assistantId) == Ok(Reply(Some(model), None))
    requires chain(request.assistantId, request.prompt, model, TestingSession) == Ok(answer)
    ensures CreateMessageOf(conversations, resources, messages, request, now, newId, chain) ==
      Created(Reply(Some(answer), None), None)
  {
  }

  /**
   * `create_message` on the database: the reply of `CreateMessageOf`, and the message table grows
   * by the message it saves. The conversation's `last_updated_timestamp` is set only on an object
   * of a session that is never committed, so no table changes for it.
   */
  method CreateMessage(db: Database, request: MessageRequest, now: string, newId: string, chain: Chain)
    returns (r: Reply)
    modifies db`messages
    ensures var c := CreateMessageOf(db.conversations, db.resources, old(db.messages), request, now, newId, chain);
      r == c.reply && db.messages == old(db.messages) + (if c.saved.Some? then [c.saved.value] else [])
    ensures old(db.Valid()) ==> db.Valid()
  {
    var id := request.conversationId;
    if Given(id) {
      var found := ScalarOutcome(ScalarOneOrNone(db.conversations, KeyIs(ConversationId, id.value)));
      if found.Raised? {
        return Unexpected(found.error).reply;
      }
      if found.value.None? {
        return Reply(None, Some(ConversationNotFound));
      }
    }
    r := AnswerMessage(db, request, now, newId, chain);
  }

  /** `create_message` from line 67 on, once the conversation, if any, is found. */
  method AnswerMessage(db: Database, request: MessageRequest, now: string, newId: string, chain: Chain)
    returns (r: Reply)
    modifies db`messages
    ensures var c := Answered(db.resources, old(db.messages), request, now, newId, chain);
      r == c.reply && db.messages == old(db.messages) + (if c.saved.Some? then [c.saved.value] else [])
    ensures old(db.Valid()) ==> db.Valid()
  {
    ghost var c := Answered(db.resources, db.messages, request, now, newId, chain);
    var id := request.conversationId;
    var named := GetLlmName(db.resources, request.assistantId);
    if named.Raised? {
      assert c == Unexpected(named.error);
      return Unexpected(named.error).reply;
    }
    if named.value.error.Some? {
      assert c == Created(Reply(None, named.value.error), None);
      return Reply(None, named.value.error);
    }
    var session := if Given(id) then id.value else TestingSession;
    var response := chain(request.assistantId, request.prompt, named.value.value.value, session);
    if response.Raised? {
      assert c == Unexpected(response.error);
      return Unexpected(response.error).reply;
    }
    if !Given(id) {
      assert c == Created(Reply(Some(response.value), None), None);
      return Reply(Some(response.value), None);
    }
    assert c == Saved(db.messages, request, now, newId, response.value);
    var m := Message(newId, request.assistantId, id, now, request.prompt, response.value, request.voiceActive);
    var saved := SaveMessage(db, newId, m);
    if saved.Raised? {
      return Unexpected(saved.error).reply;
    }
    return Reply(Some(saved.value), None);
  }

  /**
   * `retrieve_message` (lines 98-112): the message with the id, `None` when there is none, and the
   * exception of `scalar_one_or_none` when there are several.
   */
  function RetrieveMessage(messages: seq<Message>, id: string): (r: Outcome<Option<Message>>)
    ensures r == Ok(None) <==> !HasKey(messages, MessageId, id)
    ensures r.Ok? && r.value.Some? ==> r.value.value in messages && r.value.value.id == id
  {
    KeyLookupNoRow(messages, MessageId, id);
    ScalarOutcome(ScalarOneOrNone(messages, KeyIs(MessageId, id)))
  }

  /** On a keyed table `retrieve_message` never raises, and finds the message exactly when it is stored. */
  lemma RetrieveMessageKeyed(messages: seq<Message>, m: Message)
    requires Unique(messages, MessageId)
    ensures RetrieveMessage(messages, m.id).Ok?
    ensures m in messages ==> RetrieveMessage(messages, m.id) == Ok(Some(m))
  {
    UniqueKeyLookup(messages, MessageId, m.id);
    UniqueKeyFilter(messages, MessageId, m.id);
    if m in messages {
      assert m in Filter(messages, KeyIs(MessageId, m.id));
    }
  }

  function IdIsNot(id: string): Message -> bool {
    (m: Message) => m.id != id
  }

  function IdNotIn(ids: seq<string>): Message -> bool {
    (m: Message) => m.id !in ids
  }

  /** `_delete_message` (lines 131-136): every row with the id goes; the result says whether one did. */
  method DeleteMessage(db: Database, id: string) returns (removed: bool)
    modifies db`messages
    ensures db.messages == Filter(old(db.messages), IdIsNot(id))
    ensures removed <==> HasKey(old(db.messages), MessageId, id)
    ensures old(db.Valid()) ==> db.Valid()
  {
    var before := |db.messages|;
    UniqueFilter(db.messages, MessageId, IdIsNot(id));
    if HasKey(db.messages, MessageId, id) {
      var i :| 0 <= i < |db.messages| && db.messages[i].id == id;
      assert db.messages[i] in db.messages && !IdIsNot(id)(db.messages[i]);
    }
    SetMessages(db, Filter(db.messages, IdIsNot(id)));
    removed := |db.messages| < before;
  }

  /** The ids of the rows, in order. */
  function Ids(rows: seq<Message>): (r: seq<string>)
    ensures |r| == |rows| && forall i :: 0 <= i < |rows| ==> r[i] == rows[i].id
  {
    if rows == [] then [] else [rows[0].id] + Ids(rows[1..])
  }

  predicate Distinct(s: seq<string>) {
    forall i, j :: 0 <= i < j < |s| ==> s[i] != s[j]
  }

  /** Deleting one more id after some others is deleting them all. */
  lemma {:induction false} DeleteOneMore(rows: seq<Message>, done: seq<string>, id: string)
    ensures Filter(Filter(rows, IdNotIn(done)), IdIsNot(id)) == Filter(rows, IdNotIn(done + [id]))
  {
    if rows != [] {
      DeleteOneMore(rows[1..], done, id);
      assert (rows[0].id !in done + [id]) == (rows[0].id !in done && rows[0].id != id);
    }
  }

  /** A stored id is still present exactly when no earlier delete named it. */
  lemma PendingPresent(rows: seq<Message>, done: seq<string>, id: string)
    requires HasKey(rows, MessageId, id)
    ensures HasKey(Filter(rows, IdNotIn(done)), MessageId, id) <==> id !in done
  {
    var rest := Filter(rows, IdNotIn(done));
    if id !in done {
      var i :| 0 <= i < |rows| && rows[i].id == id;
      assert rows[i] in rest;
      var j :| 0 <= j < |rest| && rest[j] == rows[i];
    } else {
      forall j | 0 <= j < |rest| ensures rest[j].id != id {
        assert rest[j] in rest;
      }
    }
  }

  /** Deleting an id deleted before changes nothing. */
  lemma DeleteAgain(rows: seq<Message>, done: seq<string>, id: string)
    requires id in done
    ensures Filter(Filter(rows, IdNotIn(done)), IdIsNot(id)) == Filter(rows, IdNotIn(done))
  {
    var rest := Filter(rows, IdNotIn(done));
    forall m | m in rest ensures IdIsNot(id)(m) { }
    FilterKeepsAll(rest, IdIsNot(id));
  }

  /** A prefix stays distinct while the next id is new, and a repeated id makes the whole list not distinct. */
  lemma DistinctStep(ids: seq<string>, i: nat)
    requires i < |ids| && Distinct(ids[..i])
    ensures ids[..i + 1] == ids[..i] + [ids[i]]
    ensures ids[i] !in ids[..i] ==> Distinct(ids[..i + 1])
    ensures ids[i] in ids[..i] ==> !Distinct(ids)
  {
    assert ids[..i + 1] == ids[..i] + [ids[i]];
    if ids[i] in ids[..i] {
      var j :| 0 <= j < i && ids[..i][j] == ids[i];
      assert ids[j] == ids[i];
    }
  }

  /**
   * The loop of lines 126-128: `_delete_message` for each id in turn, stopping with false at the
   * first that removes nothing. Every id is stored when the loop starts, so that happens exactly
   * at the first id listed twice.
   */
  method DeleteEach(db: Database, ids: seq<string>) returns (ok: bool)
    modifies db`messages
    requires forall k :: 0 <= k < |ids| ==> HasKey(db.messages, MessageId, ids[k])
    ensures ok <==> Distinct(ids)
    ensures ok ==> db.messages == Filter(old(db.messages), IdNotIn(ids))
    ensures !ok ==>
      exists k :: 0 <= k < |ids| && Distinct(ids[..k]) && ids[k] in ids[..k] &&
        db.messages == Filter(old(db.messages), IdNotIn(ids[..k]))
    ensures old(db.Valid()) ==> db.Valid()
  {
    ghost var start := db.messages;
    FilterKeepsAll(start, IdNotIn([]));
    for i := 0 to |ids|
      invariant db.messages == Filter(start, IdNotIn(ids[..i]))
      invariant Distinct(ids[..i])
      invariant old(db.Valid()) ==> db.Valid()
    {
      ghost var done := ids[..i];
      assert HasKey(db.messages, MessageId, ids[i]) <==> ids[i] !in done by {
        PendingPresent(start, done, ids[i]);
      }
      DistinctStep(ids, i);
      var removed := DeleteMessage(db, ids[i]);
      if !removed {
        assert db.messages == Filter(start, IdNotIn(done)) by {
          DeleteAgain(start, done, ids[i]);
        }
        return false;
      }
      assert db.messages == Filter(start, IdNotIn(ids[..i + 1])) by {
        DeleteOneMore(start, done, ids[i]);
      }
    }
    assert ids[..|ids|] == ids;
    return true;
  }

  /**
   * `delete_messages_from_conversation` (lines 119-129): the conversation's messages are listed
   * (`conversation_id IS NULL` for `None`), then deleted one id at a time; on a keyed table every
   * message of the conversation goes and the result is true, including when there is none.
   */
  method DeleteMessagesFromConversation(db: Database, conversationId: Option<string>) returns (ok: bool)
    modifies db`messages
    ensures var ids := Ids(Filter(old(db.messages), Conversations.InConversation(conversationId)));
      (ok <==> Distinct(ids)) &&
      (ok ==> db.messages == Filter(old(db.messages), IdNotIn(ids)))
    ensures old(db.Valid()) ==>
      ok && db.Valid() && db.messages == Filter(old(db.messages), Conversations.NotInConversation(conversationId))
  {
    var listed := Filter(db.messages, Conversations.InConversation(conversationId));
    var ids := Ids(listed);
    forall k | 0 <= k < |ids| ensures HasKey(db.messages, MessageId, ids[k]) {
      assert listed[k] in listed;
      var i :| 0 <= i < |db.messages| && db.messages[i] == listed[k];
    }
    if db.Valid() {
      ListedDistinct(db.messages, conversationId);
    }
    ok := DeleteEach(db, ids);
  }

  /** On a keyed table the listed ids are distinct and deleting them deletes the conversation's messages. */
  lemma ListedDistinct(rows: seq<Message>, conversationId: Option<string>)
    requires Unique(rows, MessageId)
    ensures var ids := Ids(Filter(rows, Conversations.InConversation(conversationId)));
      Distinct(ids) && Filter(rows, IdNotIn(ids)) == Filter(rows, Conversations.NotInConversation(conversationId))
  {
    var ids := Ids(Filter(rows, Conversations.InConversation(conversationId)));
    UniqueFilter(rows, MessageId, Conversations.InConversation(conversationId));
    forall m | m in rows ensures IdNotIn(ids)(m) == Conversations.NotInConversation(conversationId)(m) {
      ListedMember(rows, conversationId, m);
    }
    FilterSame(rows, IdNotIn(ids), Conversations.NotInConversation(conversationId));
  }

  /** On a keyed table a stored message's id is listed exactly when the message is in the conversation. */
  lemma ListedMember(rows: seq<Message>, conversationId: Option<string>, m: Message)
    requires Unique(rows, MessageId) && m in rows
    ensures m.id in Ids(Filter(rows, Conversations.InConversation(conversationId))) <==> m.conversationId == conversationId
  {
    var listed := Filter(rows, Conversations.InConversation(conversationId));
    var ids := Ids(listed);
    if m.conversationId == conversationId {
      assert m in listed;
      var t :| 0 <= t < |listed| && listed[t] == m;
      assert ids[t] == m.id;
    } else {
      var a :| 0 <= a < |rows| && rows[a] == m;
      forall t | 0 <= t < |ids| ensures ids[t] != m.id {
        var other := listed[t];
        assert other in listed;
        var b :| 0 <= b < |rows| && rows[b] == other;
        assert a != b;
      }
    }
  }

  /**
   * `save_message` (lines 138-144): the message under a new id is added, and the id returned; the
   * commit fails on an id already stored.
   */
  method SaveMessage(db: Database, newId: string, data: Message) returns (r: Outcome<string>)
    modifies db`messages
    ensures HasKey(old(db.messages), MessageId, newId) ==> r == Raised(IntegrityError) && db.messages == old(db.messages)
    ensures !HasKey(old(db.messages), MessageId, newId) ==>
      r == Ok(newId) && db.messages == old(db.messages) + [data.(id := newId)]
    ensures old(db.Valid()) ==> db.Valid()
  {
    if HasKey(db.messages, MessageId, newId) {
      return Raised(IntegrityError);
    }
    UniqueAppend(db.messages, MessageId, data.(id := newId));
    SetMessages(db, db.messages + [data.(id := newId)]);
    return Ok(newId);
  }
}
