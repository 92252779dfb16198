/**
 * ConversationsManager.py: creating, updating, deleting and reading conversations, and the
 * filtered, sorted, paginated listing. Queries are predicates over rows; the tables are those of
 * the shared database.
 */
module Conversations {
  import opened Wrappers
  import opened Models
  import opened Store

  /** The columns of the conversation table, as attributes of the `Conversation` class. */
  datatype Column = Id | Name | CreatedTimestamp | LastUpdatedTimestamp | Archive | AssistantId | UserId

  function ColumnName(col: Column): string {
    match col
    case Id => "id"
    case Name => "name"
    case CreatedTimestamp => "created_timestamp"
    case LastUpdatedTimestamp => "last_updated_timestamp"
    case Archive => "archive"
    case AssistantId => "assistant_id"
    case UserId => "user_id"
  }

  /**
   * The column of `Conversation` that `getattr(Conversation, key)` gives, if there is one; the
   * class's other attributes are `Inherited`.
   */
  function ColumnNamed(key: string): (r: Option<Column>)
    ensures r.Some? ==> ColumnName(r.value) == key
    ensures r.None? ==> forall col: Column :: ColumnName(col) != key
  {
    if key == "id" then Some(Id)
    else if key == "name" then Some(Name)
    else if key == "created_timestamp" then Some(CreatedTimestamp)
    else if key == "last_updated_timestamp" then Some(LastUpdatedTimestamp)
    else if key == "archive" then Some(Archive)
    else if key == "assistant_id" then Some(AssistantId)
    else if key == "user_id" then Some(UserId)
    else None
  }

  /** A column value or a value compared with one: text, or SQL `NULL` (Python `None`). */
  datatype Value = Text(text: string) | Null

  function Lift(o: Option<string>): Value {
    if o.Some? then Text(o.value) else Null
  }

  function Get(c: Conversation, col: Column): Value {
    match col
    case Id => Text(c.id)
    case Name => Text(c.name)
    case CreatedTimestamp => Text(c.createdTimestamp)
    case LastUpdatedTimestamp => Text(c.lastUpdatedTimestamp)
    case Archive => Text(c.archive)
    case AssistantId => Lift(c.assistantId)
    case UserId => Lift(c.userId)
  }

  /**
   * A row from a value for every column. The `NOT NULL` columns (all but the two links) left
   * `NULL` make the statement fail with an integrity error.
   */
  function RowFrom(v: Column -> Value): (r: Outcome<Conversation>)
    ensures r.Ok? <==> v(Id).Text? && v(Name).Text? && v(CreatedTimestamp).Text? && v(LastUpdatedTimestamp).Text? && v(Archive).Text?
    ensures r.Raised? ==> r.error == IntegrityError
    ensures r.Ok? ==> forall col: Column :: Get(r.value, col) == v(col)
  {
    if v(Id).Text? && v(Name).Text? && v(CreatedTimestamp).Text? && v(LastUpdatedTimestamp).Text? && v(Archive).Text? then
      var link := (col: Column) => if v(col).Text? then Some(v(col).text) else None;
      Ok(Conversation(v(Id).text, v(Name).text, v(CreatedTimestamp).text, v(LastUpdatedTimestamp).text,
                      v(Archive).text, link(AssistantId), link(UserId)))
    else Raised(IntegrityError)
  }

  /** What a view of a conversation carries (`ConversationSchema`); `None` fields are not given. */
  datatype ConversationView = ConversationView(
    id: string, name: string, createdTimestamp: string, lastUpdatedTimestamp: string, archive: string,
    assistantId: Option<string>, userId: Option<string>, messages: Option<seq<Message>>)

  /** The view `update_conversation` returns: no user and no messages (lines 68-75). */
  function UpdateView(c: Conversation): ConversationView {
    ConversationView(c.id, c.name, c.createdTimestamp, c.lastUpdatedTimestamp, c.archive, c.assistantId, None, None)
  }

  /** The view `retrieve_conversation` returns, with the user and the messages (lines 109-118). */
  function FullView(c: Conversation, messages: seq<Message>): ConversationView {
    ConversationView(c.id, c.name, c.createdTimestamp, c.lastUpdatedTimestamp, c.archive, c.assistantId, c.userId, Some(messages))
  }

  /**
   * `validate_assistant_user_id` (ConversationsManager.py lines 161-167): both rows must exist;
   * the user lookup is consulted only once the assistant is found.
   */
  function ValidateAssistantUserId(resources: seq<Resource>, users: seq<User>, assistantId: string, userId: string)
    : Outcome<bool>
  {
    match ScalarOneOrNone(resources, KeyIs(ResourceId, assistantId))
    case ManyRows => Raised(MultipleResultsFound)
    case NoRow => Ok(false)
    case OneRow(_) =>
      match ScalarOneOrNone(users, KeyIs(Models.UserId, userId))
      case ManyRows => Raised(MultipleResultsFound)
      case NoRow => Ok(false)
      case OneRow(_) => Ok(true)
  }

  /** On the keyed tables, validation is true exactly when both the assistant and the user exist. */
  lemma ValidateMeansBothExist(resources: seq<Resource>, users: seq<User>, assistantId: string, userId: string)
    requires Unique(resources, ResourceId) && Unique(users, Models.UserId)
    ensures ValidateAssistantUserId(resources, users, assistantId, userId) ==
            Ok(HasKey(resources, ResourceId, assistantId) && HasKey(users, Models.UserId, userId))
  {
    KeyLookupNoRow(resources, ResourceId, assistantId);
    KeyLookupNoRow(users, Models.UserId, userId);
    UniqueKeyLookup(resources, ResourceId, assistantId);
    UniqueKeyLookup(users, Models.UserId, userId);
  }

  /** A `True` answer, on any tables, means both rows exist. */
  lemma ValidatedExist(resources: seq<Resource>, users: seq<User>, assistantId: string, userId: string)
    requires ValidateAssistantUserId(resources, users, assistantId, userId) == Ok(true)
    ensures HasKey(resources, ResourceId, assistantId) && HasKey(users, Models.UserId, userId)
  {
    KeyLookupNoRow(resources, ResourceId, assistantId);
    KeyLookupNoRow(users, Models.UserId, userId);
  }

  /** The data a caller passes for a conversation, column by column (`ConversationCreateSchema`). */
  type Fields = map<Column, Value>

  /** A column's value in `f`, or `otherwise` when `f` does not mention it. */
  function Pick(f: Fields, col: Column, otherwise: Value): Value {
    if col in f then f[col] else otherwise
  }

  function FieldsOnly(f: Fields): Column -> Value {
    (col: Column) => Pick(f, col, Null)
  }

  function FieldsOver(f: Fields, c: Conversation): Column -> Value {
    (col: Column) => Pick(f, col, Get(c, col))
  }

  /** The dict of ConversationsManager.py lines 33-39 for a new conversation with id `newId`. */
  function CreatedFields(data: Fields, resourceId: string, userId: string, newId: string, now: string): Fields {
    data[CreatedTimestamp := Text(now)][LastUpdatedTimestamp := Text(now)][Archive := Text("False")]
        [AssistantId := Text(resourceId)][UserId := Text(userId)][Id := Text(newId)]
  }

  /** A created conversation: both timestamps are now, it is not archived, it links the assistant and the user. */
  lemma CreatedRow(data: Fields, resourceId: string, userId: string, newId: string, now: string)
    requires Id !in data
    ensures var r := RowFrom(FieldsOnly(CreatedFields(data, resourceId, userId, newId, now)));
      (r.Ok? <==> Name in data && data[Name].Text?) &&
      (r.Ok? ==> && r.value.id == newId
                 && r.value.createdTimestamp == now == r.value.lastUpdatedTimestamp
                 && r.value.archive == "False"
                 && r.value.assistantId == Some(resourceId) && r.value.userId == Some(userId)
                 && r.value.name == data[Name].text)
  {
    var v := FieldsOnly(CreatedFields(data, resourceId, userId, newId, now));
    var r := RowFrom(v);
    assert v(Name) == Pick(data, Name, Null);
    if r.Ok? {
      assert Get(r.value, Id) == v(Id) && Get(r.value, Name) == v(Name);
      assert Get(r.value, CreatedTimestamp) == v(CreatedTimestamp) && Get(r.value, LastUpdatedTimestamp) == v(LastUpdatedTimestamp);
      assert Get(r.value, Archive) == v(Archive);
      assert Get(r.value, AssistantId) == v(AssistantId) && Get(r.value, UserId) == v(UserId);
    }
  }

  /**
   * `create_conversation` (ConversationsManager.py lines 27-43): nothing is written unless both
   * the assistant and the user exist; then exactly one row is added.
   */
  method CreateConversation(db: Database, resourceId: string, userId: string, data: Fields, newId: string, now: string)
    returns (r: Outcome<Option<string>>)
    modifies db`conversations
    ensures var valid := ValidateAssistantUserId(db.resources, db.users, resourceId, userId);
      var row := RowFrom(FieldsOnly(CreatedFields(data, resourceId, userId, newId, now)));
      && (valid.Raised? ==> r == Raised(valid.error) && db.conversations == old(db.conversations))
      && (valid == Ok(false) ==> r == Ok(None) && db.conversations == old(db.conversations))
      && (valid == Ok(true) && Id in data ==> r == Raised(TypeError) && db.conversations == old(db.conversations))
      && (valid == Ok(true) && Id !in data && row.Raised? ==> r == Raised(row.error) && db.conversations == old(db.conversations))
      && (valid == Ok(true) && Id !in data && row.Ok? && HasKey(old(db.conversations), ConversationId, newId) ==>
            r == Raised(IntegrityError) && db.conversations == old(db.conversations))
      && (valid == Ok(true) && Id !in data && row.Ok? && !HasKey(old(db.conversations), ConversationId, newId) ==>
            r == Ok(Some(newId)) && db.conversations == old(db.conversations) + [row.value])
    ensures old(db.Valid()) ==> db.Valid()
    ensures old(ConversationsLinked(db.conversations, db.resources, db.users)) ==>
      ConversationsLinked(db.conversations, db.resources, db.users)
  {
    var valid := ValidateAssistantUserId(db.resources, db.users, resourceId, userId);
    if valid.Raised? {
      return Raised(valid.error);
    }
    if !valid.value {
      return Ok(None);
    }
    if Id in data {
      return Raised(TypeError);
    }
    var row := RowFrom(FieldsOnly(CreatedFields(data, resourceId, userId, newId, now)));
    if row.Raised? {
      return Raised(row.error);
    }
    if HasKey(db.conversations, ConversationId, newId) {
      return Raised(IntegrityError);
    }
    CreatedLinked(db.conversations, db.resources, db.users, data, resourceId, userId, newId, now);
    UniqueAppend(db.conversations, ConversationId, row.value);
    SetConversations(db, db.conversations + [row.value]);
    return Ok(Some(newId));
  }

  /** A created row links the validated assistant and user, so the conversations stay linked. */
  lemma CreatedLinked(conversations: seq<Conversation>, resources: seq<Resource>, users: seq<User>,
                      data: Fields, resourceId: string, userId: string, newId: string, now: string)
    requires ValidateAssistantUserId(resources, users, resourceId, userId) == Ok(true)
    requires Id !in data
    requires RowFrom(FieldsOnly(CreatedFields(data, resourceId, userId, newId, now))).Ok?
    ensures var row := RowFrom(FieldsOnly(CreatedFields(data, resourceId, userId, newId, now))).value;
      ConversationsLinked(conversations, resources, users) ==> ConversationsLinked(conversations + [row], resources, users)
  {
    CreatedRow(data, resourceId, userId, newId, now);
    ValidatedExist(resources, users, resourceId, userId);
    LinkedAppend(conversations, resources, users, RowFrom(FieldsOnly(CreatedFields(data, resourceId, userId, newId, now))).value);
  }

  /** A row whose links name stored rows keeps the conversations linked. */
  lemma LinkedAppend(conversations: seq<Conversation>, resources: seq<Resource>, users: seq<User>, c: Conversation)
    requires c.assistantId.Some? ==> HasKey(resources, ResourceId, c.assistantId.value)
    requires c.userId.Some? ==> HasKey(users, Models.UserId, c.userId.value)
    ensures ConversationsLinked(conversations, resources, users) ==> ConversationsLinked(conversations + [c], resources, users)
  {
  }

  /** The dict of ConversationsManager.py lines 48-54: `name` and `archive` from the patch when given, else kept. */
  function UpdateFields(data: Fields, patch: map<string, Value>, now: string): Fields {
    var archive := if "archive" in patch then patch["archive"] else Pick(data, Archive, Null);
    var name := if "name" in patch then patch["name"] else Pick(data, Name, Null);
    data[LastUpdatedTimestamp := Text(now)][Archive := archive][Name := name]
  }

  /** `UPDATE ... WHERE id = :id` applied to one row. */
  function UpdateRow(id: string, f: Fields): Conversation -> Outcome<Conversation> {
    (c: Conversation) => if c.id == id then RowFrom(FieldsOver(f, c)) else Ok(c)
  }

  /**
   * An updated row: `name` and `archive` take the patch's values when it has them and the given
   * data's otherwise, the update time is now, and every other column keeps the given data's value
   * or, when the data does not mention it, the current one.
   */
  lemma UpdatedRow(c: Conversation, data: Fields, patch: map<string, Value>, now: string)
    requires RowFrom(FieldsOver(UpdateFields(data, patch, now), c)).Ok?
    ensures var u := RowFrom(FieldsOver(UpdateFields(data, patch, now), c)).value;
      && Text(u.name) == (if "name" in patch then patch["name"] else Pick(data, Name, Null))
      && Text(u.archive) == (if "archive" in patch then patch["archive"] else Pick(data, Archive, Null))
      && u.lastUpdatedTimestamp == now
      && (forall col :: col in {Id, CreatedTimestamp, AssistantId, UserId} ==> Get(u, col) == Pick(data, col, Get(c, col)))
  {
    var v := FieldsOver(UpdateFields(data, patch, now), c);
    var u := RowFrom(v).value;
    assert Get(u, Name) == v(Name) && Get(u, Archive) == v(Archive) && Get(u, LastUpdatedTimestamp) == v(LastUpdatedTimestamp);
  }

  /**
   * `update_conversation` (ConversationsManager.py lines 45-79). No row with the id: `None` and
   * nothing written. A `NOT NULL` column set to `NULL` or an id taken twice: the statement fails and
   * is rolled back. Otherwise the update is committed and the row is read back by its id; if the
   * data moved it to another id, reading it back fails after the commit.
   */
  method UpdateConversation(db: Database, id: string, data: Fields, patch: map<string, Value>, now: string)
    returns (r: Outcome<Option<ConversationView>>)
    modifies db`conversations
    ensures var f := UpdateFields(data, patch, now);
      var updated := MapOutcome(old(db.conversations), UpdateRow(id, f));
      && (!HasKey(old(db.conversations), ConversationId, id) ==> r == Ok(None) && db.conversations == old(db.conversations))
      && (HasKey(old(db.conversations), ConversationId, id) && updated.Raised? ==>
            r == Raised(updated.error) && db.conversations == old(db.conversations))
      && (HasKey(old(db.conversations), ConversationId, id) && updated.Ok? && !Unique(updated.value, ConversationId) ==>
            r == Raised(IntegrityError) && db.conversations == old(db.conversations))
      && (HasKey(old(db.conversations), ConversationId, id) && updated.Ok? && Unique(updated.value, ConversationId) ==>
            db.conversations == updated.value &&
            r == match ScalarOneOrNone(updated.value, KeyIs(ConversationId, id))
                 case OneRow(c) => Ok(Some(UpdateView(c)))
                 case _ => Raised(AttributeError("id")))
    ensures old(db.Valid()) ==> db.Valid()
  {
    var f := UpdateFields(data, patch, now);
    if !HasKey(db.conversations, ConversationId, id) {
      return Ok(None);
    }
    var updated := MapOutcome(db.conversations, UpdateRow(id, f));
    if updated.Raised? {
      return Raised(updated.error);
    }
    if !Unique(updated.value, ConversationId) {
      return Raised(IntegrityError);
    }
    SetConversations(db, updated.value);
    var found := ScalarOneOrNone(db.conversations, KeyIs(ConversationId, id));
    if found.OneRow? {
      r := Ok(Some(UpdateView(found.row)));
    } else {
      r := Raised(AttributeError("id"));
    }
  }

  /** The test `Message.conversation_id == id`; `None` compares as `IS NULL`. */
  function InConversation(id: Option<string>): Message -> bool {
    (m: Message) => m.conversationId == id
  }

  function ConversationIdIsNot(id: string): Conversation -> bool {
    (c: Conversation) => c.id != id
  }

  function NotInConversation(id: Option<string>): Message -> bool {
    (m: Message) => m.conversationId != id
  }

  /**
   * `delete_conversation` (ConversationsManager.py lines 81-88): the conversation rows with the id
   * and every message of that conversation go; the result says whether a conversation row went,
   * and the messages go either way.
   */
  method DeleteConversation(db: Database, id: string) returns (removed: bool)
    modifies db`conversations, db`messages
    ensures db.conversations == Filter(old(db.conversations), ConversationIdIsNot(id))
    ensures db.messages == Filter(old(db.messages), NotInConversation(Some(id)))
    ensures removed <==> HasKey(old(db.conversations), ConversationId, id)
    ensures old(db.Valid()) ==> db.Valid()
    ensures old(MessagesLinked(db.messages, db.conversations)) ==> MessagesLinked(db.messages, db.conversations)
  {
    var conversations := Filter(db.conversations, ConversationIdIsNot(id));
    var messages := Filter(db.messages, NotInConversation(Some(id)));
    DeletedCount(db.conversations, id);
    UniqueFilter(db.conversations, ConversationId, ConversationIdIsNot(id));
    UniqueFilter(db.messages, MessageId, NotInConversation(Some(id)));
    DeleteKeepsLinks(db.messages, db.conversations, id);
    removed := |conversations| < |db.conversations|;
    SetConversations(db, conversations);
    SetMessages(db, messages);
  }

  /** Some row went exactly when some row had the id. */
  lemma DeletedCount(rows: seq<Conversation>, id: string)
    ensures |Filter(rows, ConversationIdIsNot(id))| < |rows| <==> HasKey(rows, ConversationId, id)
  {
    if HasKey(rows, ConversationId, id) {
      var i :| 0 <= i < |rows| && rows[i].id == id;
      assert rows[i] in rows && !ConversationIdIsNot(id)(rows[i]);
    }
  }

  /** Deleting a conversation together with its messages leaves no message pointing at a missing conversation. */
  lemma DeleteKeepsLinks(messages: seq<Message>, conversations: seq<Conversation>, id: string)
    ensures MessagesLinked(messages, conversations) ==>
      MessagesLinked(Filter(messages, NotInConversation(Some(id))), Filter(conversations, ConversationIdIsNot(id)))
  {
    if !MessagesLinked(messages, conversations) {
      return;
    }
    var ms := Filter(messages, NotInConversation(Some(id)));
    var cs := Filter(conversations, ConversationIdIsNot(id));
    forall m | m in ms && m.conversationId.Some?
      ensures HasKey(cs, ConversationId, m.conversationId.value)
    {
      var i :| 0 <= i < |conversations| && conversations[i].id == m.conversationId.value;
      assert conversations[i] in cs;
      var j :| 0 <= j < |cs| && cs[j] == conversations[i];
    }
  }

  /** A row of the outer join of ConversationsManager.py lines 93-97. */
  datatype JoinRow = JoinRow(conversation: Conversation, message: Option<Message>)

  /** One join row per message, in store order. */
  function Pairs(c: Conversation, ms: seq<Message>): (rows: seq<JoinRow>)
    ensures |rows| == |ms|
  {
    if ms == [] then [] else Pairs(c, ms[..|ms| - 1]) + [JoinRow(c, Some(ms[|ms| - 1]))]
  }

  /** The join rows of one conversation: one per message of it, or one row without a message. */
  function RowsFor(c: Conversation, messages: seq<Message>): (rows: seq<JoinRow>)
    ensures |rows| > 0 && rows[0].conversation == c
  {
    var mine := Filter(messages, InConversation(Some(c.id)));
    if mine == [] then [JoinRow(c, None)]
    else
      PairsHead(c, mine);
      Pairs(c, mine)
  }

  lemma {:induction false} PairsHead(c: Conversation, ms: seq<Message>)
    requires ms != []
    ensures Pairs(c, ms)[0].conversation == c
  {
    if |ms| > 1 {
      PairsHead(c, ms[..|ms| - 1]);
    }
  }

  /** The rows of the join for every conversation in `cs`. */
  function AllRows(cs: seq<Conversation>, messages: seq<Message>): (rows: seq<JoinRow>)
    ensures rows == [] <==> cs == []
    ensures cs != [] ==> rows[0].conversation == cs[0]
  {
    if cs == [] then [] else RowsFor(cs[0], messages) + AllRows(cs[1..], messages)
  }

  /** The result of the query of ConversationsManager.py lines 93-97. */
  function JoinRows(conversations: seq<Conversation>, messages: seq<Message>, id: string): seq<JoinRow> {
    AllRows(Filter(conversations, KeyIs(ConversationId, id)), messages)
  }

  /** The messages the join rows carry, in order: what the loop of lines 102-106 collects. */
  function MessagesIn(rows: seq<JoinRow>): seq<Message> {
    if rows == [] then []
    else MessagesIn(rows[..|rows| - 1]) + (if rows[|rows| - 1].message.Some? then [rows[|rows| - 1].message.value] else [])
  }

  lemma {:induction false} MessagesInPairs(c: Conversation, ms: seq<Message>)
    ensures MessagesIn(Pairs(c, ms)) == ms
  {
    if ms != [] {
      var init := ms[..|ms| - 1];
      MessagesInPairs(c, init);
      var rows := Pairs(c, ms);
      assert rows[..|rows| - 1] == Pairs(c, init);
      assert ms == init + [ms[|ms| - 1]];
    }
  }

  /** The join finds no row exactly when no conversation has the id. */
  lemma JoinEmpty(conversations: seq<Conversation>, messages: seq<Message>, id: string)
    ensures JoinRows(conversations, messages, id) == [] <==> !HasKey(conversations, ConversationId, id)
  {
    KeyLookupNoRow(conversations, ConversationId, id);
    var hits := Filter(conversations, KeyIs(ConversationId, id));
    if hits != [] {
      assert hits[0] in hits;
    }
  }

  /** On a keyed table, the join of one conversation carries exactly that conversation's messages. */
  lemma JoinOfOne(conversations: seq<Conversation>, messages: seq<Message>, id: string)
    requires Unique(conversations, ConversationId) && HasKey(conversations, ConversationId, id)
    ensures var rows := JoinRows(conversations, messages, id);
      rows != [] && rows[0].conversation in conversations && rows[0].conversation.id == id &&
      MessagesIn(rows) == Filter(messages, InConversation(Some(id)))
  {
    JoinEmpty(conversations, messages, id);
    UniqueKeyFilter(conversations, ConversationId, id);
    var hits := Filter(conversations, KeyIs(ConversationId, id));
    assert |hits| == 1 && hits[0] in hits;
    var c := hits[0];
    assert hits == [c] && hits[1..] == [];
    assert JoinRows(conversations, messages, id) == RowsFor(c, messages) + [];
    var mine := Filter(messages, InConversation(Some(c.id)));
    if mine != [] {
      MessagesInPairs(c, mine);
    }
    assert RowsFor(c, messages) + [] == RowsFor(c, messages);
  }

  /**
   * `retrieve_conversation` (ConversationsManager.py lines 90-119): `None` when no conversation has
   * the id; otherwise the first joined conversation with the messages the join carries, which on
   * a keyed table are exactly the messages whose `conversation_id` is the id.
   */
  method RetrieveConversation(db: Database, id: string) returns (r: Option<ConversationView>)
    ensures r.None? <==> !HasKey(db.conversations, ConversationId, id)
    ensures r.Some? ==> var rows := JoinRows(db.conversations, db.messages, id);
      rows != [] && r.value == FullView(rows[0].conversation, MessagesIn(rows))
    ensures r.Some? && Unique(db.conversations, ConversationId) ==>
      exists c :: c in db.conversations && c.id == id &&
        r.value == FullView(c, Filter(db.messages, InConversation(Some(id))))
  {
    var rows := JoinRows(db.conversations, db.messages, id);
    var conversation: Option<Conversation> := None;
    var list: seq<Message> := [];
    for i := 0 to |rows|
      invariant conversation == if i == 0 then None else Some(rows[0].conversation)
      invariant list == MessagesIn(rows[..i])
    {
      if conversation.None? {
        conversation := Some(rows[i].conversation);
      }
      if rows[i].message.Some? {
        list := list + [rows[i].message.value];
      }
      assert rows[..i + 1][..i] == rows[..i];
    }
    assert rows[..|rows|] == rows;
    JoinEmpty(db.conversations, db.messages, id);
    if conversation.None? {
      return None;
    }
    r := Some(FullView(conversation.value, list));
    if Unique(db.conversations, ConversationId) {
      JoinOfOne(db.conversations, db.messages, id);
    }
  }

  /** A filter value: one value, or a Python list of values. */
  datatype FilterValue = One(value: Value) | Many(values: seq<Value>)

  /**
   * The class attributes of `Conversation` that are not columns, which it inherits from SQLModel
   * and pydantic (`metadata`, `model_config`, `__tablename__`, ...): for a name, `None` when the
   * class has no such attribute, otherwise Python's `==` between that attribute and a value. None
   * of them has an `in_` method.
   */
  type Inherited = string -> Option<Value -> bool>

  /** A condition `_apply_filters` adds to the query. */
  datatype Condition =
    | NameContains(pattern: string)          // `name ILIKE '%pattern%'`
    | InList(col: Column, values: seq<Value>) // `col IN (...)`
    | Equals(col: Column, value: Value)       // `col = value`, or `col IS NULL`
    | Constant(truth: bool)                   // a Python `bool` given to `.filter`: `WHERE true` or `WHERE false`

  /** Python's `repr` of a value inside a list. */
  function Repr(v: Value): string {
    match v
    case Text(t) => "'" + t + "'"
    case Null => "None"
  }

  function ReprItems(vs: seq<Value>): string {
    if vs == [] then ""
    else if |vs| == 1 then Repr(vs[0])
    else Repr(vs[0]) + ", " + ReprItems(vs[1..])
  }

  /** `f"{value}"`. */
  function Format(v: FilterValue): string {
    match v
    case One(Text(t)) => t
    case One(Null) => "None"
    case Many(vs) => "[" + ReprItems(vs) + "]"
  }

  /**
   * One step of the loop of ConversationsManager.py lines 139-145. A key the class has no attribute
   * for raises; an inherited attribute compares to the value as a plain Python `bool`, and has no
   * `in_` for a list.
   */
  function ConditionOf(inherited: Inherited, filter: (string, FilterValue)): (r: Outcome<Condition>)
    ensures r.Raised? <==> filter.0 != "name" && ColumnNamed(filter.0).None? && (inherited(filter.0).None? || filter.1.Many?)
    ensures r.Raised? ==> r.error == AttributeError(if inherited(filter.0).None? then filter.0 else "in_")
    ensures r.Ok? && r.value.Constant? <==> filter.0 != "name" && ColumnNamed(filter.0).None? && r.Ok?
    ensures r.Ok? && r.value.Constant? ==> r.value.truth == inherited(filter.0).value(filter.1.value)
  {
    var (key, value) := filter;
    if key == "name" then Ok(NameContains(Format(value)))
    else
      match ColumnNamed(key)
      case Some(col) =>
        (match value
         case Many(vs) => Ok(InList(col, vs))
         case One(v) => Ok(Equals(col, v)))
      case None =>
        match inherited(key)
        case None => Raised(AttributeError(key))
        case Some(equals) =>
          match value
          case Many(_) => Raised(AttributeError("in_"))
          case One(v) => Ok(Constant(equals(v)))
  }

  function ConditionIn(inherited: Inherited): ((string, FilterValue)) -> Outcome<Condition> {
    (filter: (string, FilterValue)) => ConditionOf(inherited, filter)
  }

  /** `_apply_filters`: the loop over the filters, in their order; `None` or `{}` adds nothing. */
  method ApplyFilters(inherited: Inherited, filters: seq<(string, FilterValue)>) returns (r: Outcome<seq<Condition>>)
    ensures r == MapOutcome(filters, ConditionIn(inherited))
  {
    var conditions: seq<Condition> := [];
    for i := 0 to |filters|
      invariant MapOutcome(filters[..i], ConditionIn(inherited)) == Ok(conditions)
    {
      var step := ConditionOf(inherited, filters[i]);
      if step.Raised? {
        MapOutcomeFirstFailure(filters, ConditionIn(inherited), i);
        return Raised(step.error);
      }
      assert filters[..i + 1][..i] == filters[..i];
      conditions := conditions + [step.value];
    }
    assert filters[..|filters|] == filters;
    return Ok(conditions);
  }

  /** `str.lower()` on ASCII letters. */
  function Lower(s: string): (l: string)
    ensures |l| == |s|
    ensures forall i :: 0 <= i < |s| ==> l[i] == (if 'A' <= s[i] <= 'Z' then (s[i] as int + 32) as char else s[i])
  {
    if s == [] then []
    else [if 'A' <= s[0] <= 'Z' then (s[0] as int + 32) as char else s[0]] + Lower(s[1..])
  }

  lemma LowerIdempotent(s: string)
    ensures Lower(Lower(s)) == Lower(s)
  {
  }

  /** `p` occurs in `s`. */
  predicate Contains(s: string, p: string) {
    exists i :: 0 <= i <= |s| - |p| && OccursAt(s, p, i)
  }

  predicate OccursAt(s: string, p: string, i: int) {
    0 <= i <= |s| - |p| && s[i..i + |p|] == p
  }

  /** SQL truth of a condition on a row: `NULL` is in no list and equals only `IS NULL`. */
  predicate Holds(c: Conversation, cond: Condition) {
    match cond
    case NameContains(p) => Contains(Lower(c.name), Lower(p))
    case InList(col, vs) => Get(c, col).Text? && Get(c, col) in vs
    case Equals(col, v) => Get(c, col) == v
    case Constant(b) => b
  }

  function HoldsFor(cond: Condition): Conversation -> bool {
    (c: Conversation) => Holds(c, cond)
  }

  function Satisfies(conds: seq<Condition>): Conversation -> bool {
    (c: Conversation) => forall k :: 0 <= k < |conds| ==> Holds(c, conds[k])
  }

  /** The rows the filtered query returns, in store order. */
  function Select(rows: seq<Conversation>, conds: seq<Condition>): (r: seq<Conversation>)
    ensures forall c :: c in r <==> c in rows && forall k :: 0 <= k < |conds| ==> Holds(c, conds[k])
  {
    Filter(rows, Satisfies(conds))
  }

  /** Without filters every row is returned. */
  lemma SelectAll(rows: seq<Conversation>)
    ensures Select(rows, []) == rows
  {
    FilterKeepsAll(rows, Satisfies([]));
  }

  /** Each `.filter(...)` narrows the query by one more condition: the conditions combine conjunctively. */
  lemma {:induction false} SelectStep(rows: seq<Conversation>, conds: seq<Condition>, cond: Condition)
    ensures Select(rows, conds + [cond]) == Filter(Select(rows, conds), HoldsFor(cond))
  {
    if rows != [] {
      SelectStep(rows[1..], conds, cond);
      var c := rows[0];
      var all := conds + [cond];
      assert Satisfies(all)(c) == (Satisfies(conds)(c) && HoldsFor(cond)(c)) by {
        assert forall k :: 0 <= k < |conds| ==> all[k] == conds[k];
        assert all[|conds|] == cond;
      }
    }
  }

  /** The name filter ignores the case of ASCII letters, in the pattern and in the name. */
  lemma NameFilterIgnoresCase(c: Conversation, pattern: string)
    ensures Holds(c, NameContains(pattern)) == Holds(c, NameContains(Lower(pattern)))
    ensures Holds(c, NameContains(pattern)) == Holds(c.(name := Lower(c.name)), NameContains(pattern))
    ensures Holds(c, NameContains(""))
  {
    LowerIdempotent(pattern);
    LowerIdempotent(c.name);
    assert OccursAt(Lower(c.name), Lower(""), 0);
  }

  /**
   * A filter on an inherited attribute compares a constant, so it passes every row or none: a
   * false comparison empties the selection, a true one leaves it to the other filters.
   */
  lemma {:induction false} ConstantSelects(rows: seq<Conversation>, conds: seq<Condition>, b: bool)
    ensures Select(rows, conds + [Constant(b)]) == if b then Select(rows, conds) else []
  {
    SelectStep(rows, conds, Constant(b));
    if b {
      FilterKeepsAll(Select(rows, conds), HoldsFor(Constant(b)));
    } else {
      FilterNone(Select(rows, conds), HoldsFor(Constant(b)));
    }
  }

  /**
   * A single filter on an inherited attribute, such as `{"metadata": "x"}`, does not raise: it
   * selects every row when the attribute equals the value and none otherwise. A list for it raises.
   */
  lemma InheritedKeyListing(rows: seq<Conversation>, inherited: Inherited, key: string, v: Value, vs: seq<Value>)
    requires key != "name" && ColumnNamed(key).None? && inherited(key).Some?
    ensures MapOutcome([(key, One(v))], ConditionIn(inherited)) == Ok([Constant(inherited(key).value(v))])
    ensures Select(rows, [Constant(inherited(key).value(v))]) == if inherited(key).value(v) then rows else []
    ensures MapOutcome([(key, Many(vs))], ConditionIn(inherited)) == Raised(AttributeError("in_"))
  {
    var b := inherited(key).value(v);
    ConstantSelects(rows, [], b);
    SelectAll(rows);
    assert [] + [Constant(b)] == [Constant(b)];
  }

  /** The columns `_apply_sorting` orders by (ConversationsManager.py line 149). */
  const SortableColumns: seq<string> := ["id", "name", "archive", "assistant_id"]

  /**
   * `_apply_sorting` (lines 148-152): the column to order by and whether the order is descending,
   * or `None` when `sort_by` is missing, empty or not sortable.
   */
  function SortOrder(sortBy: Option<string>, sortOrder: string): (r: Option<(Column, bool)>)
    ensures r.Some? <==> sortBy.Some? && sortBy.value in SortableColumns
    ensures r.Some? ==> ColumnName(r.value.0) == sortBy.value && (r.value.1 <==> Lower(sortOrder) == "desc")
  {
    if sortBy.Some? && sortBy.value != "" && sortBy.value in SortableColumns then
      Some((ColumnNamed(sortBy.value).value, Lower(sortOrder) == "desc"))
    else None
  }

  /** SQLite's binary collation on text: code point by code point, a proper prefix first. */
  predicate StrLess(a: string, b: string) {
    if a == [] then b != []
    else if b == [] then false
    else if a[0] != b[0] then a[0] < b[0]
    else StrLess(a[1..], b[1..])
  }

  lemma {:induction false} StrLessIrreflexive(a: string)
    ensures !StrLess(a, a)
  {
    if a != [] {
      StrLessIrreflexive(a[1..]);
    }
  }

  lemma {:induction false} StrLessTransitive(a: string, b: string, c: string)
    requires StrLess(a, b) && StrLess(b, c)
    ensures StrLess(a, c)
  {
    if a != [] && a[0] == b[0] && b[0] == c[0] {
      StrLessTransitive(a[1..], b[1..], c[1..]);
    }
  }

  lemma {:induction false} StrLessTotal(a: string, b: string)
    ensures a == b || StrLess(a, b) || StrLess(b, a)
  {
    if a != [] && b != [] && a[0] == b[0] {
      StrLessTotal(a[1..], b[1..]);
      if a[1..] == b[1..] {
        assert a == [a[0]] + a[1..] && b == [b[0]] + b[1..];
      }
    }
  }

  /** The ascending order of a column: `NULL` first, then text in collation order. */
  predicate Less(x: Value, y: Value) {
    match (x, y)
    case (Null, Text(_)) => true
    case (Text(a), Text(b)) => StrLess(a, b)
    case _ => false
  }

  /** Row `x` strictly precedes row `y` under `ORDER BY col` or `ORDER BY col DESC`. */
  predicate Precedes(col: Column, desc: bool, x: Conversation, y: Conversation) {
    if desc then Less(Get(y, col), Get(x, col)) else Less(Get(x, col), Get(y, col))
  }

  lemma PrecedesIrreflexive(col: Column, desc: bool, x: Conversation)
    ensures !Precedes(col, desc, x, x)
  {
    if Get(x, col).Text? {
      StrLessIrreflexive(Get(x, col).text);
    }
  }

  lemma PrecedesTransitive(col: Column, desc: bool, x: Conversation, y: Conversation, z: Conversation)
    requires Precedes(col, desc, x, y) && Precedes(col, desc, y, z)
    ensures Precedes(col, desc, x, z)
  {
    var (a, b, c) := (Get(x, col), Get(y, col), Get(z, col));
    if a.Text? && b.Text? && c.Text? {
      if desc {
        StrLessTransitive(c.text, b.text, a.text);
      } else {
        StrLessTransitive(a.text, b.text, c.text);
      }
    }
  }

  /** No row is followed by one that strictly precedes it. */
  predicate Sorted(rows: seq<Conversation>, col: Column, desc: bool) {
    forall i, j :: 0 <= i < j < |rows| ==> !Precedes(col, desc, rows[j], rows[i])
  }

  /** `rows` with `x` placed before the first row it strictly precedes. */
  function Insert(rows: seq<Conversation>, x: Conversation, col: Column, desc: bool): (r: seq<Conversation>)
    ensures multiset(r) == multiset(rows) + multiset{x}
  {
    if rows == [] then [x]
    else if Precedes(col, desc, x, rows[0]) then [x] + rows
    else
      assert rows == [rows[0]] + rows[1..];
      [rows[0]] + Insert(rows[1..], x, col, desc)
  }

  lemma {:induction false} InsertSorted(rows: seq<Conversation>, x: Conversation, col: Column, desc: bool)
    requires Sorted(rows, col, desc)
    ensures Sorted(Insert(rows, x, col, desc), col, desc)
  {
    if rows == [] {
    } else if Precedes(col, desc, x, rows[0]) {
      SortedInFront(rows, x, col, desc);
    } else {
      var rest := rows[1..];
      assert Sorted(rest, col, desc) by {
        forall i, j | 0 <= i < j < |rest| ensures !Precedes(col, desc, rest[j], rest[i]) {
          assert rest[i] == rows[i + 1] && rest[j] == rows[j + 1];
        }
      }
      assert forall y :: y in rest ==> !Precedes(col, desc, y, rows[0]) by {
        forall y | y in rest ensures !Precedes(col, desc, y, rows[0]) {
          var k :| 0 <= k < |rest| && rest[k] == y;
          assert rows[k + 1] == y;
        }
      }
      InsertSorted(rest, x, col, desc);
      SortedBehind(rows[0], rest, Insert(rest, x, col, desc), x, col, desc);
    }
  }

  /** A row that strictly precedes the first row of a sorted list can go in front of it. */
  lemma SortedInFront(rows: seq<Conversation>, x: Conversation, col: Column, desc: bool)
    requires Sorted(rows, col, desc) && rows != [] && Precedes(col, desc, x, rows[0])
    ensures Sorted([x] + rows, col, desc)
  {
    var r := [x] + rows;
    forall i, j | 0 <= i < j < |r| ensures !Precedes(col, desc, r[j], r[i]) {
      if i == 0 {
        if Precedes(col, desc, r[j], x) {
          PrecedesTransitive(col, desc, r[j], x, rows[0]);
          if j == 1 {
            PrecedesIrreflexive(col, desc, rows[0]);
          }
        }
      } else {
        assert r[i] == rows[i - 1] && r[j] == rows[j - 1];
      }
    }
  }

  /** A head that no row of a sorted list strictly precedes can stay in front of it. */
  lemma SortedBehind(head: Conversation, rest: seq<Conversation>, t: seq<Conversation>, x: Conversation, col: Column, desc: bool)
    requires Sorted(t, col, desc)
    requires multiset(t) == multiset(rest) + multiset{x}
    requires !Precedes(col, desc, x, head)
    requires forall y :: y in rest ==> !Precedes(col, desc, y, head)
    ensures Sorted([head] + t, col, desc)
  {
    var r := [head] + t;
    forall i, j | 0 <= i < j < |r| ensures !Precedes(col, desc, r[j], r[i]) {
      if i == 0 {
        var y := t[j - 1];
        assert y in multiset(t);
        assert y == x || y in multiset(rest);
      } else {
        assert r[i] == t[i - 1] && r[j] == t[j - 1];
      }
    }
  }

  /** `ORDER BY col [DESC]`: the rows by insertion, rows that tie keeping their store order. */
  function SortRows(rows: seq<Conversation>, col: Column, desc: bool): (r: seq<Conversation>)
    ensures multiset(r) == multiset(rows)
  {
    if rows == [] then []
    else
      assert rows == rows[..|rows| - 1] + [rows[|rows| - 1]];
      Insert(SortRows(rows[..|rows| - 1], col, desc), rows[|rows| - 1], col, desc)
  }

  lemma {:induction false} SortRowsSorted(rows: seq<Conversation>, col: Column, desc: bool)
    ensures Sorted(SortRows(rows, col, desc), col, desc)
  {
    if rows != [] {
      SortRowsSorted(rows[..|rows| - 1], col, desc);
      InsertSorted(SortRows(rows[..|rows| - 1], col, desc), rows[|rows| - 1], col, desc);
    }
  }

  /** The rows in the order the query asks for. */
  function Ordered(rows: seq<Conversation>, order: Option<(Column, bool)>): seq<Conversation> {
    match order
    case None => rows
    case Some((col, desc)) => SortRows(rows, col, desc)
  }

  /** `.offset(offset).limit(limit)`: at most `limit` rows, starting at position `offset`. */
  function Page(rows: seq<Conversation>, offset: nat, limit: nat): (r: seq<Conversation>)
    ensures |r| <= limit
    ensures |r| == limit || offset + |r| >= |rows|
    ensures forall i :: 0 <= i < |r| ==> offset + i < |rows| && r[i] == rows[offset + i]
  {
    var from := if offset < |rows| then offset else |rows|;
    var to := if offset + limit < |rows| then offset + limit else |rows|;
    rows[from..to]
  }

  /** Consecutive pages put together are the page that spans both. */
  lemma PageSplit(rows: seq<Conversation>, offset: nat, a: nat, b: nat)
    ensures Page(rows, offset, a) + Page(rows, offset + a, b) == Page(rows, offset, a + b)
  {
  }

  /**
   * `retrieve_conversations` (lines 121-135): the filters, then the order, then the page, and the
   * number of rows that pass the filters (`_get_total_count`, lines 154-158, which applies the
   * filters a second time and ignores the order and the page). A key the class has no attribute
   * for, or a list for an inherited attribute, raises.
   */
  method RetrieveConversations(db: Database, inherited: Inherited, offset: nat, limit: nat, sortBy: Option<string>,
                               sortOrder: string, filters: seq<(string, FilterValue)>)
    returns (r: Outcome<(seq<Conversation>, nat)>)
    ensures MapOutcome(filters, ConditionIn(inherited)).Raised? ==> r == Raised(MapOutcome(filters, ConditionIn(inherited)).error)
    ensures MapOutcome(filters, ConditionIn(inherited)).Ok? ==>
      var selected := Select(db.conversations, MapOutcome(filters, ConditionIn(inherited)).value);
      r == Ok((Page(Ordered(selected, SortOrder(sortBy, sortOrder)), offset, limit), |selected|))
  {
    var conditions := ApplyFilters(inherited, filters);
    if conditions.Raised? {
      return Raised(conditions.error);
    }
    var rows := Ordered(Select(db.conversations, conditions.value), SortOrder(sortBy, sortOrder));
    var page := Page(rows, offset, limit);
    var counted := ApplyFilters(inherited, filters);
    var total := |Select(db.conversations, counted.value)|;
    return Ok((page, total));
  }

  /**
   * What a listing returns: at most `limit` rows, each stored and passing every filter, in the
   * requested order, and a total that counts every row passing the filters whatever the page.
   */
  lemma ListingMatches(rows: seq<Conversation>, conds: seq<Condition>, order: Option<(Column, bool)>,
                       offset: nat, limit: nat)
    ensures var selected := Select(rows, conds);
      var page := Page(Ordered(selected, order), offset, limit);
      |page| <= limit &&
      (forall c :: c in page ==> c in rows && forall k :: 0 <= k < |conds| ==> Holds(c, conds[k])) &&
      (order.Some? ==> Sorted(page, order.value.0, order.value.1)) &&
      (|page| == limit || offset + |page| >= |selected|)
  {
    var selected := Select(rows, conds);
    var ordered := Ordered(selected, order);
    var page := Page(ordered, offset, limit);
    assert |ordered| == |selected| by {
      assert |multiset(ordered)| == |multiset(selected)|;
    }
    forall c | c in page ensures c in selected {
      assert c in multiset(ordered);
    }
    if order.Some? {
      SortRowsSorted(selected, order.value.0, order.value.1);
    }
  }
}
