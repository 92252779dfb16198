/** The database the three managers share, one table per record type of models.py. */
module Store {
  import opened Models

  /**
   * The tables, each in store order (the order in which an unordered `SELECT` returns rows).
   * Every manager operation opens a session, works on these tables and commits.
   */
  class Database {
    var users: seq<User>
    var creds: seq<Cred>
    var sessions: seq<Session>
    var resources: seq<Resource>
    var conversations: seq<Conversation>
    var messages: seq<Message>

    /** Every table is keyed by its string `id` primary key; nothing else is unique. */
    predicate Valid()
      reads this
    {
      && Unique(users, UserId)
      && Unique(creds, CredId)
      && Unique(sessions, SessionId)
      && Unique(resources, ResourceId)
      && Unique(conversations, ConversationId)
      && Unique(messages, MessageId)
    }

    /** An empty database. */
    constructor ()
      ensures Valid()
      ensures users == [] && creds == [] && sessions == []
      ensures resources == [] && conversations == [] && messages == []
    {
      users, creds, sessions := [], [], [];
      resources, conversations, messages := [], [], [];
    }
  }

  /** A commit that writes the user table. Writing keyed rows over keyed rows keeps the database valid. */
  method SetUsers(db: Database, rows: seq<User>)
    requires Unique(db.users, UserId) ==> Unique(rows, UserId)
    modifies db`users
    ensures db.users == rows
    ensures old(db.Valid()) ==> db.Valid()
  {
    db.users := rows;
  }

  /** A commit that writes the credential table. */
  method SetCreds(db: Database, rows: seq<Cred>)
    requires Unique(db.creds, CredId) ==> Unique(rows, CredId)
    modifies db`creds
    ensures db.creds == rows
    ensures old(db.Valid()) ==> db.Valid()
  {
    db.creds := rows;
  }

  /** A commit that writes the session table. */
  method SetSessions(db: Database, rows: seq<Session>)
    requires Unique(db.sessions, SessionId) ==> Unique(rows, SessionId)
    modifies db`sessions
    ensures db.sessions == rows
    ensures old(db.Valid()) ==> db.Valid()
  {
    db.sessions := rows;
  }

  /** A commit that writes the conversation table. */
  method SetConversations(db: Database, rows: seq<Conversation>)
    requires Unique(db.conversations, ConversationId) ==> Unique(rows, ConversationId)
    modifies db`conversations
    ensures db.conversations == rows
    ensures old(db.Valid()) ==> db.Valid()
  {
    db.conversations := rows;
  }

  /** A commit that writes the message table. */
  method SetMessages(db: Database, rows: seq<Message>)
    requires Unique(db.messages, MessageId) ==> Unique(rows, MessageId)
    modifies db`messages
    ensures db.messages == rows
    ensures old(db.Valid()) ==> db.Valid()
  {
    db.messages := rows;
  }

  /** Inserting a row whose key is not yet taken keeps the key unique. */
  lemma UniqueAppend<R(!new)>(rows: seq<R>, key: R -> string, x: R)
    requires !HasKey(rows, key, key(x))
    ensures Unique(rows, key) ==> Unique(rows + [x], key)
  {
    var all := rows + [x];
    if !Unique(rows, key) {
      return;
    }
    forall i, j | 0 <= i < j < |all| ensures key(all[i]) != key(all[j]) {
      if j == |rows| {
        assert all[i] == rows[i];
      } else {
        assert all[i] == rows[i] && all[j] == rows[j];
      }
    }
  }

  /** Deleting rows keeps the key unique. */
  lemma {:induction false} UniqueFilter<R(!new)>(rows: seq<R>, key: R -> string, keep: R -> bool)
    ensures Unique(rows, key) ==> Unique(Filter(rows, keep), key)
  {
    if rows != [] && Unique(rows, key) {
      var rest := rows[1..];
      UniqueUncons(rows, key);
      UniqueFilter(rest, key, keep);
      if keep(rows[0]) {
        var tail := Filter(rest, keep);
        assert forall y :: y in tail ==> y in rest;
        UniqueCons(rows[0], tail, key);
      }
    }
  }

  /** The rows after the first of a keyed table are keyed, and none shares the first row's key. */
  lemma UniqueUncons<R(!new)>(rows: seq<R>, key: R -> string)
    requires rows != [] && Unique(rows, key)
    ensures Unique(rows[1..], key)
    ensures forall y :: y in rows[1..] ==> key(y) != key(rows[0])
  {
    var rest := rows[1..];
    forall i, j | 0 <= i < j < |rest| ensures key(rest[i]) != key(rest[j]) {
      assert rest[i] == rows[i + 1] && rest[j] == rows[j + 1];
    }
    forall y | y in rest ensures key(y) != key(rows[0]) {
      var m :| 0 <= m < |rest| && rest[m] == y;
      assert rows[m + 1] == y;
    }
  }

  /** A row whose key no row of a keyed table has can go in front of it. */
  lemma UniqueCons<R(!new)>(x: R, tail: seq<R>, key: R -> string)
    requires Unique(tail, key)
    requires forall y :: y in tail ==> key(y) != key(x)
    ensures Unique([x] + tail, key)
  {
    var all := [x] + tail;
    forall i, j | 0 <= i < j < |all| ensures key(all[i]) != key(all[j]) {
      assert all[j] == tail[j - 1];
      if i > 0 {
        assert all[i] == tail[i - 1];
      } else {
        assert tail[j - 1] in tail;
      }
    }
  }
}
