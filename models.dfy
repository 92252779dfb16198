/**
 * The records of models.py and the relations between them, with the two query shapes the managers
 * use on them: a filtered selection kept in store order, and `scalar_one_or_none`.
 */
module Models {
  import opened Wrappers

  /** An assistant or an LLM (models.py lines 16-28). Only the columns the managers read are kept. */
  datatype Resource = Resource(id: string, name: string, uri: string, resourceLlmId: Option<string>)

  /**
   * A user (models.py lines 30-37). `handle` is the WebAuthn user handle, stored as unpadded
   * base64url text. Its second declaration, line 35, replaces the `unique=True` one of line 32,
   * so neither `handle` nor `email` is unique in the table.
   */
  datatype User = User(id: string, handle: string, name: Option<string>, email: string)

  /**
   * A WebAuthn credential (models.py lines 39-46). `handle` is a foreign key to `User.handle`, not
   * to `User.id`; `backedUp` and `transports` are text columns.
   */
  datatype Cred = Cred(id: string, publicKey: string, handle: string, backedUp: string, name: Option<string>, transports: string)

  /** A server-side session (models.py lines 48-53); `expiresAt` in POSIX seconds. */
  datatype Session = Session(id: string, userId: string, token: string, expiresAt: int)

  /** A chat message (models.py lines 94-101); the conversation link is optional. */
  datatype Message = Message(
    id: string, assistantId: string, conversationId: Option<string>,
    timestamp: string, prompt: string, chatResponse: string, voiceActive: string)

  /** A conversation (models.py lines 103-110); the assistant and user links are optional. */
  datatype Conversation = Conversation(
    id: string, name: string, createdTimestamp: string, lastUpdatedTimestamp: string,
    archive: string, assistantId: Option<string>, userId: Option<string>)

  /** No two rows share a key: what a primary key guarantees. */
  predicate Unique<R(!new)>(rows: seq<R>, key: R -> string) {
    forall i, j :: 0 <= i < j < |rows| ==> key(rows[i]) != key(rows[j])
  }

  /** Some row has key `k`. */
  predicate HasKey<R(!new)>(rows: seq<R>, key: R -> string, k: string) {
    exists i :: 0 <= i < |rows| && key(rows[i]) == k
  }

  /** The rows satisfying `keep`, in store order: a `WHERE` clause, or a `DELETE` seen from what stays. */
  function Filter<T(!new)>(xs: seq<T>, keep: T -> bool): (r: seq<T>)
    ensures |r| <= |xs|
    ensures forall x :: x in r <==> x in xs && keep(x)
    ensures |r| == |xs| <==> forall x :: x in xs ==> keep(x)
  {
    if xs == [] then []
    else
      assert xs == [xs[0]] + xs[1..];
      assert forall x :: x in xs <==> x == xs[0] || x in xs[1..];
      if keep(xs[0]) then [xs[0]] + Filter(xs[1..], keep)
      else
        assert xs[0] in xs && !keep(xs[0]);
        Filter(xs[1..], keep)
  }

  /** A selection takes each stored row at most as often as it is stored. */
  lemma {:induction false} FilterSubMultiset<T(!new)>(xs: seq<T>, keep: T -> bool)
    ensures multiset(Filter(xs, keep)) <= multiset(xs)
  {
    if xs != [] {
      FilterSubMultiset(xs[1..], keep);
      assert xs == [xs[0]] + xs[1..];
    }
  }

  /** Keeping every row keeps the sequence as it is. */
  lemma {:induction false} FilterKeepsAll<T(!new)>(xs: seq<T>, keep: T -> bool)
    requires forall x :: x in xs ==> keep(x)
    ensures Filter(xs, keep) == xs
  {
    if xs != [] {
      assert forall x :: x in xs[1..] ==> x in xs;
      FilterKeepsAll(xs[1..], keep);
      assert xs == [xs[0]] + xs[1..];
    }
  }

  /** A test no row passes selects nothing. */
  lemma {:induction false} FilterNone<T(!new)>(xs: seq<T>, keep: T -> bool)
    requires forall x :: x in xs ==> !keep(x)
    ensures Filter(xs, keep) == []
  {
    if xs != [] {
      assert forall x :: x in xs[1..] ==> x in xs;
      FilterNone(xs[1..], keep);
    }
  }

  /** Filtering twice is filtering once by the conjunction: successive `.filter(...)` calls. */
  lemma {:induction false} FilterFilter<T(!new)>(xs: seq<T>, p: T -> bool, q: T -> bool)
    ensures Filter(Filter(xs, p), q) == Filter(xs, x => p(x) && q(x))
  {
    if xs != [] {
      FilterFilter(xs[1..], p, q);
      if p(xs[0]) {
        assert Filter(xs, p) == [xs[0]] + Filter(xs[1..], p);
        assert Filter(xs, p)[1..] == Filter(xs[1..], p);
      }
    }
  }

  /** Two tests that agree on every row select the same rows. */
  lemma {:induction false} FilterSame<T(!new)>(xs: seq<T>, p: T -> bool, q: T -> bool)
    requires forall x :: x in xs ==> p(x) == q(x)
    ensures Filter(xs, p) == Filter(xs, q)
  {
    if xs != [] {
      assert forall x :: x in xs[1..] ==> x in xs;
      FilterSame(xs[1..], p, q);
    }
  }

  /** A row added at the end is selected after the rows before it. */
  lemma {:induction false} FilterAppend<T(!new)>(xs: seq<T>, x: T, keep: T -> bool)
    ensures Filter(xs + [x], keep) == Filter(xs, keep) + (if keep(x) then [x] else [])
  {
    if xs == [] {
      assert xs + [x] == [x];
    } else {
      assert (xs + [x])[1..] == xs[1..] + [x];
      FilterAppend(xs[1..], x, keep);
    }
  }

  /** How `result.scalar_one_or_none()` ends: no row, exactly one, or `MultipleResultsFound`. */
  datatype Lookup<+T> = NoRow | OneRow(row: T) | ManyRows

  function ScalarOneOrNone<T(!new)>(xs: seq<T>, p: T -> bool): (r: Lookup<T>)
    ensures r.NoRow? <==> forall x :: x in xs ==> !p(x)
    ensures r.OneRow? ==> r.row in xs && p(r.row) && Filter(xs, p) == [r.row]
    ensures r.ManyRows? <==> |Filter(xs, p)| > 1
  {
    var hits := Filter(xs, p);
    if |hits| == 0 then NoRow
    else if |hits| == 1 then
      assert hits[0] in hits;
      OneRow(hits[0])
    else
      assert hits[0] in hits;
      ManyRows
  }

  /** The test `key == k` of a `WHERE` clause. */
  function KeyIs<R>(key: R -> string, k: string): R -> bool {
    (r: R) => key(r) == k
  }

  /** On a key column the rows are unique in, at most one row matches. */
  lemma {:induction false} UniqueKeyFilter<R(!new)>(rows: seq<R>, key: R -> string, k: string)
    requires Unique(rows, key)
    ensures |Filter(rows, KeyIs(key, k))| <= 1
  {
    var p := KeyIs(key, k);
    if rows != [] {
      var rest := rows[1..];
      assert Unique(rest, key) by {
        forall i, j | 0 <= i < j < |rest| ensures key(rest[i]) != key(rest[j]) {
          assert rest[i] == rows[i + 1] && rest[j] == rows[j + 1];
        }
      }
      UniqueKeyFilter(rest, key, k);
      if key(rows[0]) == k {
        assert forall r :: r in rest ==> !p(r) by {
          forall r | r in rest ensures !p(r) {
            var i :| 0 <= i < |rest| && rest[i] == r;
            assert key(rows[0]) != key(rows[i + 1]);
          }
        }
        FilterNone(rest, p);
      }
    }
  }

  /** A primary-key lookup never finds several rows. */
  lemma UniqueKeyLookup<R(!new)>(rows: seq<R>, key: R -> string, k: string)
    requires Unique(rows, key)
    ensures !ScalarOneOrNone(rows, KeyIs(key, k)).ManyRows?
  {
    UniqueKeyFilter(rows, key, k);
  }

  /** A lookup by key finds nothing exactly when no row has that key. */
  lemma KeyLookupNoRow<R(!new)>(rows: seq<R>, key: R -> string, k: string)
    ensures ScalarOneOrNone(rows, KeyIs(key, k)).NoRow? <==> !HasKey(rows, key, k)
  {
    if HasKey(rows, key, k) {
      var i :| 0 <= i < |rows| && key(rows[i]) == k;
      assert rows[i] in rows && KeyIs(key, k)(rows[i]);
    }
  }

  /** `scalar_one_or_none` as Python sees it: a row or `None`, or the exception it raises. */
  function ScalarOutcome<T>(l: Lookup<T>): (r: Outcome<Option<T>>)
    ensures r.Raised? <==> l.ManyRows?
    ensures r.Raised? ==> r.error == MultipleResultsFound
    ensures l.OneRow? ==> r == Ok(Some(l.row))
  {
    match l
    case NoRow => Ok(None)
    case OneRow(x) => Ok(Some(x))
    case ManyRows => Raised(MultipleResultsFound)
  }

  function UserId(u: User): string { u.id }
  function CredId(c: Cred): string { c.id }
  function SessionId(s: Session): string { s.id }
  function ResourceId(r: Resource): string { r.id }
  function ConversationId(c: Conversation): string { c.id }
  function MessageId(m: Message): string { m.id }

  /** Every credential's handle is the handle of some user (models.py line 42). */
  predicate CredsOwned(creds: seq<Cred>, users: seq<User>) {
    forall c :: c in creds ==> exists u :: u in users && u.handle == c.handle
  }

  /** Every session names an existing user id (models.py line 50). */
  predicate SessionsOwned(sessions: seq<Session>, users: seq<User>) {
    forall s :: s in sessions ==> HasKey(users, UserId, s.userId)
  }

  /** A message's optional conversation link names an existing conversation (models.py line 97). */
  predicate MessagesLinked(messages: seq<Message>, conversations: seq<Conversation>) {
    forall m :: m in messages && m.conversationId.Some? ==> HasKey(conversations, ConversationId, m.conversationId.value)
  }

  /** A conversation's optional links name an existing assistant and user (models.py lines 109-110). */
  predicate ConversationsLinked(conversations: seq<Conversation>, resources: seq<Resource>, users: seq<User>) {
    forall c :: c in conversations ==>
      (c.assistantId.Some? ==> HasKey(resources, ResourceId, c.assistantId.value)) &&
      (c.userId.Some? ==> HasKey(users, UserId, c.userId.value))
  }
}
