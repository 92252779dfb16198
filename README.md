# The assistant backend's managers, in Dafny

This project models the core of the assistant backend of Kwaai-AI-Lab/assistant. It covers four parts:

- **Passkey authentication** (`AuthManager.py`). The two WebAuthn ceremonies, registration and sign-in, each have an options step and a response step. It also covers the signed session token and the server-side session rows.
- **Conversations** (`ConversationsManager.py`). Create, update, delete and read, with a filtered, sorted and paginated listing.
- **Messages** (`MessagesManager.py`). Looking up the language model's name, creating a message through the chat chain, reading one message, and deleting messages.
- **The records** (`models.py`) that these managers read and write.

The database is one `Store.Database` object. It has a `seq` field per table, in store order. Its methods update these fields in place. `Valid()` states what the schema enforces, which is that every primary key is unique. The schema does not make `User.email` or the WebAuthn user handle unique: the second declaration of `webauthn_user_id` (models.py line 35) replaces the unique one. So a lookup by email can find several rows, and `scalar_one_or_none` then raises. The model returns that case as a `Raised(MultipleResultsFound)` outcome.

Queries are modelled as follows:

- A `WHERE` clause is `Models.Filter`.
- A primary-key lookup is `Models.ScalarOneOrNone` with `Models.KeyIs`.
- Sorting and pagination are functions on sequences.

SQLite semantics are modelled where the code depends on them:

- `NULL` sorts first in ascending order.
- `col == None` compiles to `IS NULL`.
- `ILIKE` folds ASCII letters only.
- Foreign keys are not enforced.
- Rows that tie under `ORDER BY` keep their store order. SQL leaves that order open, so this is a choice of the model.

Some things are parameters or abstract functions:

- The clock, new uuids and the random challenge are parameters.
- The WebAuthn verifiers of `py_webauthn` are a function per ceremony from the checked inputs to a verdict. The inputs are the origin, the decoded challenge and the relying-party id, plus the decoded key and sign count at sign-in.
- The retrieval-augmented chat chain is a function from (assistant id, prompt, model name, session id) to an answer or an exception.
- JWTs are a datatype. Each carries its claims and the key it was signed with, and HS256 is represented by that key (RFC 7519, algorithm from section 3.2 of RFC 7518).
- Base64url is modelled exactly, as the unpadded URL-safe alphabet of section 5 of RFC 4648, and is proved to round-trip.
- The JSON text of a list of strings is modelled well enough to prove that it round-trips.

Each operation is a spec function or a method, and a method is proved equal to its spec function. The properties are lemmas about those functions. They cover:

- error precedence,
- what the first accepted origin decides,
- the rows written,
- tokens that decode to their owner until they expire,
- the sorted permutation a listing returns,
- pages that compose,
- deletions that keep keys unique and links intact.

The model follows the code also where the code departs from the guidance of the Web Authentication standard (W3C, Level 2) or from what a reader would expect:

- **Sign count.** The sign-in check rejects exactly when the new sign count is 1 (`AuthManager.py:247`). The current count passed to the verifier is always 0 (`:238`). When every origin fails, `res` is `None` and the attribute access raises, which the model returns as `Raised(AttributeError("new_sign_count"))`. Section 6.1.1 of the standard has the relying party compare the new counter with the stored one instead.
- **Sign-in owner.** Sign-in does not check that the credential belongs to the user of the email (`:217-227`).
- **Two commits.** The user row and the credential row are committed separately (`:156`, `:169`), not in one transaction. Emails are not unique.
- **No credentials.** A known user without credentials gets sign-in options with an empty allow list (`:188-206`), while an unknown email gets `(None, None)`. Section 14.6.2 of the standard advises against answers that reveal whether an account exists.

## Model

| member | source | states |
|---|---|---|
| Wrappers.MapOutcome | assistant/backend/managers/AuthManager.py:98 | a step applied to each element in order: `Ok` exactly when every step succeeds, and then the results element by element; otherwise the exception of the first element whose step raises |
| Wrappers.MapOutcomeFirstFailure | assistant/backend/managers/AuthManager.py:97-103 | once a prefix succeeded and the next element raises, the whole loop raises that element's exception |
| Base64Url.RoundTrip | assistant/backend/managers/AuthManager.py:162-163 | the model's `base64url_to_bytes` of the unpadded urlsafe encoding of any bytes gives those bytes back |
| Base64Url.PaddingRestored | assistant/backend/managers/AuthManager.py:137 | on a challenge unpadded as at line 120, the `-len(s) % 4` padding the model's decoder adds is exactly the padding `.rstrip("=")` removed |
| Base64Url.DecodeEncode | assistant/backend/managers/AuthManager.py:120 | decoding the padded urlsafe encoding of any bytes gives those bytes back |
| Base64Url.ToBase64UrlHasNoPadding | assistant/backend/managers/AuthManager.py:120 | after `.rstrip("=")` every character is an alphabet symbol and none is `=` |
| Base64Url.ToBase64UrlIsUnpadded | assistant/backend/managers/AuthManager.py:120 | stripping removes exactly the padding: the result is the encoding's symbols |
| Base64Url.EncodeSplits | assistant/backend/managers/AuthManager.py:120 | the encoding is the symbols followed by `==`, `=` or nothing by the length modulo 3 |
| Base64Url.UnpaddedLength | assistant/backend/managers/AuthManager.py:120 | the unpadded text's length modulo 4 is 0, 2 or 3 as the byte count modulo 3 is 0, 1 or 2 |
| Base64Url.StripPaddingOf | assistant/backend/managers/AuthManager.py:120 | stripping `=` from symbols followed by padding leaves the symbols |
| JsonList.LoadsDumps | assistant/backend/managers/AuthManager.py:166 | `json.loads` of `json.dumps` of a list of strings gives the list back, which is what makes a stored transport list readable at line 98 |
| JsonList.ParseElementsOf | assistant/backend/managers/AuthManager.py:98 | the elements of a non-empty dumped list, then `]`, parse to that list |
| JsonList.ParseEscaped | assistant/backend/managers/AuthManager.py:98 | an escaped string body followed by its closing quote parses to the string and the text after it |
| Models.Filter | assistant/backend/managers/AuthManager.py:190-191 | a row is selected exactly when it is stored and satisfies the condition; never more rows than stored; all rows stay exactly when all satisfy it |
| Models.FilterSubMultiset | assistant/backend/managers/AuthManager.py:190-191 | a selection holds each row at most as often as the table does: nothing is added or duplicated |
| Models.FilterKeepsAll | assistant/backend/managers/ConversationsManager.py:137-146 | a condition every row meets selects every row, in order |
| Models.FilterFilter | assistant/backend/managers/ConversationsManager.py:139-145 | filtering twice is filtering once by both conditions |
| Models.FilterAppend | assistant/backend/managers/AuthManager.py:168-169 | after a row is added, a selection is the old selection plus the new row if it matches |
| Models.ScalarOneOrNone | assistant/backend/managers/AuthManager.py:87-88 | no row exactly when none matches; one row only when it is the single match; several exactly when more than one matches |
| Models.ScalarOutcome | assistant/backend/managers/AuthManager.py:88 | `scalar_one_or_none` raises `MultipleResultsFound` exactly on several rows, and returns the row when there is one |
| Models.UniqueKeyFilter | assistant/backend/models.py:40 | on a table whose keys are unique at most one row has a given key |
| Models.UniqueKeyLookup | assistant/backend/models.py:40 | a lookup by primary key never raises |
| Models.KeyLookupNoRow | assistant/backend/managers/AuthManager.py:217-221 | a lookup by key finds nothing exactly when no row has that key |
| Store.Database.constructor | assistant/backend/models.py:16-110 | an empty database, whose primary keys are trivially unique |
| Store.UniqueAppend | assistant/backend/managers/AuthManager.py:268-269 | adding a row with a new key keeps the keys unique |
| Store.UniqueFilter | assistant/backend/managers/AuthManager.py:275-277 | deleting rows keeps the keys unique |
| Tokens.SessionClaims | assistant/backend/managers/AuthManager.py:171-175 | the subject is the user id; the expiry is one day after the issue time when both are read at the same instant, and no earlier otherwise |
| Tokens.DecodeJwt | assistant/backend/managers/AuthManager.py:49-65 | the user id is returned exactly when the token is signed with the secret, unexpired and has a subject; otherwise `Unauthorized("Token expired")` for an expired token and `Unauthorized("Invalid token")` for any other failure |
| Tokens.DecodeMinted | assistant/backend/managers/AuthManager.py:38-65 | a minted session token decodes to its user until a day after issue, then to "Token expired" |
| Tokens.OtherSecretIsInvalid | assistant/backend/managers/AuthManager.py:49-62 | a token signed with another secret is "Invalid token" |
| WebAuthn.Upper | assistant/backend/managers/AuthManager.py:98 | `str.upper()`: each ASCII lower-case letter is raised, every other character kept |
| WebAuthn.TransportNamed | assistant/backend/managers/AuthManager.py:98 | `AuthenticatorTransport[name]` is the member of that name, and `KeyError(name)` exactly when no member has it |
| WebAuthn.TransportNameIsUpperValue | assistant/backend/managers/AuthManager.py:98 | every member is named by its value in upper case |
| WebAuthn.TransportNamedValue | assistant/backend/managers/AuthManager.py:98 | every transport's upper-cased value names it |
| WebAuthn.ParseTransportValues | assistant/backend/managers/AuthManager.py:98 | the values of a list of transports parse back to that list |
| WebAuthn.DescriptorOfStored | assistant/backend/managers/AuthManager.py:97-103 | a credential row as registration writes it reads back as the descriptor of its raw id and transports |
| WebAuthn.BuildDescriptors | assistant/backend/managers/AuthManager.py:97-103 | the loop yields the descriptor of every credential in store order, or the first exception a credential raises |
| WebAuthn.FirstAccepted | assistant/backend/managers/AuthManager.py:133-145 | the first origin whose check accepts and its result, every earlier origin having failed; none exactly when every origin fails |
| WebAuthn.TryOrigins | assistant/backend/managers/AuthManager.py:132-145 | the loop stops at the first accepting origin and returns its result; the origins tried in vain are those before it, or all of them |
| Auth.ChallengeText | assistant/backend/managers/AuthManager.py:120 | the challenge text has no `=` and decodes back to the challenge |
| Auth.RegistrationOptions | assistant/backend/managers/AuthManager.py:85-122 | the options step's result for the current tables, as `RegistrationOptionsOf` defines it |
| Auth.RegistrationOptionsKnown | assistant/backend/managers/AuthManager.py:89-120 | for a known email the user id is the decoded stored handle, the exclusion list holds the descriptors of that handle's credentials in store order, and the challenge text decodes to the challenge |
| Auth.RegistrationOptionsUnknown | assistant/backend/managers/AuthManager.py:89-118 | for an unknown email the user id is 32 fresh random bytes, nothing is excluded, the user name is the email and the timeout is 12000 |
| Auth.RegistrationResponse | assistant/backend/managers/AuthManager.py:124-178 | the result and the new tables are those `Register` gives for the old tables; the failed origins are those tried before the accepting one; primary keys stay unique |
| Auth.CommitRegistration | assistant/backend/managers/AuthManager.py:150-178 | after a verified registration, the result and the new tables are those `Commit` gives for the old tables; primary keys stay unique |
| Auth.RegisterNotVerified | assistant/backend/managers/AuthManager.py:147-148 | when both origins fail the result is `False` and no table changes |
| Auth.RegisterKeepsNewUser | assistant/backend/managers/AuthManager.py:150-169 | after a verified registration for a new email the new user stays whatever follows, and a response without `transports` raises `KeyError` with the user kept |
| Auth.RegisterOwner | assistant/backend/managers/AuthManager.py:150-158 | an unknown email adds exactly one user, a known one adds none; afterwards the email finds the owner |
| Auth.RegisterCred | assistant/backend/managers/AuthManager.py:162-177 | one credential row is appended with a new id: its id and key decode to the verified ones, it belongs to the owner's handle and is named by the email, its transports read back as sent, and the token decodes to the owner's id until a day passes |
| Auth.RegisteredCredListed | assistant/backend/managers/AuthManager.py:162-169 | after registration the owner's descriptor list is the old list followed by the new credential's descriptor |
| Auth.CredsAfterRegister | assistant/backend/managers/AuthManager.py:162-177 | the credential table gains exactly the new credential and the token carries the session claims of the owner |
| Auth.RegisterKeepsCredsOwned | assistant/backend/managers/AuthManager.py:153-169 | every credential still belongs to a stored user after a registration, whatever its outcome |
| Auth.AddCredKeepsCredsOwned | assistant/backend/managers/AuthManager.py:167-169 | adding the credential of a stored owner keeps every credential owned |
| Auth.SigninRequestOptions | assistant/backend/managers/AuthManager.py:180-209 | the options step's result for the current tables, as `SigninRequestOptionsOf` defines it |
| Auth.SigninRequestOptionsKnown | assistant/backend/managers/AuthManager.py:190-208 | for a known email the allow list holds the descriptors of that user's credentials in store order (empty when there are none), user verification is required, the timeout is 12000 and the challenge text decodes to the challenge |
| Auth.SigninRequestOptionsUnknown | assistant/backend/managers/AuthManager.py:182-186 | an email that names no user gets `(None, None)` |
| Auth.SigninResponse | assistant/backend/managers/AuthManager.py:211-258 | the result for the current tables, as `Signin` defines it; once both lookups succeed the origins logged as failed are exactly those before the first accepting one, and none are tried otherwise |
| Auth.SigninUnknownCredential | assistant/backend/managers/AuthManager.py:217-221 | an unknown credential id gives `None` |
| Auth.SigninUnknownUser | assistant/backend/managers/AuthManager.py:223-227 | with the credential found, an email that names no user gives `None` before any origin is tried |
| Auth.SigninDecided | assistant/backend/managers/AuthManager.py:229-256 | with a credential and a user found: every origin failing raises on `new_sign_count`; a new sign count of 1 gives `None`; any other count gives a token that decodes to the user's id until a day passes |
| Auth.SigninIgnoresCredentialOwner | assistant/backend/managers/AuthManager.py:217-227 | the result depends on the credential only through its public key, not on whose credential it is |
| Auth.SigninCheckConstants | assistant/backend/managers/AuthManager.py:232-240 | each check is made with the origin, the relying-party id, the decoded key, a current sign count of 0 and user verification required |
| Auth.CreateSession | assistant/backend/managers/AuthManager.py:260-271 | a session row with the new id, the user and the new token, expiring one day after now, is appended and its id and token returned; an id already stored makes the commit fail; sessions stay owned by stored users when the given user exists |
| Auth.DeleteSession | assistant/backend/managers/AuthManager.py:273-277 | every session with the token is removed and the others stay, in order; sessions owned by stored users stay so |
| Conversations.ColumnNamed | assistant/backend/managers/ConversationsManager.py:143-145 | `getattr(Conversation, key)` is the column of that name, and no column exactly when no column has that name (the class's other attributes are `Conversations.Inherited`) |
| Conversations.RowFrom | assistant/backend/models.py:103-110 | a row is built exactly when every `NOT NULL` column has a value, and then holds the given value in every column; otherwise an integrity error |
| Conversations.ValidateMeansBothExist | assistant/backend/managers/ConversationsManager.py:161-167 | on keyed tables validation is true exactly when both the assistant and the user exist |
| Conversations.ValidatedExist | assistant/backend/managers/ConversationsManager.py:161-167 | a true validation means both rows exist |
| Conversations.CreatedRow | assistant/backend/managers/ConversationsManager.py:33-39 | the new row has the new id, both timestamps now, archive `"False"`, the assistant and the user; it can be built exactly when a name is given |
| Conversations.CreateConversation | assistant/backend/managers/ConversationsManager.py:27-43 | failed validation gives `None`, an `id` in the data a `TypeError`, a missing column or a taken id an integrity error, leaving the table unchanged; otherwise the new row is appended and its id returned; keys and links stay intact |
| Conversations.CreatedLinked | assistant/backend/managers/ConversationsManager.py:27-43 | a conversation created after a true validation links an existing assistant and user, so every conversation stays linked |
| Conversations.LinkedAppend | assistant/backend/models.py:109-110 | a row whose links name stored rows keeps the conversations linked |
| Conversations.UpdatedRow | assistant/backend/managers/ConversationsManager.py:47-54 | the updated row takes `name` and `archive` from the patch, else from the data; the update time is now; every other column takes the data's value, else keeps its own |
| Conversations.UpdateConversation | assistant/backend/managers/ConversationsManager.py:45-79 | no row with the id gives `None`; a failing row or a duplicate key raises and changes nothing; otherwise the table is the updated one and the result is the view of the updated row |
| Conversations.DeleteConversation | assistant/backend/managers/ConversationsManager.py:81-88 | the conversation rows with the id and all of that conversation's messages go; the result says whether a conversation row went; keys and message links stay intact |
| Conversations.DeletedCount | assistant/backend/managers/ConversationsManager.py:85-88 | a row is removed exactly when some row has the id |
| Conversations.DeleteKeepsLinks | assistant/backend/managers/ConversationsManager.py:83-86 | every remaining message still links to a remaining conversation or to none |
| Conversations.MessagesInPairs | assistant/backend/managers/ConversationsManager.py:102-106 | the loop collects exactly the joined messages, in order |
| Conversations.JoinEmpty | assistant/backend/managers/ConversationsManager.py:93-97 | the outer join is empty exactly when no conversation has the id |
| Conversations.JoinOfOne | assistant/backend/managers/ConversationsManager.py:93-106 | on a keyed table the join's conversation is the one with the id and it carries exactly that conversation's messages |
| Conversations.RetrieveConversation | assistant/backend/managers/ConversationsManager.py:90-119 | `None` exactly when no conversation has the id; otherwise the conversation with exactly the messages whose `conversation_id` is the id |
| Conversations.ApplyFilters | assistant/backend/managers/ConversationsManager.py:137-146 | one condition per filter in order, or the `AttributeError` of the first filter that raises, as `ConditionOf` defines them |
| Conversations.ConditionOf | assistant/backend/managers/ConversationsManager.py:139-145 | a filter raises exactly when its key is not `name`, not a column, and either no class attribute or an inherited one given a list (`AttributeError` of the key, or of `in_`); an inherited attribute given one value becomes a constant condition holding exactly when the attribute equals the value |
| Conversations.Lower | assistant/backend/managers/ConversationsManager.py:150 | `str.lower()`: each ASCII upper-case letter is lowered, every other character kept |
| Conversations.LowerIdempotent | assistant/backend/managers/ConversationsManager.py:140 | lowering twice is lowering once |
| Conversations.Select | assistant/backend/managers/ConversationsManager.py:137-146 | a row is listed exactly when it is stored and meets every condition |
| Conversations.SelectAll | assistant/backend/managers/ConversationsManager.py:138 | without filters every row is listed |
| Conversations.SelectStep | assistant/backend/managers/ConversationsManager.py:139-145 | each further filter narrows the previous selection by its condition |
| Conversations.ConstantSelects | assistant/backend/managers/ConversationsManager.py:145 | a constant condition selects every row the other filters select, or none |
| Conversations.InheritedKeyListing | assistant/backend/managers/ConversationsManager.py:143-145 | a single filter on an inherited attribute such as `metadata` does not raise: it selects every row when the attribute equals the value and none otherwise; a list for it raises `AttributeError` |
| Conversations.NameFilterIgnoresCase | assistant/backend/managers/ConversationsManager.py:140-141 | the name filter ignores the case of ASCII letters in the pattern and in the name, and the empty pattern matches every name |
| Conversations.SortOrder | assistant/backend/managers/ConversationsManager.py:148-152 | an order is applied exactly when `sort_by` is one of id, name, archive and assistant_id; it is that column, descending exactly when the lowered order is `desc` |
| Conversations.StrLessIrreflexive | assistant/backend/managers/ConversationsManager.py:151 | no text sorts before itself |
| Conversations.StrLessTransitive | assistant/backend/managers/ConversationsManager.py:151 | the text order is transitive |
| Conversations.StrLessTotal | assistant/backend/managers/ConversationsManager.py:151 | any two different texts are ordered one way or the other |
| Conversations.PrecedesIrreflexive | assistant/backend/managers/ConversationsManager.py:151 | no row strictly precedes itself |
| Conversations.PrecedesTransitive | assistant/backend/managers/ConversationsManager.py:151 | strict precedence between rows is transitive, ascending or descending |
| Conversations.Insert | assistant/backend/managers/ConversationsManager.py:151 | inserting a row adds exactly that row |
| Conversations.InsertSorted | assistant/backend/managers/ConversationsManager.py:151 | inserting into a sorted list keeps it sorted |
| Conversations.SortedInFront | assistant/backend/managers/ConversationsManager.py:151 | a row strictly before the head of a sorted list can go in front of it |
| Conversations.SortedBehind | assistant/backend/managers/ConversationsManager.py:151 | a head that nothing after it strictly precedes keeps a sorted list sorted |
| Conversations.SortRows | assistant/backend/managers/ConversationsManager.py:151 | the ordered rows are a permutation of the rows |
| Conversations.SortRowsSorted | assistant/backend/managers/ConversationsManager.py:151 | the ordered rows are sorted by the column, ascending or descending |
| Conversations.Page | assistant/backend/managers/ConversationsManager.py:126 | at most `limit` rows, the rows from position `offset` on in order, fewer only when the rows run out |
| Conversations.PageSplit | assistant/backend/managers/ConversationsManager.py:126 | consecutive pages put together are the page spanning both |
| Conversations.RetrieveConversations | assistant/backend/managers/ConversationsManager.py:121-158 | a key that is no attribute of the class, or a list for an inherited attribute, raises; otherwise the requested page of the filtered rows in the requested order, and the count of all filtered rows whatever the page |
| Conversations.ListingMatches | assistant/backend/managers/ConversationsManager.py:121-135 | a listing has at most `limit` rows, each stored and meeting every filter, sorted when an order is asked, and is short only at the end of the filtered rows |
| Messages.LastSegment | assistant/backend/managers/MessagesManager.py:114-117 | the result has no `/`, ends the URI, and is preceded by `/` unless it is the whole URI |
| Messages.LastSegmentNoSlash | assistant/backend/managers/MessagesManager.py:114-117 | a text without `/` is its own last segment |
| Messages.LastSegmentAfterSlash | assistant/backend/managers/MessagesManager.py:114-117 | the last segment of a text ending in `/` and a part without `/` is that part |
| Messages.LastSegmentIdempotent | assistant/backend/managers/MessagesManager.py:47 | taking the last segment twice is taking it once |
| Messages.GetLlmName | assistant/backend/managers/MessagesManager.py:35-47 | exactly one of a name and an error; the error is "Assistant not found" exactly when no resource has the assistant id, or else "LLM resource not found"; a name has no `/` |
| Messages.GetLlmNameKeyed | assistant/backend/managers/MessagesManager.py:35-47 | on a keyed table, for a stored assistant: "LLM resource not found" exactly when it names no LLM resource, and otherwise the last segment of that resource's URI |
| Messages.CreateMessageOf | assistant/backend/managers/MessagesManager.py:52-96 | exactly one of a value and an error; every error is one of the three not-found texts or starts with the unexpected-error prefix; a message is saved exactly when a conversation id is given and no error occurs, under the new id, which is the reply |
| Messages.Answered | assistant/backend/managers/MessagesManager.py:67-93 | the same guarantees once the conversation is found, the errors being the lookup's or unexpected ones |
| Messages.Saved | assistant/backend/managers/MessagesManager.py:85-89 | the message with the answer, the timestamp and the request's fields is saved exactly when the new id is free, and its id is the reply; otherwise an unexpected error |
| Messages.UnknownConversationFirst | assistant/backend/managers/MessagesManager.py:59-63 | an unknown conversation gives "Conversation not found" and saves nothing, whatever the assistant and the chain |
| Messages.LlmErrorReturned | assistant/backend/managers/MessagesManager.py:67-69 | an error of the name lookup is returned unchanged and nothing is saved |
| Messages.AnswerSaved | assistant/backend/managers/MessagesManager.py:81-89 | in a known conversation the chain's answer is saved as one message under the new id, which is returned |
| Messages.AnswerReturned | assistant/backend/managers/MessagesManager.py:90-93 | without a conversation the answer of the testing session is returned and nothing is saved |
| Messages.CreateMessage | assistant/backend/managers/MessagesManager.py:52-96 | the reply of `CreateMessageOf`, and the message table grows by exactly the message it saves |
| Messages.AnswerMessage | assistant/backend/managers/MessagesManager.py:67-93 | the reply of `Answered`, and the message table grows by exactly the message it saves |
| Messages.RetrieveMessage | assistant/backend/managers/MessagesManager.py:98-112 | `None` exactly when no message has the id; a message returned is stored and has the id |
| Messages.RetrieveMessageKeyed | assistant/backend/managers/MessagesManager.py:98-112 | on a keyed table reading never raises and a stored message is found by its id |
| Messages.DeleteMessage | assistant/backend/managers/MessagesManager.py:131-136 | every row with the id goes and the others stay in order; true exactly when such a row existed |
| Messages.DeleteOneMore | assistant/backend/managers/MessagesManager.py:126-128 | deleting one more id after others is deleting them all |
| Messages.PendingPresent | assistant/backend/managers/MessagesManager.py:127 | a listed id is still stored exactly when no earlier delete named it |
| Messages.DeleteAgain | assistant/backend/managers/MessagesManager.py:133-136 | deleting an id already deleted changes nothing |
| Messages.DeleteEach | assistant/backend/managers/MessagesManager.py:126-129 | true exactly when the ids are distinct, all of them then deleted; otherwise it stops at the first repeated id, the earlier ones deleted |
| Messages.DeleteMessagesFromConversation | assistant/backend/managers/MessagesManager.py:119-129 | true exactly when the listed ids are distinct; on a keyed table always true, with every message of the conversation deleted and the rest kept |
| Messages.ListedDistinct | assistant/backend/managers/MessagesManager.py:121-128 | on a keyed table the listed ids are distinct and deleting them deletes exactly the conversation's messages |
| Messages.ListedMember | assistant/backend/managers/MessagesManager.py:121-123 | on a keyed table a stored message's id is listed exactly when the message is in the conversation |
| Messages.SaveMessage | assistant/backend/managers/MessagesManager.py:138-144 | the message under the new id is appended and the id returned; an id already stored makes the commit fail and nothing changes |

## Left out

- Concurrency, the singleton construction with its lock, logging and the `print` are left out. The managers hold no state the model needs.
- `py_webauthn` is represented by an oracle per ceremony, with the origin tried and the inputs it is given. Parsing the attestation and the assertion, checking signatures and rendering `options_to_json` are not modelled. The options are a record of the fields the code sets.
- The names of `AuthenticatorTransport` members are assumed to be `USB`, `NFC`, `BLE`, `INTERNAL`, `CABLE` and `HYBRID`, with lower-case values. The library is not part of this model.
- `get_env_key` is assumed to return `None` when a key without a default is missing. `common/utils.py` is not part of this model.
- `base64url_to_bytes` is assumed to restore the padding to a multiple of four and decode. The library is not part of this model. On every unpadded encoding this gives the same bytes as a decoder that appends a fixed `===` and ignores the excess.
- Which attributes `Conversation` inherits from SQLModel and pydantic, and what `==` between them and a value gives, is a parameter (`Conversations.Inherited`). Neither library is part of this model.
- Base64url decoding accepts only the standard alphabet with correct padding. Python's lenient decoder, which discards other characters, is not modelled.
- JsonList models escapes for `"` and `\` only, and no whitespace other than the `", "` separator. JSON that is not a list of strings counts as a decode error.
- JWTs keep their claims and signing key as data. Base64url segments, HMAC and the `iat`/`nbf` checks of PyJWT are not modelled, and neither is lazy generation of the secret.
- Tokens.SessionClaims: the claims are integer seconds, not the `datetime` values PyJWT converts.
- Case mapping in `str.upper()`, `str.lower()` and `ILIKE` covers ASCII letters only.
- LIKE wildcards (`%`, `_`) inside a name filter are matched literally. For a list value in the name filter, the Python `repr` quoting of strings that contain quotes is not modelled.
- Schema classes in `backend/schemas.py` are not part of this model:
  - The conversation dictionaries are maps from columns to values. Keys that are not columns of `Conversation` are left out, except `messages`, which the update drops.
  - The listing returns rows rather than `ConversationSchema` objects.
  - `MessageCreateSchema` is the four fields `create_message` reads.
- Messages.CreateMessage: the `KeyError` for a request without `assistant_id` or `prompt` is not modelled, because the request record always has both. The assignment of `last_updated_timestamp` (MessagesManager.py line 65) is left out. It is made on an object of a session that the shown code never commits, and `backend/db.py` is not part of this model.
- Messages.CreateMessage: `OllamaLLM` and the numeric conversion of its settings (lines 71-75) are not modelled. Only the model name reaches the chain.
- Messages.ErrorText: exception texts are reduced to the exception's class name, except for `KeyError` and exceptions from outside the model.
- Negative `offset` and `limit`, which SQLite treats specially, are excluded by their `nat` type.
- Foreign keys are not enforced, as in SQLite by default. Link predicates are proved preserved where the code keeps them.
- Timestamps are opaque text produced by `get_current_timestamp`, which is a parameter.
