/**
 * AuthManager.py: the registration and sign-in ceremonies over the `User`, `Cred` and `Session`
 * tables, and the server-side session rows.
 */
module Auth {
  import opened Wrappers
  import opened Models
  import opened Store
  import opened WebAuthn
  import opened Tokens
  import Base64Url
  import JsonList

  /**
   * The environment variables the manager reads; `None` is an unset variable. `PAIOS_EXPECTED_RP_ID`
   * is read without a default (AuthManager.py lines 107, 139, 202 and 236).
   */
  datatype Env = Env(paiosUrl: Option<string>, assistantUrl: Option<string>, rpId: Option<string>)

  /** The origins registration falls back on when the URL variables are unset (AuthManager.py lines 127-128). */
  const DefaultPaiosUrl: string := "https://localhost:8443"
  const DefaultAssistantUrl: string := "https://localhost:3000"

  /** Ceremony timeout, in milliseconds. */
  const CeremonyTimeout: int := 12000

  /** COSE algorithm identifier of ECDSA with SHA-256. */
  const Es256: int := -7

  /** A user handle minted by `os.urandom(32)`. */
  type FreshHandle = b: seq<Base64Url.byte> | |b| == 32 witness seq(32, i => 0)

  /** The registration options AuthManager.py lines 105-118 ask the library for. */
  datatype CreationOptions = CreationOptions(
    rpName: string, rpId: Option<string>, userName: string, userId: seq<Base64Url.byte>,
    challenge: seq<Base64Url.byte>, attestation: string, attachment: string,
    residentKey: string, algorithms: seq<int>, timeout: int, exclude: seq<Descriptor>)

  /** The authentication options of AuthManager.py lines 201-206. */
  datatype RequestOptions = RequestOptions(
    rpId: Option<string>, timeout: int, allow: seq<Descriptor>, userVerification: string,
    challenge: seq<Base64Url.byte>)

  function EmailIs(email: string): User -> bool {
    (u: User) => u.email == email
  }

  function HandleIs(handle: string): Cred -> bool {
    (c: Cred) => c.handle == handle
  }

  /** `select(User).where(User.email == email)`, then `scalar_one_or_none()`. */
  function UserByEmail(users: seq<User>, email: string): Lookup<User> {
    ScalarOneOrNone(users, EmailIs(email))
  }

  /** `select(Cred).filter(Cred.webauthn_user_id == handle)`, then `scalars().all()`. */
  function CredsOf(creds: seq<Cred>, handle: string): seq<Cred> {
    Filter(creds, HandleIs(handle))
  }

  /** The text a challenge is sent as (AuthManager.py lines 120 and 208). */
  function ChallengeText(challenge: seq<Base64Url.byte>): (s: string)
    ensures forall i :: 0 <= i < |s| ==> s[i] != '='
    ensures Base64Url.ToBytes(s) == Some(challenge)
  {
    Base64Url.ToBase64UrlHasNoPadding(challenge);
    Base64Url.RoundTrip(challenge);
    Base64Url.ToBase64Url(challenge)
  }

  /** The options for `email` once the user handle is known (AuthManager.py lines 91-122). */
  function CreationFor(creds: seq<Cred>, env: Env, email: string, found: Option<User>,
                       userId: seq<Base64Url.byte>, challenge: seq<Base64Url.byte>): Outcome<(string, CreationOptions)>
  {
    var exclude := if found.Some? then Descriptors(CredsOf(creds, found.value.handle)) else Ok([]);
    match exclude
    case Raised(e) => Raised(e)
    case Ok(ds) =>
      Ok((ChallengeText(challenge),
          CreationOptions("pAI-OS", env.rpId, email, userId, challenge, "direct", "cross-platform",
                          "required", [Es256], CeremonyTimeout, ds)))
  }

  /** What `registration_options` (AuthManager.py lines 85-122) returns; it writes nothing. */
  function RegistrationOptionsOf(users: seq<User>, creds: seq<Cred>, env: Env, email: string,
                               random: FreshHandle, challenge: seq<Base64Url.byte>): Outcome<(string, CreationOptions)>
  {
    match UserByEmail(users, email)
    case ManyRows => Raised(MultipleResultsFound)
    case NoRow => CreationFor(creds, env, email, None, random, challenge)
    case OneRow(u) =>
      match Base64Url.ToBytes(u.handle)
      case None => Raised(Base64Error)
      case Some(h) => CreationFor(creds, env, email, Some(u), h, challenge)
  }

  /** Known email: the stored handle, and one exclude descriptor per credential of it, in store order. */
  lemma RegistrationOptionsKnown(users: seq<User>, creds: seq<Cred>, env: Env, email: string,
                                 random: FreshHandle, challenge: seq<Base64Url.byte>)
    requires UserByEmail(users, email).OneRow?
    requires RegistrationOptionsOf(users, creds, env, email, random, challenge).Ok?
    ensures var u := UserByEmail(users, email).row;
      var (text, o) := RegistrationOptionsOf(users, creds, env, email, random, challenge).value;
      && Base64Url.ToBytes(u.handle) == Some(o.userId)
      && |o.exclude| == |CredsOf(creds, u.handle)|
      && (forall i :: 0 <= i < |o.exclude| ==> DescriptorOf(CredsOf(creds, u.handle)[i]) == Ok(o.exclude[i]))
      && Base64Url.ToBytes(text) == Some(o.challenge) && o.challenge == challenge
  {
  }

  /** Unknown email: the fresh random handle and an empty exclude list. */
  lemma RegistrationOptionsUnknown(users: seq<User>, creds: seq<Cred>, env: Env, email: string,
                                   random: FreshHandle, challenge: seq<Base64Url.byte>)
    requires UserByEmail(users, email).NoRow?
    ensures var r := RegistrationOptionsOf(users, creds, env, email, random, challenge);
      r.Ok? && r.value.1.userId == random && |r.value.1.userId| == 32 && r.value.1.exclude == [] &&
      r.value.1.userName == email && r.value.1.timeout == CeremonyTimeout
  {
  }

  /** `registration_options`, building the exclude list in a loop. */
  method RegistrationOptions(db: Database, env: Env, email: string, random: FreshHandle,
                             challenge: seq<Base64Url.byte>) returns (r: Outcome<(string, CreationOptions)>)
    ensures r == RegistrationOptionsOf(db.users, db.creds, env, email, random, challenge)
  {
    var found := UserByEmail(db.users, email);
    if found.ManyRows? {
      return Raised(MultipleResultsFound);
    }
    var userId: seq<Base64Url.byte> := random;
    if found.OneRow? {
      var decoded := Base64Url.ToBytes(found.row.handle);
      if decoded.None? {
        return Raised(Base64Error);
      }
      userId := decoded.value;
    }
    var exclude: seq<Descriptor> := [];
    if found.OneRow? {
      var built := BuildDescriptors(CredsOf(db.creds, found.row.handle));
      if built.Raised? {
        return Raised(built.error);
      }
      exclude := built.value;
    }
    var options := CreationOptions("pAI-OS", env.rpId, email, userId, challenge, "direct", "cross-platform",
                                   "required", [Es256], CeremonyTimeout, exclude);
    return Ok((ChallengeText(challenge), options));
  }

  /** The manager's configuration: its environment and its token signing secret. */
  datatype Server = Server(env: Env, secret: string)

  /** Values a call draws from `uuid4` and from two readings of the clock. */
  datatype Minted = Minted(id: string, issuedAt: int, expiryBase: int)

  /** What the library reports on a verified registration. */
  datatype VerifiedRegistration = VerifiedRegistration(credentialId: seq<Base64Url.byte>, publicKey: seq<Base64Url.byte>, backedUp: bool)

  /** The arguments `verify_registration_response` gets besides the browser's response. */
  datatype RegistrationCheck = RegistrationCheck(origin: string, challenge: seq<Base64Url.byte>, rpId: Option<string>, requireUserVerification: bool)

  /** The browser's registration response as this code reads it: `response["response"]["transports"]`. */
  datatype AttestationResponse = AttestationResponse(transports: Option<seq<string>>)

  /** The arguments of `registrationResponse`. */
  datatype RegistrationRequest = RegistrationRequest(challenge: string, email: string, userId: string, response: AttestationResponse)

  /** `registrationResponse` returns `False` or a token. */
  datatype Registration = NotVerified | Registered(token: Jwt)

  /** The allowed origins, assistant first (AuthManager.py lines 127-130). */
  function RegistrationOrigins(env: Env): seq<string> {
    [env.assistantUrl.GetOr(DefaultAssistantUrl), env.paiosUrl.GetOr(DefaultPaiosUrl)]
  }

  /** The body of the `try` of AuthManager.py lines 135-141 for one origin; decoding the challenge can raise there. */
  function RegistrationAttempts(env: Env, challenge: string, verify: RegistrationCheck -> Verdict<VerifiedRegistration>)
    : string -> Verdict<VerifiedRegistration>
  {
    (origin: string) =>
      match Base64Url.ToBytes(challenge)
      case None => Failed
      case Some(c) => verify(RegistrationCheck(origin, c, env.rpId, false))
  }

  /** A Python `bool` written to the text column `backed_up`, as SQLite stores it. */
  function BackedUpText(b: bool): string {
    if b then "1" else "0"
  }

  /** The user row `registrationResponse` creates for an unknown email (AuthManager.py line 154). */
  function NewUser(req: RegistrationRequest, minted: Minted): User {
    User(minted.id, req.userId, Some(req.email), req.email)
  }

  /** The credential row of AuthManager.py lines 162-167, owned by `owner`. */
  function NewCred(v: VerifiedRegistration, owner: User, email: string, transports: seq<string>): Cred {
    Cred(Base64Url.ToBase64Url(v.credentialId), Base64Url.ToBase64Url(v.publicKey), owner.handle,
         BackedUpText(v.backedUp), Some(email), JsonList.Dumps(transports))
  }

  /** The result of `registrationResponse` and the tables after it. */
  datatype RegistrationEffect = RegistrationEffect(result: Outcome<Registration>, users: seq<User>, creds: seq<Cred>)

  /**
   * `registrationResponse` (AuthManager.py lines 124-178). The user row and the credential row are
   * committed separately, so an error after the first commit leaves the new user in place.
   */
  function Register(users: seq<User>, creds: seq<Cred>, server: Server, req: RegistrationRequest,
                    verify: RegistrationCheck -> Verdict<VerifiedRegistration>, minted: Minted): RegistrationEffect
  {
    match FirstAccepted(RegistrationOrigins(server.env), RegistrationAttempts(server.env, req.challenge, verify))
    case None => RegistrationEffect(Ok(NotVerified), users, creds)
    case Some((_, v)) => Commit(users, creds, server, req, v, minted)
  }

  /** What follows a verified registration (AuthManager.py lines 150-178): find or create the owner, then add the credential. */
  function Commit(users: seq<User>, creds: seq<Cred>, server: Server, req: RegistrationRequest,
                  v: VerifiedRegistration, minted: Minted): RegistrationEffect
  {
    match UserByEmail(users, req.email)
    case ManyRows => RegistrationEffect(Raised(MultipleResultsFound), users, creds)
    case NoRow =>
      if HasKey(users, UserId, minted.id) then RegistrationEffect(Raised(IntegrityError), users, creds)
      else AddCred(users + [NewUser(req, minted)], creds, server, req, v, NewUser(req, minted), minted)
    case OneRow(u) => AddCred(users, creds, server, req, v, u, minted)
  }

  /** The second half of `registrationResponse`, once the owner of the credential is known. */
  function AddCred(users: seq<User>, creds: seq<Cred>, server: Server, req: RegistrationRequest,
                   v: VerifiedRegistration, owner: User, minted: Minted): RegistrationEffect
  {
    match req.response.transports
    case None => RegistrationEffect(Raised(KeyError("transports")), users, creds)
    case Some(names) =>
      var cred := NewCred(v, owner, req.email, names);
      if HasKey(creds, CredId, cred.id) then RegistrationEffect(Raised(IntegrityError), users, creds)
      else
        var claims := SessionClaims(owner.id, minted.issuedAt, minted.expiryBase);
        RegistrationEffect(Ok(Registered(GenerateJwt(claims, server.secret))), users, creds + [cred])
  }

  /** The cases of `AddCred`: it never touches the users, and appends at most the new credential. */
  lemma AddCredCases(users: seq<User>, creds: seq<Cred>, server: Server, req: RegistrationRequest,
                     v: VerifiedRegistration, owner: User, minted: Minted)
    ensures var e := AddCred(users, creds, server, req, v, owner, minted);
      && e.users == users
      && (e.result.Ok? <==>
            req.response.transports.Some? &&
            !HasKey(creds, CredId, NewCred(v, owner, req.email, req.response.transports.value).id))
      && (e.result.Raised? ==> e.creds == creds)
      && (e.result.Ok? ==>
            && e.creds == creds + [NewCred(v, owner, req.email, req.response.transports.value)]
            && e.result.value == Registered(GenerateJwt(SessionClaims(owner.id, minted.issuedAt, minted.expiryBase), server.secret)))
  {
  }

  /** The cases of `Register` once an origin accepted and the email lookup did not raise. */
  lemma RegisterCases(users: seq<User>, creds: seq<Cred>, server: Server, req: RegistrationRequest,
                      verify: RegistrationCheck -> Verdict<VerifiedRegistration>, minted: Minted)
    ensures var fa := FirstAccepted(RegistrationOrigins(server.env), RegistrationAttempts(server.env, req.challenge, verify));
      var e := Register(users, creds, server, req, verify, minted);
      var found := UserByEmail(users, req.email);
      && (fa.None? ==> e == RegistrationEffect(Ok(NotVerified), users, creds))
      && (fa.Some? && found.ManyRows? ==> e == RegistrationEffect(Raised(MultipleResultsFound), users, creds))
      && (fa.Some? && found.NoRow? && HasKey(users, UserId, minted.id) ==>
            e == RegistrationEffect(Raised(IntegrityError), users, creds))
      && (fa.Some? && found.NoRow? && !HasKey(users, UserId, minted.id) ==>
            e == AddCred(users + [NewUser(req, minted)], creds, server, req, fa.value.1, NewUser(req, minted), minted))
      && (fa.Some? && found.OneRow? ==> e == AddCred(users, creds, server, req, fa.value.1, found.row, minted))
  {
  }

  /** `registrationResponse`: the origin loop, then the two commits. */
  method RegistrationResponse(db: Database, server: Server, req: RegistrationRequest,
                              verify: RegistrationCheck -> Verdict<VerifiedRegistration>, minted: Minted)
    returns (r: Outcome<Registration>, failedOrigins: seq<string>)
    modifies db`users, db`creds
    ensures RegistrationEffect(r, db.users, db.creds) == Register(old(db.users), old(db.creds), server, req, verify, minted)
    ensures var fa := FirstAccepted(RegistrationOrigins(server.env), RegistrationAttempts(server.env, req.challenge, verify));
      failedOrigins == if fa.Some? then RegistrationOrigins(server.env)[..fa.value.0] else RegistrationOrigins(server.env)
    ensures old(db.Valid()) ==> db.Valid()
  {
    var res;
    res, failedOrigins := TryOrigins(RegistrationOrigins(server.env), RegistrationAttempts(server.env, req.challenge, verify));
    if res.None? {
      return Ok(NotVerified), failedOrigins;
    }
    r := CommitRegistration(db, server, req, res.value, minted);
  }

  /** The two commits of `registrationResponse` once an origin accepted. */
  method CommitRegistration(db: Database, server: Server, req: RegistrationRequest, v: VerifiedRegistration, minted: Minted)
    returns (r: Outcome<Registration>)
    modifies db`users, db`creds
    ensures RegistrationEffect(r, db.users, db.creds) == Commit(old(db.users), old(db.creds), server, req, v, minted)
    ensures old(db.Valid()) ==> db.Valid()
  {
    var found := UserByEmail(db.users, req.email);
    if found.ManyRows? {
      return Raised(MultipleResultsFound);
    }
    var owner: User;
    if found.NoRow? {
      owner := NewUser(req, minted);
      if HasKey(db.users, UserId, owner.id) {
        return Raised(IntegrityError);
      }
      UniqueAppend(db.users, UserId, owner);
      SetUsers(db, db.users + [owner]);
    } else {
      owner := found.row;
    }
    AddCredCases(db.users, db.creds, server, req, v, owner, minted);
    if req.response.transports.None? {
      return Raised(KeyError("transports"));
    }
    var cred := NewCred(v, owner, req.email, req.response.transports.value);
    if HasKey(db.creds, CredId, cred.id) {
      return Raised(IntegrityError);
    }
    UniqueAppend(db.creds, CredId, cred);
    SetCreds(db, db.creds + [cred]);
    var claims := SessionClaims(owner.id, minted.issuedAt, minted.expiryBase);
    r := Ok(Registered(GenerateJwt(claims, server.secret)));
  }

  /** No origin accepted: `False`, and nothing is written (AuthManager.py lines 147-148). */
  lemma RegisterNotVerified(users: seq<User>, creds: seq<Cred>, server: Server, req: RegistrationRequest,
                            verify: RegistrationCheck -> Verdict<VerifiedRegistration>, minted: Minted)
    requires forall k :: 0 <= k < 2 ==>
      RegistrationAttempts(server.env, req.challenge, verify)(RegistrationOrigins(server.env)[k]).Failed?
    ensures Register(users, creds, server, req, verify, minted) == RegistrationEffect(Ok(NotVerified), users, creds)
  {
  }
  /**
   * The first commit stands: once a verified registration has added the user of a new email, that
   * user stays whatever follows, and a response without `transports` raises with the user kept.
   */
  lemma RegisterKeepsNewUser(users: seq<User>, creds: seq<Cred>, server: Server, req: RegistrationRequest,
                             verify: RegistrationCheck -> Verdict<VerifiedRegistration>, minted: Minted)
    requires FirstAccepted(RegistrationOrigins(server.env), RegistrationAttempts(server.env, req.challenge, verify)).Some?
    requires forall u :: u in users ==> u.email != req.email
    requires !HasKey(users, UserId, minted.id)
    ensures Register(users, creds, server, req, verify, minted).users == users + [NewUser(req, minted)]
    ensures req.response.transports.None? ==>
      Register(users, creds, server, req, verify, minted)
        == RegistrationEffect(Raised(KeyError("transports")), users + [NewUser(req, minted)], creds)
  {
    var v := FirstAccepted(RegistrationOrigins(server.env), RegistrationAttempts(server.env, req.challenge, verify)).value.1;
    AddCredCases(users + [NewUser(req, minted)], creds, server, req, v, NewUser(req, minted), minted);
  }


  /**
   * A successful registration creates a user only for an unknown email, with the caller's handle;
   * for a known email it keeps the users as they are and ignores that handle. Either way, the
   * email then finds exactly the owner of the new credential.
   */
  lemma RegisterOwner(users: seq<User>, creds: seq<Cred>, server: Server, req: RegistrationRequest,
                      verify: RegistrationCheck -> Verdict<VerifiedRegistration>, minted: Minted)
    requires Register(users, creds, server, req, verify, minted).result.Ok?
    requires Register(users, creds, server, req, verify, minted).result.value.Registered?
    ensures var e := Register(users, creds, server, req, verify, minted);
      && (UserByEmail(users, req.email).NoRow? ==> e.users == users + [NewUser(req, minted)])
      && (UserByEmail(users, req.email).OneRow? ==> e.users == users)
      && UserByEmail(e.users, req.email) == OneRow(RegisteredOwner(users, req, minted))
  {
    var fa := FirstAccepted(RegistrationOrigins(server.env), RegistrationAttempts(server.env, req.challenge, verify));
    var found := UserByEmail(users, req.email);
    RegisterCases(users, creds, server, req, verify, minted);
    if found.NoRow? {
      var nu := NewUser(req, minted);
      AddCredCases(users + [nu], creds, server, req, fa.value.1, nu, minted);
      FilterAppend(users, nu, EmailIs(req.email));
      FilterNone(users, EmailIs(req.email));
      assert Filter(users + [nu], EmailIs(req.email)) == [nu];
    } else if found.OneRow? {
      AddCredCases(users, creds, server, req, fa.value.1, found.row, minted);
    }
  }

  /** The user a successful registration attaches the credential to. */
  function RegisteredOwner(users: seq<User>, req: RegistrationRequest, minted: Minted): User
  {
    match UserByEmail(users, req.email)
    case OneRow(u) => u
    case _ => NewUser(req, minted)
  }

  /**
   * A successful registration adds exactly one credential: its id and key decode back to what the
   * verifier reported, it is owned by the owner's stored handle, it is named after the email and
   * it stores the reported transports as JSON. The token names the owner's id for one day.
   */
  lemma RegisterCred(users: seq<User>, creds: seq<Cred>, server: Server, req: RegistrationRequest,
                     verify: RegistrationCheck -> Verdict<VerifiedRegistration>, minted: Minted, now: int)
    requires Register(users, creds, server, req, verify, minted).result.Ok?
    requires Register(users, creds, server, req, verify, minted).result.value.Registered?
    ensures FirstAccepted(RegistrationOrigins(server.env), RegistrationAttempts(server.env, req.challenge, verify)).Some?
    ensures var v := FirstAccepted(RegistrationOrigins(server.env), RegistrationAttempts(server.env, req.challenge, verify)).value.1;
      var e := Register(users, creds, server, req, verify, minted);
      var owner := RegisteredOwner(users, req, minted);
      && req.response.transports.Some?
      && |e.creds| == |creds| + 1 && e.creds[..|creds|] == creds
      && var c := e.creds[|creds|];
      && Base64Url.ToBytes(c.id) == Some(v.credentialId)
      && Base64Url.ToBytes(c.publicKey) == Some(v.publicKey)
      && c.handle == owner.handle && c.name == Some(req.email) && owner.email == req.email
      && JsonList.Loads(c.transports) == req.response.transports
      && !HasKey(creds, CredId, c.id)
      && DecodeJwt(e.result.value.token, server.secret, now) ==
           (if now < minted.expiryBase + OneDay then Uid(owner.id) else Denied(Unauthorized("Token expired")))
  {
    var v := FirstAccepted(RegistrationOrigins(server.env), RegistrationAttempts(server.env, req.challenge, verify)).value.1;
    var e := Register(users, creds, server, req, verify, minted);
    var owner := RegisteredOwner(users, req, minted);
    var c := NewCred(v, owner, req.email, req.response.transports.value);
    CredsAfterRegister(users, creds, server, req, verify, minted);
    Base64Url.RoundTrip(v.credentialId);
    Base64Url.RoundTrip(v.publicKey);
    JsonList.LoadsDumps(req.response.transports.value);
    DecodeMinted(owner.id, server.secret, minted.issuedAt, minted.expiryBase, now);
  }

  /**
   * The new credential becomes the last descriptor of its owner's list: it is excluded from the
   * next registration options and allowed by the next sign-in options for that email.
   */
  lemma RegisteredCredListed(users: seq<User>, creds: seq<Cred>, server: Server, req: RegistrationRequest,
                             verify: RegistrationCheck -> Verdict<VerifiedRegistration>, minted: Minted,
                             ts: seq<Transport>)
    requires Register(users, creds, server, req, verify, minted).result.Ok?
    requires Register(users, creds, server, req, verify, minted).result.value.Registered?
    requires req.response.transports == Some(TransportValues(ts))
    requires Descriptors(CredsOf(creds, RegisteredOwner(users, req, minted).handle)).Ok?
    ensures FirstAccepted(RegistrationOrigins(server.env), RegistrationAttempts(server.env, req.challenge, verify)).Some?
    ensures var v := FirstAccepted(RegistrationOrigins(server.env), RegistrationAttempts(server.env, req.challenge, verify)).value.1;
      var e := Register(users, creds, server, req, verify, minted);
      var h := RegisteredOwner(users, req, minted).handle;
      Descriptors(CredsOf(e.creds, h)) == Ok(Descriptors(CredsOf(creds, h)).value + [Descriptor(v.credentialId, ts)])
  {
    var fa := FirstAccepted(RegistrationOrigins(server.env), RegistrationAttempts(server.env, req.challenge, verify));
    var v := fa.value.1;
    var e := Register(users, creds, server, req, verify, minted);
    var owner := RegisteredOwner(users, req, minted);
    var c := NewCred(v, owner, req.email, TransportValues(ts));
    CredsAfterRegister(users, creds, server, req, verify, minted);
    FilterAppend(creds, c, HandleIs(owner.handle));
    DescriptorOfStored(c, v.credentialId, ts);
    DescriptorsAppend(CredsOf(creds, owner.handle), c);
  }

  /** A credential that can be read, listed last, adds its descriptor last. */
  lemma DescriptorsAppend(cs: seq<Cred>, c: Cred)
    requires Descriptors(cs).Ok? && DescriptorOf(c).Ok?
    ensures Descriptors(cs + [c]) == Ok(Descriptors(cs).value + [DescriptorOf(c).value])
  {
    assert (cs + [c])[..|cs|] == cs;
  }

  /** The credential table after a successful registration. */
  lemma CredsAfterRegister(users: seq<User>, creds: seq<Cred>, server: Server, req: RegistrationRequest,
                           verify: RegistrationCheck -> Verdict<VerifiedRegistration>, minted: Minted)
    requires Register(users, creds, server, req, verify, minted).result.Ok?
    requires Register(users, creds, server, req, verify, minted).result.value.Registered?
    ensures FirstAccepted(RegistrationOrigins(server.env), RegistrationAttempts(server.env, req.challenge, verify)).Some?
    ensures req.response.transports.Some?
    ensures var fa := FirstAccepted(RegistrationOrigins(server.env), RegistrationAttempts(server.env, req.challenge, verify));
      var owner := RegisteredOwner(users, req, minted);
      var c := NewCred(fa.value.1, owner, req.email, req.response.transports.value);
      var e := Register(users, creds, server, req, verify, minted);
      && !HasKey(creds, CredId, c.id)
      && e.creds == creds + [c]
      && e.result.value.token == GenerateJwt(SessionClaims(owner.id, minted.issuedAt, minted.expiryBase), server.secret)
  {
    var fa := FirstAccepted(RegistrationOrigins(server.env), RegistrationAttempts(server.env, req.challenge, verify));
    var found := UserByEmail(users, req.email);
    RegisterCases(users, creds, server, req, verify, minted);
    if found.NoRow? {
      var nu := NewUser(req, minted);
      AddCredCases(users + [nu], creds, server, req, fa.value.1, nu, minted);
    } else if found.OneRow? {
      AddCredCases(users, creds, server, req, fa.value.1, found.row, minted);
    }
  }

  /** Registration keeps every credential owned by some user's handle. */
  lemma RegisterKeepsCredsOwned(users: seq<User>, creds: seq<Cred>, server: Server, req: RegistrationRequest,
                                verify: RegistrationCheck -> Verdict<VerifiedRegistration>, minted: Minted)
    requires CredsOwned(creds, users)
    ensures var e := Register(users, creds, server, req, verify, minted);
      CredsOwned(e.creds, e.users)
  {
    var fa := FirstAccepted(RegistrationOrigins(server.env), RegistrationAttempts(server.env, req.challenge, verify));
    var found := UserByEmail(users, req.email);
    RegisterCases(users, creds, server, req, verify, minted);
    if fa.Some? && found.NoRow? && !HasKey(users, UserId, minted.id) {
      AddCredKeepsCredsOwned(users, users + [NewUser(req, minted)], creds, server, req, fa.value.1, NewUser(req, minted), minted);
    } else if fa.Some? && found.OneRow? {
      AddCredKeepsCredsOwned(users, users, creds, server, req, fa.value.1, found.row, minted);
    }
  }

  /** Adding a credential of a stored owner keeps every credential owned. */
  lemma AddCredKeepsCredsOwned(users: seq<User>, users': seq<User>, creds: seq<Cred>, server: Server, req: RegistrationRequest,
                               v: VerifiedRegistration, owner: User, minted: Minted)
    requires CredsOwned(creds, users)
    requires forall u :: u in users ==> u in users'
    requires owner in users'
    ensures CredsOwned(AddCred(users', creds, server, req, v, owner, minted).creds, users')
  {
    var e := AddCred(users', creds, server, req, v, owner, minted);
    AddCredCases(users', creds, server, req, v, owner, minted);
    if e.result.Ok? {
      CredsOwnedGrow(creds, users, users', [NewCred(v, owner, req.email, req.response.transports.value)], owner);
    } else {
      CredsOwnedGrow(creds, users, users', [], owner);
      assert creds + [] == creds;
    }
  }

  /** Adding users, and credentials of a user that is there, keeps every credential owned. */
  lemma CredsOwnedGrow(creds: seq<Cred>, users: seq<User>, users': seq<User>, added: seq<Cred>, owner: User)
    requires CredsOwned(creds, users)
    requires forall u :: u in users ==> u in users'
    requires owner in users'
    requires forall c :: c in added ==> c.handle == owner.handle
    ensures CredsOwned(creds + added, users')
  {
    forall c | c in creds + added ensures exists u :: u in users' && u.handle == c.handle {
      if c in creds {
        var u :| u in users && u.handle == c.handle;
        assert u in users';
      } else {
        assert c in added;
      }
    }
  }

  /** What `signinRequestOptions` (AuthManager.py lines 180-209) returns; `None` is `(None, None)`. */
  function SigninRequestOptionsOf(users: seq<User>, creds: seq<Cred>, env: Env, email: string,
                                  challenge: seq<Base64Url.byte>): Outcome<Option<(string, RequestOptions)>>
  {
    match UserByEmail(users, email)
    case ManyRows => Raised(MultipleResultsFound)
    case NoRow => Ok(None)
    case OneRow(u) =>
      match Descriptors(CredsOf(creds, u.handle))
      case Raised(e) => Raised(e)
      case Ok(allow) =>
        Ok(Some((ChallengeText(challenge), RequestOptions(env.rpId, CeremonyTimeout, allow, "required", challenge))))
  }

  /** `signinRequestOptions`, building the allow list in a loop; it writes nothing. */
  method SigninRequestOptions(db: Database, env: Env, email: string, challenge: seq<Base64Url.byte>)
    returns (r: Outcome<Option<(string, RequestOptions)>>)
    ensures r == SigninRequestOptionsOf(db.users, db.creds, env, email, challenge)
  {
    var found := UserByEmail(db.users, email);
    if found.ManyRows? {
      return Raised(MultipleResultsFound);
    }
    if found.NoRow? {
      return Ok(None);
    }
    var allow := BuildDescriptors(CredsOf(db.creds, found.row.handle));
    if allow.Raised? {
      return Raised(allow.error);
    }
    var options := RequestOptions(env.rpId, CeremonyTimeout, allow.value, "required", challenge);
    return Ok(Some((ChallengeText(challenge), options)));
  }

  /**
   * For a known email, even one without credentials, the options require user verification, time
   * out after 12000 ms and allow one descriptor per credential of the user's handle, in store order.
   */
  lemma SigninRequestOptionsKnown(users: seq<User>, creds: seq<Cred>, env: Env, email: string,
                                  challenge: seq<Base64Url.byte>)
    requires UserByEmail(users, email).OneRow?
    requires SigninRequestOptionsOf(users, creds, env, email, challenge).Ok?
    ensures var r := SigninRequestOptionsOf(users, creds, env, email, challenge).value;
      var mine := CredsOf(creds, UserByEmail(users, email).row.handle);
      && r.Some?
      && r.value.1.userVerification == "required" && r.value.1.timeout == CeremonyTimeout
      && |r.value.1.allow| == |mine|
      && (forall i :: 0 <= i < |mine| ==> DescriptorOf(mine[i]) == Ok(r.value.1.allow[i]))
      && (mine == [] ==> r.value.1.allow == [])
      && Base64Url.ToBytes(r.value.0) == Some(challenge)
  {
  }
  /** An email that names no user gets no options at all: `(None, None)`. */
  lemma SigninRequestOptionsUnknown(users: seq<User>, creds: seq<Cred>, env: Env, email: string,
                                    challenge: seq<Base64Url.byte>)
    requires forall u :: u in users ==> u.email != email
    ensures SigninRequestOptionsOf(users, creds, env, email, challenge) == Ok(None)
  {
  }


  /** What the library reports on a verified assertion. */
  datatype VerifiedAuthentication = VerifiedAuthentication(newSignCount: int)

  /** The arguments `verify_authentication_response` gets besides the browser's response. */
  datatype AuthenticationCheck = AuthenticationCheck(
    origin: Option<string>, challenge: seq<Base64Url.byte>, rpId: Option<string>,
    publicKey: seq<Base64Url.byte>, currentSignCount: int, requireUserVerification: bool)

  /** The browser's assertion as this code reads it: `response["id"]`. */
  datatype AssertionResponse = AssertionResponse(id: Option<string>)

  /** The arguments of `signinResponse`. */
  datatype SigninRequest = SigninRequest(challenge: string, email: string, response: AssertionResponse)

  /** The allowed origins, assistant first, with no defaults (AuthManager.py lines 213-216). */
  function SigninOrigins(env: Env): seq<Option<string>> {
    [env.assistantUrl, env.paiosUrl]
  }

  /**
   * The body of the `try` of AuthManager.py lines 232-240 for one origin: the challenge, then the
   * stored public key, are decoded there; the stored sign count is never consulted, `0` is passed.
   */
  function SigninAttempts(env: Env, challenge: string, publicKey: string,
                          verify: AuthenticationCheck -> Verdict<VerifiedAuthentication>)
    : Option<string> -> Verdict<VerifiedAuthentication>
  {
    (origin: Option<string>) =>
      match Base64Url.ToBytes(challenge)
      case None => Failed
      case Some(c) =>
        match Base64Url.ToBytes(publicKey)
        case None => Failed
        case Some(k) => verify(AuthenticationCheck(origin, c, env.rpId, k, 0, true))
  }

  /**
   * `signinResponse` (AuthManager.py lines 211-258): `None` for an unknown credential, then for an
   * unknown email; when no origin accepts, `res` is still `None` and reading `res.new_sign_count`
   * raises; a new sign count of exactly 1 is refused. Nothing ties the credential to the user.
   */
  function Signin(users: seq<User>, creds: seq<Cred>, server: Server, req: SigninRequest,
                  verify: AuthenticationCheck -> Verdict<VerifiedAuthentication>, minted: Minted): Outcome<Option<Jwt>>
  {
    match req.response.id
    case None => Raised(KeyError("id"))
    case Some(id) =>
      match ScalarOneOrNone(creds, KeyIs(CredId, id))
      case ManyRows => Raised(MultipleResultsFound)
      case NoRow => Ok(None)
      case OneRow(cred) => SigninWith(users, cred, server, req, verify, minted)
  }

  /** The rest of `signinResponse` once the credential is found (AuthManager.py lines 223-258). */
  function SigninWith(users: seq<User>, cred: Cred, server: Server, req: SigninRequest,
                      verify: AuthenticationCheck -> Verdict<VerifiedAuthentication>, minted: Minted): Outcome<Option<Jwt>>
  {
    match UserByEmail(users, req.email)
    case ManyRows => Raised(MultipleResultsFound)
    case NoRow => Ok(None)
    case OneRow(u) =>
      match FirstAccepted(SigninOrigins(server.env), SigninAttempts(server.env, req.challenge, cred.publicKey, verify))
      case None => Raised(AttributeError("new_sign_count"))
      case Some((_, v)) =>
        if v.newSignCount == 1 then Ok(None)
        else Ok(Some(GenerateJwt(SessionClaims(u.id, minted.issuedAt, minted.expiryBase), server.secret)))
  }

  /** `signinResponse`: the lookups, then the origin loop; it writes nothing. */
  method SigninResponse(db: Database, server: Server, req: SigninRequest,
                        verify: AuthenticationCheck -> Verdict<VerifiedAuthentication>, minted: Minted)
    returns (r: Outcome<Option<Jwt>>, failedOrigins: seq<Option<string>>)
    ensures r == Signin(db.users, db.creds, server, req, verify, minted)
    ensures var found := if req.response.id.Some? then ScalarOneOrNone(db.creds, KeyIs(CredId, req.response.id.value)) else NoRow;
      if found.OneRow? && UserByEmail(db.users, req.email).OneRow? then
        var fa := FirstAccepted(SigninOrigins(server.env), SigninAttempts(server.env, req.challenge, found.row.publicKey, verify));
        failedOrigins == if fa.Some? then SigninOrigins(server.env)[..fa.value.0] else SigninOrigins(server.env)
      else failedOrigins == []
  {
    failedOrigins := [];
    if req.response.id.None? {
      return Raised(KeyError("id")), failedOrigins;
    }
    var credential := ScalarOneOrNone(db.creds, KeyIs(CredId, req.response.id.value));
    if credential.ManyRows? {
      return Raised(MultipleResultsFound), failedOrigins;
    }
    if credential.NoRow? {
      return Ok(None), failedOrigins;
    }
    var user := UserByEmail(db.users, req.email);
    if user.ManyRows? {
      return Raised(MultipleResultsFound), failedOrigins;
    }
    if user.NoRow? {
      return Ok(None), failedOrigins;
    }
    var res;
    res, failedOrigins := TryOrigins(SigninOrigins(server.env),
                                     SigninAttempts(server.env, req.challenge, credential.row.publicKey, verify));
    if res.None? {
      return Raised(AttributeError("new_sign_count")), failedOrigins;
    }
    if res.value.newSignCount == 1 {
      return Ok(None), failedOrigins;
    }
    var claims := SessionClaims(user.row.id, minted.issuedAt, minted.expiryBase);
    r := Ok(Some(GenerateJwt(claims, server.secret)));
  }

  /** An unknown credential is refused before the user is looked up, whatever the users table holds. */
  lemma SigninUnknownCredential(users: seq<User>, creds: seq<Cred>, server: Server, req: SigninRequest,
                                verify: AuthenticationCheck -> Verdict<VerifiedAuthentication>, minted: Minted)
    requires req.response.id.Some?
    requires !HasKey(creds, CredId, req.response.id.value)
    ensures Signin(users, creds, server, req, verify, minted) == Ok(None)
  {
    KeyLookupNoRow(creds, CredId, req.response.id.value);
  }
  /** With the credential found, an email that names no user is refused next, before any origin is tried. */
  lemma SigninUnknownUser(users: seq<User>, creds: seq<Cred>, server: Server, req: SigninRequest,
                          verify: AuthenticationCheck -> Verdict<VerifiedAuthentication>, minted: Minted, cred: Cred)
    requires req.response.id == Some(cred.id)
    requires ScalarOneOrNone(creds, KeyIs(CredId, cred.id)) == OneRow(cred)
    requires forall u :: u in users ==> u.email != req.email
    ensures Signin(users, creds, server, req, verify, minted) == Ok(None)
  {
  }


  /**
   * Once both lookups succeed, the outcome is decided by the first accepted origin alone: no
   * origin raises, a sign count of 1 refuses, anything else yields a token naming the user found
   * by email, valid for one day. The credential's own handle plays no part.
   */
  lemma SigninDecided(users: seq<User>, creds: seq<Cred>, server: Server, req: SigninRequest,
                      verify: AuthenticationCheck -> Verdict<VerifiedAuthentication>, minted: Minted,
                      cred: Cred, u: User, now: int)
    requires req.response.id == Some(cred.id)
    requires ScalarOneOrNone(creds, KeyIs(CredId, cred.id)) == OneRow(cred)
    requires UserByEmail(users, req.email) == OneRow(u)
    ensures var fa := FirstAccepted(SigninOrigins(server.env), SigninAttempts(server.env, req.challenge, cred.publicKey, verify));
      var r := Signin(users, creds, server, req, verify, minted);
      && (fa.None? <==> r == Raised(AttributeError("new_sign_count")))
      && (fa.Some? && fa.value.1.newSignCount == 1 ==> r == Ok(None))
      && (fa.Some? && fa.value.1.newSignCount != 1 ==>
            r.Ok? && r.value.Some? &&
            DecodeJwt(r.value.value, server.secret, now) ==
              if now < minted.expiryBase + OneDay then Uid(u.id) else Denied(Unauthorized("Token expired")))
  {
    DecodeMinted(u.id, server.secret, minted.issuedAt, minted.expiryBase, now);
  }

  /**
   * Of the credential found, sign-in reads only the public key: its owner handle, and every other
   * column, may name anybody, and the user found by email still gets the token.
   */
  lemma SigninIgnoresCredentialOwner(users: seq<User>, cred: Cred, other: Cred, server: Server, req: SigninRequest,
                                     verify: AuthenticationCheck -> Verdict<VerifiedAuthentication>, minted: Minted)
    requires other.publicKey == cred.publicKey
    ensures SigninWith(users, cred, server, req, verify, minted) == SigninWith(users, other, server, req, verify, minted)
  {
  }

  /** The verifier is only ever asked to check user verification against a sign count of 0. */
  lemma SigninCheckConstants(env: Env, challenge: string, publicKey: string,
                             verify: AuthenticationCheck -> Verdict<VerifiedAuthentication>, origin: Option<string>)
    requires Base64Url.ToBytes(challenge).Some? && Base64Url.ToBytes(publicKey).Some?
    ensures exists check: AuthenticationCheck ::
      && SigninAttempts(env, challenge, publicKey, verify)(origin) == verify(check)
      && check.currentSignCount == 0 && check.requireUserVerification
      && check.origin == origin && check.rpId == env.rpId
      && Base64Url.ToBytes(publicKey) == Some(check.publicKey)
  {
    var check := AuthenticationCheck(origin, Base64Url.ToBytes(challenge).value, env.rpId,
                                     Base64Url.ToBytes(publicKey).value, 0, true);
    assert SigninAttempts(env, challenge, publicKey, verify)(origin) == verify(check);
  }

  /** `create_session` (AuthManager.py lines 260-271): a row with a fresh id and token, expiring one day later. */
  method CreateSession(db: Database, userId: string, newId: string, newToken: string, now: int)
    returns (r: Outcome<(string, string)>)
    modifies db`sessions
    ensures HasKey(old(db.sessions), SessionId, newId) ==> r == Raised(IntegrityError) && db.sessions == old(db.sessions)
    ensures !HasKey(old(db.sessions), SessionId, newId) ==>
      r == Ok((newId, newToken)) && db.sessions == old(db.sessions) + [Session(newId, userId, newToken, now + OneDay)]
    ensures old(db.Valid()) ==> db.Valid()
    ensures SessionsOwned(old(db.sessions), db.users) && HasKey(db.users, UserId, userId) ==> SessionsOwned(db.sessions, db.users)
  {
    var row := Session(newId, userId, newToken, now + OneDay);
    if HasKey(db.sessions, SessionId, newId) {
      return Raised(IntegrityError);
    }
    UniqueAppend(db.sessions, SessionId, row);
    SetSessions(db, db.sessions + [row]);
    return Ok((row.id, row.token));
  }

  function TokenIsNot(token: string): Session -> bool {
    (s: Session) => s.token != token
  }

  /** `delete_session` (AuthManager.py lines 273-277): every session with that token goes, the rest stay in order. */
  method DeleteSession(db: Database, token: string)
    modifies db`sessions
    ensures db.sessions == Filter(old(db.sessions), TokenIsNot(token))
    ensures forall s :: s in db.sessions <==> s in old(db.sessions) && s.token != token
    ensures old(db.Valid()) ==> db.Valid()
    ensures SessionsOwned(old(db.sessions), db.users) ==> SessionsOwned(db.sessions, db.users)
  {
    UniqueFilter(db.sessions, SessionId, TokenIsNot(token));
    SetSessions(db, Filter(db.sessions, TokenIsNot(token)));
  }
}
