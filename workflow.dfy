/**
 * The four handlers of the company controller as functions from the collection before
 * the request to the reply, the collection after it and the verification mail handed to
 * the mailer. Everything the handlers take from outside is a parameter: the clock
 * (`now`, in milliseconds), the 32 random bytes behind a token, the password hasher,
 * the frontend base URL and whether the mail was delivered.
 */
module Workflow {
  import opened Wrappers
  import Hex
  import opened CompanyModel

  /** `setHours(getHours() + 24)`, taken as exactly 24 hours. */
  const VerificationLifetimeMs: int := 24 * 60 * 60 * 1000
  /** `expiresIn: '1h'`. */
  const SessionLifetimeSeconds: int := 60 * 60

  const ConflictMessage: string := "Company ID or email already exists."
  const RegisteredMessage: string := "Company registered successfully. Please check your email for verification."
  const ServerErrorMessage: string := "Server error. Please try again later."
  const NoTokenMessage: string := "No token provided."
  const InvalidTokenMessage: string := "Invalid or expired token."
  const VerifiedMessage: string := "Email verified successfully."
  const NotFoundMessage: string := "Company not found."
  const PendingMessage: string := "Email not verified. A verification email has been resent."
  const BadCredentialsMessage: string := "Invalid credentials."
  const LoginMessage: string := "Login successful."
  const AlreadyVerifiedMessage: string := "Email is already verified."
  const ResentMessage: string := "Verification email resent successfully."

  /** `bcrypt.hash` and `bcrypt.compare`, abstracted. */
  datatype Hasher = Hasher(hash: string -> string, compare: (string, string) -> bool)

  /** A password matches its own hash, and a hash is never empty. */
  ghost predicate Sound(h: Hasher) {
    forall p :: h.compare(p, h.hash(p)) && h.hash(p) != ""
  }

  datatype Env = Env(hasher: Hasher, frontendUrl: string)

  /** The body of a signup request. A field the client left out is "". */
  datatype SignupRequest = SignupRequest(
    companyId: string,
    companyName: string,
    service: string,
    email: string,
    phone: string,
    address: string,
    password: string)

  /** The claims of the session token `jwt.sign` issues; `iat` and `exp` are in seconds. */
  datatype Session = Session(companyId: string, email: string, iat: int, exp: int)

  /** An HTTP status with the JSON body `{ message, token?, emailVerified? }`. */
  datatype Reply = Reply(status: int, message: string, token: Option<Session>, emailVerified: Option<bool>)

  datatype Mail = Mail(to: string, link: string)

  datatype Outcome = Outcome(reply: Reply, store: seq<Company>, mail: Option<Mail>)

  function Plain(status: int, message: string): Reply {
    Reply(status, message, None, None)
  }

  /** The reply of the `catch` block, here reached only through a failed send or a rejected save. */
  const ServerError: Reply := Plain(500, ServerErrorMessage)

  const LinkPath: string := "/verify-email?token="

  /** `${REACT_APP_FRONTEND_URL}/verify-email?token=${verificationToken}`. */
  function VerificationLink(base: string, token: string): string {
    base + LinkPath + token
  }

  /**
   * The token the verification page reads back out of a link under `base`
   * (`new URLSearchParams(location.search).get('token')`), taken as everything after the
   * prefix. This agrees with `get` on hexadecimal tokens, the only ones a link carries;
   * on a token containing `&`, `+`, `%` or `#` the two differ.
   */
  function LinkToken(base: string, link: string): (r: Option<string>)
    ensures r.Some? ==> link == VerificationLink(base, r.value)
  {
    var prefix := base + LinkPath;
    if |prefix| <= |link| && link[..|prefix|] == prefix then Some(link[|prefix|..]) else None
  }

  lemma LinkTokenRoundTrip(base: string, token: string)
    ensures LinkToken(base, VerificationLink(base, token)) == Some(token)
  {
  }

  /** A pending token has an expiry and vice versa; a verified account has neither. */
  predicate TokenConsistent(c: Company) {
    && (c.emailVerificationToken.Some? <==> c.emailVerificationTokenExpires.Some?)
    && (c.emailVerified ==> c.emailVerificationToken.None?)
  }

  /** The invariant of the account store: the schema's rules and the workflow's. */
  predicate StoreValid(s: seq<Company>) {
    SchemaValid(s) && forall i :: 0 <= i < |s| ==> TokenConsistent(s[i])
  }

  /** Every field outside the verification state is the same. */
  predicate SameProfile(a: Company, b: Company) {
    && a.companyId == b.companyId
    && a.companyName == b.companyName
    && a.service == b.service
    && a.email == b.email
    && a.phone == b.phone
    && a.address == b.address
    && a.password == b.password
    && a.companyLogo == b.companyLogo
  }

  /** `s'` differs from `s` at most in the verification state of account `i`. */
  predicate ChangedOnly(s: seq<Company>, s': seq<Company>, i: int) {
    && |s'| == |s|
    && 0 <= i < |s|
    && (forall j :: 0 <= j < |s| && j != i ==> s'[j] == s[j])
    && SameProfile(s[i], s'[i])
  }

  /** No account goes back from verified to unverified, and none disappears. */
  predicate VerifiedKept(s: seq<Company>, s': seq<Company>) {
    |s| <= |s'| && forall j :: 0 <= j < |s| && s[j].emailVerified ==> s'[j].emailVerified
  }

  /** The profile of a new account is the request's, with the hash in place of the password. */
  predicate HoldsRequest(c: Company, req: SignupRequest, hashed: string, logo: Option<string>) {
    && c.companyId == req.companyId
    && c.companyName == req.companyName
    && c.service == req.service
    && c.email == req.email
    && c.phone == req.phone
    && c.address == req.address
    && c.password == hashed
    && c.companyLogo == logo
  }

  /** What the schema needs of a new account built from `req`. */
  predicate Storable(req: SignupRequest, hashed: string) {
    && Present(req.companyId)
    && Present(req.companyName)
    && Present(req.service)
    && Present(req.email)
    && Present(req.phone)
    && Present(req.address)
    && Present(hashed)
  }

  /**
   * A fresh token and a 24-hour expiry replace the pair of account `i`, which is saved;
   * then the verification mail goes to `to`. Shared by login and resend.
   */
  function Reissue(s: seq<Company>, i: nat, env: Env, to: string, random: seq<Hex.byte>,
                   now: int, delivered: bool, ok: Reply): (o: Outcome)
    requires i < |s| && |random| == Hex.TokenBytes
    ensures ChangedOnly(s, o.store, i)
    ensures o.store[i].emailVerified == s[i].emailVerified
    ensures o.store[i].emailVerificationToken == Some(Hex.Encode(random))
    ensures Hex.IsToken(Hex.Encode(random))
    ensures o.store[i].emailVerificationTokenExpires == Some(now + VerificationLifetimeMs)
    ensures o.mail == Some(Mail(to, VerificationLink(env.frontendUrl, Hex.Encode(random))))
    ensures o.reply == if delivered then ok else ServerError
  {
    var token := Hex.Encode(random);
    var c := s[i].(emailVerificationToken := Some(token),
                   emailVerificationTokenExpires := Some(now + VerificationLifetimeMs));
    Outcome(if delivered then ok else ServerError, s[i := c],
            Some(Mail(to, VerificationLink(env.frontendUrl, token))))
  }

  /** `signupCompany`. */
  function Signup(s: seq<Company>, env: Env, req: SignupRequest, logo: Option<string>,
                  random: seq<Hex.byte>, now: int, delivered: bool): (o: Outcome)
    requires |random| == Hex.TokenBytes
    // an existing account with the same companyId or email: refused, nothing stored
    ensures AnyMatch(s, IdOrEmail(req.companyId, req.email)) ==>
              o == Outcome(Plain(400, ConflictMessage), s, None)
    // the schema refuses the new document: server error, nothing stored, no mail
    ensures !AnyMatch(s, IdOrEmail(req.companyId, req.email))
            && !Storable(req, env.hasher.hash(req.password)) ==>
              o == Outcome(ServerError, s, None)
    // otherwise exactly one account is appended, and it is saved before the mail is sent
    ensures !AnyMatch(s, IdOrEmail(req.companyId, req.email))
            && Storable(req, env.hasher.hash(req.password)) ==>
              && |o.store| == |s| + 1
              && o.store[..|s|] == s
              && HoldsRequest(o.store[|s|], req, env.hasher.hash(req.password), logo)
              && !o.store[|s|].emailVerified
              && o.store[|s|].emailVerificationToken == Some(Hex.Encode(random))
              && Hex.IsToken(Hex.Encode(random))
              && o.store[|s|].emailVerificationTokenExpires == Some(now + VerificationLifetimeMs)
              && o.mail == Some(Mail(req.email, VerificationLink(env.frontendUrl, Hex.Encode(random))))
              && o.reply == (if delivered then Plain(201, RegisteredMessage) else ServerError)
    ensures StoreValid(s) ==> StoreValid(o.store)
    ensures VerifiedKept(s, o.store)
  {
    if FindOne(s, IdOrEmail(req.companyId, req.email)).Some? then
      Outcome(Plain(400, ConflictMessage), s, None)
    else
      var token := Hex.Encode(random);
      var company := NewCompany(req.companyId, req.companyName, req.service, req.email,
                                req.phone, req.address, env.hasher.hash(req.password), logo,
                                Some(token), Some(now + VerificationLifetimeMs));
      match Insert(s, company)
      case None => Outcome(ServerError, s, None)
      case Some(saved) =>
        Outcome(if delivered then Plain(201, RegisteredMessage) else ServerError, saved,
                Some(Mail(req.email, VerificationLink(env.frontendUrl, token))))
  }

  /** Lines 108-113: account `i` becomes verified and loses its token and expiry, and is saved. */
  function Redeem(s: seq<Company>, i: nat): (s': seq<Company>)
    requires i < |s|
    ensures ChangedOnly(s, s', i)
    ensures s'[i].emailVerified
    ensures s'[i].emailVerificationToken.None? && s'[i].emailVerificationTokenExpires.None?
  {
    s[i := s[i].(emailVerified := true,
                 emailVerificationToken := None,
                 emailVerificationTokenExpires := None)]
  }

  /** `verifyEmail`; `token` is the query parameter, "" when absent. */
  function VerifyEmail(s: seq<Company>, token: string, now: int): (o: Outcome)
    ensures o.mail.None?
    ensures token == "" ==> o == Outcome(Plain(400, NoTokenMessage), s, None)
    // success exactly when some account holds this token with an expiry after now
    ensures token != "" ==> (o.reply.status == 200 <==> AnyMatch(s, LiveToken(token, now)))
    ensures token != "" && !AnyMatch(s, LiveToken(token, now)) ==>
              o == Outcome(Plain(400, InvalidTokenMessage), s, None)
    ensures o.reply.status == 200 ==>
              && o.reply == Plain(200, VerifiedMessage)
              && exists i :: && FirstMatch(s, LiveToken(token, now), i)
                             && ChangedOnly(s, o.store, i)
                             && o.store[i].emailVerified
                             && o.store[i].emailVerificationToken.None?
                             && o.store[i].emailVerificationTokenExpires.None?
    ensures StoreValid(s) ==> StoreValid(o.store)
    ensures VerifiedKept(s, o.store)
  {
    if token == "" then Outcome(Plain(400, NoTokenMessage), s, None)
    else
      match FindOne(s, LiveToken(token, now))
      case None => Outcome(Plain(400, InvalidTokenMessage), s, None)
      case Some(i) =>
        Outcome(Plain(200, VerifiedMessage), Redeem(s, i), None)
  }

  /** The session token of a successful login issued at `now`. */
  function SessionFor(c: Company, now: int): (t: Session)
    ensures t.companyId == c.companyId && t.email == c.email
    ensures t.exp == t.iat + SessionLifetimeSeconds
    ensures t.iat * 1000 <= now < (t.iat + 1) * 1000
  {
    Session(c.companyId, c.email, now / 1000, now / 1000 + SessionLifetimeSeconds)
  }

  /** `login`. */
  function Login(s: seq<Company>, env: Env, email: string, password: string,
                 random: seq<Hex.byte>, now: int, delivered: bool): (o: Outcome)
    requires |random| == Hex.TokenBytes
    ensures !AnyMatch(s, ByEmail(email)) ==> o == Outcome(Plain(404, NotFoundMessage), s, None)
    // unverified: an implicit resend; the password plays no part
    ensures forall i :: FirstMatch(s, ByEmail(email), i) && !s[i].emailVerified ==>
              && ChangedOnly(s, o.store, i)
              && !o.store[i].emailVerified
              && o.store[i].emailVerificationToken == Some(Hex.Encode(random))
              && o.store[i].emailVerificationTokenExpires == Some(now + VerificationLifetimeMs)
              && o.mail == Some(Mail(email, VerificationLink(env.frontendUrl, Hex.Encode(random))))
              && o.reply == (if delivered then Reply(200, PendingMessage, None, Some(false)) else ServerError)
    // verified: the password decides, and nothing is written
    ensures forall i :: FirstMatch(s, ByEmail(email), i) && s[i].emailVerified ==>
              && o.store == s
              && o.mail.None?
              && o.reply == if env.hasher.compare(password, s[i].password)
                            then Reply(200, LoginMessage, Some(SessionFor(s[i], now)), Some(true))
                            else Plain(400, BadCredentialsMessage)
    ensures StoreValid(s) ==> StoreValid(o.store)
    ensures VerifiedKept(s, o.store)
  {
    match FindOne(s, ByEmail(email))
    case None => Outcome(Plain(404, NotFoundMessage), s, None)
    case Some(i) =>
      if !s[i].emailVerified then
        Reissue(s, i, env, email, random, now, delivered, Reply(200, PendingMessage, None, Some(false)))
      else if !env.hasher.compare(password, s[i].password) then
        Outcome(Plain(400, BadCredentialsMessage), s, None)
      else
        Outcome(Reply(200, LoginMessage, Some(SessionFor(s[i], now)), Some(true)), s, None)
  }

  /** `resendMail`. */
  function ResendMail(s: seq<Company>, env: Env, email: string, random: seq<Hex.byte>,
                      now: int, delivered: bool): (o: Outcome)
    requires |random| == Hex.TokenBytes
    ensures !AnyMatch(s, ByEmail(email)) ==> o == Outcome(Plain(404, NotFoundMessage), s, None)
    ensures forall i :: FirstMatch(s, ByEmail(email), i) && s[i].emailVerified ==>
              o == Outcome(Plain(400, AlreadyVerifiedMessage), s, None)
    ensures forall i :: FirstMatch(s, ByEmail(email), i) && !s[i].emailVerified ==>
              && ChangedOnly(s, o.store, i)
              && !o.store[i].emailVerified
              && o.store[i].emailVerificationToken == Some(Hex.Encode(random))
              && o.store[i].emailVerificationTokenExpires == Some(now + VerificationLifetimeMs)
              && o.mail == Some(Mail(email, VerificationLink(env.frontendUrl, Hex.Encode(random))))
              && o.reply == (if delivered then Plain(200, ResentMessage) else ServerError)
    ensures StoreValid(s) ==> StoreValid(o.store)
    ensures VerifiedKept(s, o.store)
  {
    match FindOne(s, ByEmail(email))
    case None => Outcome(Plain(404, NotFoundMessage), s, None)
    case Some(i) =>
      if s[i].emailVerified then Outcome(Plain(400, AlreadyVerifiedMessage), s, None)
      else Reissue(s, i, env, email, random, now, delivered, Plain(200, ResentMessage))
  }
}
