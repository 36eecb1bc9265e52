/**
 * Properties of the verification workflow that relate several requests: token
 * redemption is single use, a reissued token revokes the old one, a fresh token lives
 * for 24 hours, login never looks at the password of an unverified account, and the
 * signup pre-check is what keeps company IDs unique.
 */
module WorkflowProperties {
  import opened Wrappers
  import Hex
  import opened CompanyModel
  import opened Workflow
  import opened SignupValidation

  /** No two accounts hold `token` (the controller never checks for collisions). */
  predicate TokenHeldAtMostOnce(s: seq<Company>, token: string) {
    forall i, j ::
      (0 <= i < |s| && 0 <= j < |s| && s[i].emailVerificationToken == Some(token) &&
       s[j].emailVerificationToken == Some(token)) ==> i == j
  }

  predicate TokenUnused(s: seq<Company>, token: string) {
    forall j :: 0 <= j < |s| ==> s[j].emailVerificationToken != Some(token)
  }

  /** A token that redeemed once fails the second time, whenever that is. */
  lemma RedeemIsSingleUse(s: seq<Company>, token: string, now: int, later: int)
    requires token != "" && TokenHeldAtMostOnce(s, token)
    requires VerifyEmail(s, token, now).reply.status == 200
    ensures VerifyEmail(VerifyEmail(s, token, now).store, token, later)
            == Outcome(Plain(400, InvalidTokenMessage), VerifyEmail(s, token, now).store, None)
  {
  }

  /**
   * After a resend with a different token, the previous token of that account no longer
   * redeems.
   */
  lemma ResendRevokesOldToken(s: seq<Company>, env: Env, i: int, oldToken: string,
                              random: seq<Hex.byte>, now: int, later: int, delivered: bool)
    requires StoreValid(s) && 0 <= i < |s| && |random| == Hex.TokenBytes
    requires !s[i].emailVerified && s[i].emailVerificationToken == Some(oldToken)
    requires oldToken != "" && TokenHeldAtMostOnce(s, oldToken) && Hex.Encode(random) != oldToken
    ensures VerifyEmail(ResendMail(s, env, s[i].email, random, now, delivered).store, oldToken, later).reply
            == Plain(400, InvalidTokenMessage)
  {
    FindByEmailIsUnique(s, i);
    var s' := ResendMail(s, env, s[i].email, random, now, delivered).store;
    NoLiveMatchAfterReissue(s, s', i, oldToken, later);
  }

  /** The implicit resend of a login on an unverified account revokes the old token too. */
  lemma LoginRevokesOldToken(s: seq<Company>, env: Env, i: int, oldToken: string, password: string,
                             random: seq<Hex.byte>, now: int, later: int, delivered: bool)
    requires StoreValid(s) && 0 <= i < |s| && |random| == Hex.TokenBytes
    requires !s[i].emailVerified && s[i].emailVerificationToken == Some(oldToken)
    requires oldToken != "" && TokenHeldAtMostOnce(s, oldToken) && Hex.Encode(random) != oldToken
    ensures VerifyEmail(Login(s, env, s[i].email, password, random, now, delivered).store, oldToken, later).reply
            == Plain(400, InvalidTokenMessage)
  {
    FindByEmailIsUnique(s, i);
    var s' := Login(s, env, s[i].email, password, random, now, delivered).store;
    NoLiveMatchAfterReissue(s, s', i, oldToken, later);
  }

  /** Once account `i` no longer holds the only copy of a token, no account matches it. */
  lemma NoLiveMatchAfterReissue(s: seq<Company>, s': seq<Company>, i: int, oldToken: string, later: int)
    requires ChangedOnly(s, s', i) && TokenHeldAtMostOnce(s, oldToken)
    requires s[i].emailVerificationToken == Some(oldToken)
    requires s'[i].emailVerificationToken != Some(oldToken)
    ensures !AnyMatch(s', LiveToken(oldToken, later))
  {
    forall j | 0 <= j < |s'|
      ensures !Matches(s'[j], LiveToken(oldToken, later))
    {
      if j != i {
        assert s'[j] == s[j];
      }
    }
  }

  /**
   * Login on an unverified account gives the same outcome whatever the password and
   * whatever the password checker says: the password is never compared.
   */
  lemma UnverifiedLoginIgnoresPassword(s: seq<Company>, env: Env, other: Hasher, i: int,
                                       p1: string, p2: string, random: seq<Hex.byte>,
                                       now: int, delivered: bool)
    requires StoreValid(s) && 0 <= i < |s| && !s[i].emailVerified && |random| == Hex.TokenBytes
    ensures Login(s, env, s[i].email, p1, random, now, delivered)
            == Login(s, env.(hasher := other), s[i].email, p2, random, now, delivered)
    ensures Login(s, env, s[i].email, p1, random, now, delivered).reply.status != 400
  {
  }

  /** A verified account whose stored hash is that of `p` logs in with `p`. */
  lemma VerifiedLoginAcceptsOwnPassword(s: seq<Company>, env: Env, i: int, p: string,
                                        random: seq<Hex.byte>, now: int, delivered: bool)
    requires Sound(env.hasher) && StoreValid(s) && 0 <= i < |s| && |random| == Hex.TokenBytes
    requires s[i].emailVerified && s[i].password == env.hasher.hash(p)
    ensures var o := Login(s, env, s[i].email, p, random, now, delivered);
            && o.store == s
            && o.reply == Reply(200, LoginMessage,
                                Some(Session(s[i].companyId, s[i].email, now / 1000, now / 1000 + 3600)),
                                Some(true))
  {
  }

  /**
   * The token issued at signup redeems, for the new account, exactly until 24 hours
   * after issue.
   */
  lemma FreshTokenLifetime(s: seq<Company>, env: Env, req: SignupRequest, logo: Option<string>,
                           random: seq<Hex.byte>, now: int, later: int, delivered: bool)
    requires |random| == Hex.TokenBytes
    requires !AnyMatch(s, IdOrEmail(req.companyId, req.email))
    requires Storable(req, env.hasher.hash(req.password))
    requires TokenUnused(s, Hex.Encode(random))
    ensures var s1 := Signup(s, env, req, logo, random, now, delivered).store;
            var o := VerifyEmail(s1, Hex.Encode(random), later);
            && (o.reply.status == 200 <==> later < now + VerificationLifetimeMs)
            && (o.reply.status == 200 ==> o.store[|s|].emailVerified)
  {
  }

  /** No two accounts share a companyId. The schema does not promise this. */
  predicate CompanyIdsUnique(s: seq<Company>) {
    forall i, j :: 0 <= i < |s| && 0 <= j < |s| && i != j ==> s[i].companyId != s[j].companyId
  }

  /** The signup pre-check keeps company IDs unique. */
  lemma SignupKeepsIdsUnique(s: seq<Company>, env: Env, req: SignupRequest, logo: Option<string>,
                             random: seq<Hex.byte>, now: int, delivered: bool)
    requires CompanyIdsUnique(s) && |random| == Hex.TokenBytes
    ensures CompanyIdsUnique(Signup(s, env, req, logo, random, now, delivered).store)
  {
  }

  /** The other handlers change only verification state, so they keep IDs unique as well. */
  lemma ChangedOnlyKeepsIdsUnique(s: seq<Company>, s': seq<Company>, i: int)
    requires CompanyIdsUnique(s) && ChangedOnly(s, s', i)
    ensures CompanyIdsUnique(s')
  {
  }

  /** A second signup with the companyId or the email of an account just created is refused. */
  lemma SecondSignupConflicts(s: seq<Company>, env: Env, first: SignupRequest, second: SignupRequest,
                              logo1: Option<string>, logo2: Option<string>,
                              r1: seq<Hex.byte>, r2: seq<Hex.byte>, t1: int, t2: int, d1: bool, d2: bool)
    requires |r1| == Hex.TokenBytes && |r2| == Hex.TokenBytes
    requires !AnyMatch(s, IdOrEmail(first.companyId, first.email))
    requires Storable(first, env.hasher.hash(first.password))
    requires second.companyId == first.companyId || second.email == first.email
    ensures var s1 := Signup(s, env, first, logo1, r1, t1, d1).store;
            Signup(s1, env, second, logo2, r2, t2, d2) == Outcome(Plain(400, ConflictMessage), s1, None)
  {
  }

  /** The request the signup form posts. */
  function RequestOf(f: SignupForm): SignupRequest {
    SignupRequest(f.companyId, f.companyName, f.service, f.email, f.phone, f.address, f.password)
  }

  /** A form the client accepts is never refused by the schema on the server. */
  lemma ClientValidFormIsStorable(f: SignupForm, h: Hasher)
    requires SignupFormValid(f) && Sound(h)
    ensures Storable(RequestOf(f), h.hash(f.password))
  {
  }

  /**
   * The signup → verify → login scenario: signup on an empty store, an immediate redemption of the
   * mailed link's token, then a login that succeeds with the signup password and fails
   * with one the checker rejects.
   */
  lemma SignupVerifyLoginScenario(env: Env, f: SignupForm, logo: Option<string>,
                                  r1: seq<Hex.byte>, r2: seq<Hex.byte>, now: int, later: int,
                                  wrong: string, delivered: bool)
    requires Sound(env.hasher) && SignupFormValid(f)
    requires |r1| == Hex.TokenBytes && |r2| == Hex.TokenBytes
    requires now <= later < now + VerificationLifetimeMs
    requires !env.hasher.compare(wrong, env.hasher.hash(f.password))
    ensures var o1 := Signup([], env, RequestOf(f), logo, r1, now, delivered);
            var token := LinkToken(env.frontendUrl, o1.mail.value.link).value;
            var o2 := VerifyEmail(o1.store, token, later);
            && o1.reply.status == (if delivered then 201 else 500)
            && o2.reply == Plain(200, VerifiedMessage)
            && Login(o2.store, env, f.email, f.password, r2, later, delivered).reply
               == Reply(200, LoginMessage, Some(Session(f.companyId, f.email, later / 1000, later / 1000 + 3600)), Some(true))
            && Login(o2.store, env, f.email, wrong, r2, later, delivered).reply
               == Plain(400, BadCredentialsMessage)
  {
  }
}
