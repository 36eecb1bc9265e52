/**
 * The company controller over a persistent collection of company documents. Each
 * handler looks a document up, assigns its fields one by one and saves it back, as
 * the controller does; its contract equates the reply, the new collection and the
 * mail handed to the mailer with the Workflow function of the old collection.
 */
module CompanyController {
  import opened Wrappers
  import Hex
  import opened CompanyModel
  import opened Workflow

  class CompanyStore {
    /** The `companies` collection, in insertion order. */
    var companies: seq<Company>
    const env: Env

    ghost predicate Valid()
      reads this
    {
      StoreValid(companies) && Sound(env.hasher)
    }

    constructor (env: Env)
      requires Sound(env.hasher)
      ensures Valid() && companies == [] && this.env == env
    {
      this.env := env;
      companies := [];
    }

    method SignupCompany(req: SignupRequest, logo: Option<string>, random: seq<Hex.byte>,
                         now: int, delivered: bool) returns (reply: Reply, mail: Option<Mail>)
      requires Valid() && |random| == Hex.TokenBytes
      modifies this
      ensures Valid()
      ensures Outcome(reply, companies, mail) == Signup(old(companies), env, req, logo, random, now, delivered)
    {
      mail := None;
      var existing := FindOne(companies, IdOrEmail(req.companyId, req.email));
      if existing.Some? {
        reply := Plain(400, ConflictMessage);
        return;
      }
      var hashedPassword := env.hasher.hash(req.password);
      var verificationToken := Hex.Encode(random);
      var tokenExpirationTime := now + VerificationLifetimeMs;
      var company := NewCompany(req.companyId, req.companyName, req.service, req.email,
                                req.phone, req.address, hashedPassword, logo,
                                Some(verificationToken), Some(tokenExpirationTime));
      var saved := Insert(companies, company);
      if saved.None? {
        reply := ServerError;
        return;
      }
      companies := saved.value;
      mail := Some(Mail(req.email, VerificationLink(env.frontendUrl, verificationToken)));
      if !delivered {
        reply := ServerError;
        return;
      }
      reply := Plain(201, RegisteredMessage);
    }

    method VerifyEmailToken(token: string, now: int) returns (reply: Reply)
      requires Valid()
      modifies this
      ensures Valid()
      ensures Outcome(reply, companies, None) == VerifyEmail(old(companies), token, now)
    {
      if token == "" {
        reply := Plain(400, NoTokenMessage);
        return;
      }
      var found := FindOne(companies, LiveToken(token, now));
      if found.None? {
        reply := Plain(400, InvalidTokenMessage);
        return;
      }
      var i := found.value;
      var company := companies[i];
      company := company.(emailVerified := true);
      company := company.(emailVerificationToken := None);
      company := company.(emailVerificationTokenExpires := None);
      companies := companies[i := company];
      reply := Plain(200, VerifiedMessage);
    }

    /**
     * Lines 138-145 and 215-222: a fresh token and a 24-hour expiry are assigned to
     * account `i`, which is saved; the result is the verification mail to send to `to`.
     * The store's new state and the mail are those of `Workflow.Reissue`.
     */
    method ReissueToken(i: nat, to: string, random: seq<Hex.byte>, now: int) returns (mail: Option<Mail>)
      requires Valid() && i < |companies| && !companies[i].emailVerified && |random| == Hex.TokenBytes
      modifies this
      ensures Valid()
      ensures var o := Reissue(old(companies), i, env, to, random, now, true, ServerError);
              companies == o.store && mail == o.mail
    {
      var company := companies[i];
      var verificationToken := Hex.Encode(random);
      company := company.(emailVerificationToken := Some(verificationToken));
      company := company.(emailVerificationTokenExpires := Some(now + VerificationLifetimeMs));
      companies := companies[i := company];
      mail := Some(Mail(to, VerificationLink(env.frontendUrl, verificationToken)));
    }

    method LoginCompany(email: string, password: string, random: seq<Hex.byte>, now: int,
                        delivered: bool) returns (reply: Reply, mail: Option<Mail>)
      requires Valid() && |random| == Hex.TokenBytes
      modifies this
      ensures Valid()
      ensures Outcome(reply, companies, mail) == Login(old(companies), env, email, password, random, now, delivered)
    {
      mail := None;
      var found := FindOne(companies, ByEmail(email));
      if found.None? {
        reply := Plain(404, NotFoundMessage);
        return;
      }
      var i := found.value;
      var company := companies[i];
      if !company.emailVerified {
        mail := ReissueToken(i, email, random, now);
        if !delivered {
          reply := ServerError;
          return;
        }
        reply := Reply(200, PendingMessage, None, Some(false));
        return;
      }
      var isPasswordValid := env.hasher.compare(password, company.password);
      if !isPasswordValid {
        reply := Plain(400, BadCredentialsMessage);
        return;
      }
      reply := Reply(200, LoginMessage, Some(SessionFor(company, now)), Some(true));
    }

    method ResendVerification(email: string, random: seq<Hex.byte>, now: int,
                              delivered: bool) returns (reply: Reply, mail: Option<Mail>)
      requires Valid() && |random| == Hex.TokenBytes
      modifies this
      ensures Valid()
      ensures Outcome(reply, companies, mail) == ResendMail(old(companies), env, email, random, now, delivered)
    {
      mail := None;
      var found := FindOne(companies, ByEmail(email));
      if found.None? {
        reply := Plain(404, NotFoundMessage);
        return;
      }
      var i := found.value;
      var company := companies[i];
      if company.emailVerified {
        reply := Plain(400, AlreadyVerifiedMessage);
        return;
      }
      mail := ReissueToken(i, email, random, now);
      if !delivered {
        reply := ServerError;
        return;
      }
      reply := Plain(200, ResentMessage);
    }
  }
}
