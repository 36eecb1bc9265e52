/**
 * `verifyEmail` on the query value exactly as Express parses it. The handler tests only
 * `!token` and places the value in the `findOne` filter unchanged, so an array or an
 * operator object widens the match. VerifyEmailAsWritten models that handler;
 * VerifyEmailStringOnly is the handler that accepts only a string token, which is the
 * behaviour `Workflow.VerifyEmail` and the rest of the model describe.
 */
module QueryInjection {
  import opened Wrappers
  import opened CompanyModel
  import opened Workflow

  /** `!token`: only the empty string is falsy; every array and object is truthy. */
  predicate Missing(q: QueryValue) {
    q == Text("")
  }

  /** `verifyEmail` as written, on any parsed query value. */
  function VerifyEmailAsWritten(s: seq<Company>, q: QueryValue, now: int): (o: Outcome)
    ensures q.Text? ==> o == VerifyEmail(s, q.text, now)
    ensures !Missing(q) ==> (o.reply.status == 200 <==> AnyMatch(s, LiveTokenQuery(q, now)))
  {
    if Missing(q) then Outcome(Plain(400, NoTokenMessage), s, None)
    else
      match FindOne(s, LiveTokenQuery(q, now))
      case None => Outcome(Plain(400, InvalidTokenMessage), s, None)
      case Some(i) =>
        Outcome(Plain(200, VerifiedMessage), Redeem(s, i), None)
  }

  /**
   * `?token[$ne]=x` redeems an account whose live token is anything but `x`: the caller
   * verifies an email it never received.
   */
  lemma NotEqualRedeemsUnknownToken(s: seq<Company>, i: int, x: string, now: int)
    requires 0 <= i < |s|
    requires s[i].emailVerificationToken.Some? && s[i].emailVerificationToken.value != x
    requires s[i].emailVerificationTokenExpires.Some? && s[i].emailVerificationTokenExpires.value > now
    ensures VerifyEmailAsWritten(s, NotEqual(x), now).reply == Plain(200, VerifiedMessage)
  {
    assert Matches(s[i], LiveTokenQuery(NotEqual(x), now));
  }

  /** A concrete instance: one pending account, and the query `?token[$ne]=`. */
  lemma NotEqualExample(c: Company, now: int)
    requires c.emailVerificationToken == Some("ab") && c.emailVerificationTokenExpires == Some(now + 1)
    ensures VerifyEmailAsWritten([c], NotEqual(""), now).reply.status == 200
    ensures VerifyEmailAsWritten([c], NotEqual(""), now).store[0].emailVerified
  {
    assert Matches(c, LiveTokenQuery(NotEqual(""), now));
  }

  /**
   * `verifyEmail` accepting only a string token: any other value is refused like an
   * unknown token, and only a caller who holds a live token can redeem it.
   */
  function VerifyEmailStringOnly(s: seq<Company>, q: QueryValue, now: int): (o: Outcome)
    ensures !q.Text? ==> o == Outcome(Plain(400, InvalidTokenMessage), s, None)
    ensures q.Text? ==> o == VerifyEmail(s, q.text, now)
    ensures o.reply.status == 200 ==> q.Text? && q.text != "" && AnyMatch(s, LiveToken(q.text, now))
  {
    match q
    case Text(t) => VerifyEmail(s, t, now)
    case _ => Outcome(Plain(400, InvalidTokenMessage), s, None)
  }
}
