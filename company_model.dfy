/**
 * The company document of companySchema and the two store-level rules the schema
 * enforces: every required String path is present, and `email` carries a unique index.
 * The store is a sequence of documents in insertion order; `findOne` returns the
 * first document that matches its filter.
 */
module CompanyModel {
  import opened Wrappers

  /** One company document. Times are milliseconds since the epoch. */
  datatype Company = Company(
    companyId: string,
    companyName: string,
    service: string,
    email: string,
    phone: string,
    address: string,
    password: string,
    companyLogo: Option<string>,
    emailVerificationToken: Option<string>,
    emailVerificationTokenExpires: Option<int>,
    emailVerified: bool)

  /**
   * A document built without an `emailVerified` value: the schema default applies,
   * so the account starts unverified.
   */
  function NewCompany(
    companyId: string, companyName: string, service: string, email: string,
    phone: string, address: string, password: string, companyLogo: Option<string>,
    token: Option<string>, expires: Option<int>): (c: Company)
    ensures !c.emailVerified
    ensures c.emailVerificationToken == token && c.emailVerificationTokenExpires == expires
  {
    Company(companyId, companyName, service, email, phone, address, password,
            companyLogo, token, expires, false)
  }

  /** Mongoose's `required` validator on a String path rejects a missing value and "". */
  predicate Present(s: string) {
    s != ""
  }

  predicate HasRequiredFields(c: Company) {
    && Present(c.companyId)
    && Present(c.companyName)
    && Present(c.service)
    && Present(c.email)
    && Present(c.phone)
    && Present(c.address)
    && Present(c.password)
  }

  predicate EmailsUnique(s: seq<Company>) {
    forall i, j :: 0 <= i < |s| && 0 <= j < |s| && i != j ==> s[i].email != s[j].email
  }

  /** What the schema guarantees of every stored collection. */
  predicate SchemaValid(s: seq<Company>) {
    && (forall i :: 0 <= i < |s| ==> HasRequiredFields(s[i]))
    && EmailsUnique(s)
  }

  predicate EmailTaken(s: seq<Company>, email: string) {
    exists i :: 0 <= i < |s| && s[i].email == email
  }

  /**
   * `save()` of a new document: schema validation, then the unique index on email.
   * Either failure leaves the collection as it was.
   */
  function Insert(s: seq<Company>, c: Company): (r: Option<seq<Company>>)
    ensures r.Some? <==> HasRequiredFields(c) && forall i :: 0 <= i < |s| ==> s[i].email != c.email
    ensures r.Some? ==> |r.value| == |s| + 1 && r.value[..|s|] == s && r.value[|s|] == c
    ensures SchemaValid(s) && r.Some? ==> SchemaValid(r.value)
  {
    if HasRequiredFields(c) && !EmailTaken(s, c.email) then Some(s + [c]) else None
  }

  /**
   * The schema has no unique index on companyId: a valid collection may hold two
   * documents with the same companyId.
   */
  lemma CompanyIdNotUnique()
    ensures exists s: seq<Company> :: SchemaValid(s) && |s| == 2 && s[0].companyId == s[1].companyId
  {
    var a := NewCompany("acme", "Acme", "web", "a@x.com", "0123456789", "Main St", "h1", None, None, None);
    var b := a.(email := "b@x.com");
    var s := [a, b];
    assert SchemaValid(s);
  }

  /**
   * A value taken from the parsed query string (Express's extended parser): a string,
   * a repeated parameter (`?token=a&token=b`) or a bracketed operator (`?token[$ne]=x`).
   */
  datatype QueryValue = Text(text: string) | List(items: seq<string>) | NotEqual(other: string)

  /**
   * How Mongoose applies a query value to a String path: a string is compared for
   * equality, an array becomes `$in`, and `$ne` also matches a missing value.
   */
  predicate TokenSatisfies(token: Option<string>, q: QueryValue) {
    match q
    case Text(t) => token == Some(t)
    case List(ts) => token.Some? && token.value in ts
    case NotEqual(x) => token != Some(x)
  }

  /** The filters the controller passes to `findOne`. */
  datatype Filter =
    | IdOrEmail(companyId: string, email: string)  // { $or: [{ companyId }, { email }] }
    | ByEmail(email: string)                       // { email }
    | LiveToken(token: string, now: int)           // { emailVerificationToken: token, emailVerificationTokenExpires: { $gt: now } }
    | LiveTokenQuery(value: QueryValue, now: int)  // the same filter built from an untyped query value

  predicate Matches(c: Company, f: Filter) {
    match f
    case IdOrEmail(id, e) => c.companyId == id || c.email == e
    case ByEmail(e) => c.email == e
    case LiveToken(t, now) =>
      && c.emailVerificationToken == Some(t)
      && c.emailVerificationTokenExpires.Some?
      && c.emailVerificationTokenExpires.value > now
    case LiveTokenQuery(q, now) =>
      && TokenSatisfies(c.emailVerificationToken, q)
      && c.emailVerificationTokenExpires.Some?
      && c.emailVerificationTokenExpires.value > now
  }

  predicate AnyMatch(s: seq<Company>, f: Filter) {
    exists i :: 0 <= i < |s| && Matches(s[i], f)
  }

  /** Index `i` is the document `findOne(f)` returns. */
  predicate FirstMatch(s: seq<Company>, f: Filter, i: int) {
    0 <= i < |s| && Matches(s[i], f) && forall j :: 0 <= j < i ==> !Matches(s[j], f)
  }

  /** `findOne(f)`: the index of the first matching document, if any. */
  function FindOne(s: seq<Company>, f: Filter): (r: Option<nat>)
    ensures r.Some? ==> FirstMatch(s, f, r.value)
    ensures r.None? <==> !AnyMatch(s, f)
  {
    if s == [] then None
    else if Matches(s[0], f) then Some(0)
    else
      match FindOne(s[1..], f)
      case None => None
      case Some(k) => Some(k + 1)
  }

  /** With unique emails, an email filter finds exactly the document holding that email. */
  lemma FindByEmailIsUnique(s: seq<Company>, i: int)
    requires EmailsUnique(s) && 0 <= i < |s|
    ensures FindOne(s, ByEmail(s[i].email)) == Some(i)
  {
  }
}
