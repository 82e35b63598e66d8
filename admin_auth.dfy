/** The back end's admin guard: it reads the bearer token from the
    `Authorization` header, checks the server secret, verifies the token
    and lets the request through only for a payload whose role is
    `admin`. */
module AdminAuth {

  import opened Wrappers
  import opened Catalog
  import opened Strings

  /** What verifying a token yields: a string payload, an object payload
      with its `role` (None when absent or not a string), or an exception
      (bad signature, expired, malformed). */
  datatype Decoded = DecodedText(text: string) | DecodedObject(role: Option<string>)
  datatype Verification = Verified(payload: Decoded) | Throws

  /** How the guard ends: a JSON error reply `{ success: false, error }`
      with a status, or a call to the next handler. */
  datatype Outcome = Reply(status: nat, error: string) | Next

  /** `authorization?.split(" ")[1]`: the second space-separated word. */
  function ExtractToken(header: Option<string>): Option<string> {
    if header.None? then None
    else
      var parts := Split(header.value, ' ');
      if |parts| >= 2 then Some(parts[1]) else None
  }

  /** The token is whatever follows the first space, up to the next one;
      the scheme word before it is never looked at. */
  lemma TokenIsSecondWord(scheme: string, rest: string)
    requires ' ' !in scheme
    ensures ExtractToken(Some(scheme + " " + rest)) == Some(BeforeFirst(rest, ' '))
  {
    SplitAfterSeparator(scheme, rest, ' ');
    if ' ' !in rest {
      SplitNoSeparator(rest, ' ');
    }
  }

  /** A header with no space, or no header, yields no token. */
  lemma NoSpaceNoToken(header: Option<string>)
    requires header.Some? ==> ' ' !in header.value
    ensures ExtractToken(header) == None
  {
    if header.Some? {
      SplitNoSeparator(header.value, ' ');
    }
  }

  /** The payload grants access: an object whose role is `admin`. A
      string payload never does, even a non-empty one. */
  predicate IsAdmin(d: Decoded) {
    d.DecodedObject? && d.role == Some("admin")
  }

  /** The guard's decision for a header, the configured secret and the
      verifier in use. */
  function Decide(header: Option<string>, secret: Option<string>,
                  verify: (string, string) -> Verification): Outcome
  {
    var token := ExtractToken(header);
    if !Truthy(token) then Reply(401, "No token provided")
    else if !Truthy(secret) then Reply(500, "JWT secret not configured")
    else
      match verify(token.value, secret.value)
      case Throws => Reply(401, "Invalid token")
      case Verified(d) => if IsAdmin(d) then Next else Reply(403, "Access denied")
  }

  /** The request passes exactly when the header carries a non-empty token
      after its first space, a secret is configured and the token verifies
      to an admin payload; the scheme word can be anything. */
  lemma PassesIff(scheme: string, rest: string, secret: Option<string>,
                  verify: (string, string) -> Verification)
    requires ' ' !in scheme
    ensures Decide(Some(scheme + " " + rest), secret, verify) == Next <==>
      BeforeFirst(rest, ' ') != "" && Truthy(secret) &&
      verify(BeforeFirst(rest, ' '), secret.value).Verified? &&
      IsAdmin(verify(BeforeFirst(rest, ' '), secret.value).payload)
  {
    TokenIsSecondWord(scheme, rest);
  }

  /** A missing token is reported before anything else: neither the
      secret nor the verifier matters then. */
  lemma MissingTokenFirst(header: Option<string>, secret: Option<string>,
                          verify: (string, string) -> Verification)
    requires header.Some? ==> ' ' !in header.value
    ensures Decide(header, secret, verify) == Reply(401, "No token provided")
  {
    NoSpaceNoToken(header);
  }

  /** Every way the guard ends: it never replies with anything else. */
  lemma OutcomesAreKnown(header: Option<string>, secret: Option<string>,
                         verify: (string, string) -> Verification)
    ensures Decide(header, secret, verify) in
      {Reply(401, "No token provided"), Reply(500, "JWT secret not configured"),
       Reply(401, "Invalid token"), Reply(403, "Access denied"), Next}
  {
  }

  /** The request the guard decorates with the decoded payload. */
  class AuthRequest {
    var user: Option<Decoded>

    constructor()
      ensures user == None
    {
      user := None;
    }
  }

  /** The payload stored on the request: set as soon as the token
      verifies, before the role check, so a refused request carries it
      too. */
  function UserAfter(header: Option<string>, secret: Option<string>,
                     verify: (string, string) -> Verification,
                     before: Option<Decoded>): Option<Decoded>
  {
    var token := ExtractToken(header);
    if Truthy(token) && Truthy(secret) && verify(token.value, secret.value).Verified?
    then Some(verify(token.value, secret.value).payload)
    else before
  }

  /** A refused admin still has the payload on the request; any other
      reply leaves the request as it was. */
  lemma UserOnRefusal(header: Option<string>, secret: Option<string>,
                      verify: (string, string) -> Verification, before: Option<Decoded>)
    ensures Decide(header, secret, verify) == Reply(403, "Access denied") ==>
      UserAfter(header, secret, verify, before).Some? &&
      !IsAdmin(UserAfter(header, secret, verify, before).value)
    ensures Decide(header, secret, verify) == Next ==>
      UserAfter(header, secret, verify, before).Some? &&
      IsAdmin(UserAfter(header, secret, verify, before).value)
    ensures Decide(header, secret, verify).Reply? && Decide(header, secret, verify).status != 403 ==>
      UserAfter(header, secret, verify, before) == before
  {
  }

  /** `verifyAdmin`: the checks in order, with the payload stored on the
      request once it verifies. */
  method VerifyAdmin(req: AuthRequest, header: Option<string>, secret: Option<string>,
                     verify: (string, string) -> Verification) returns (outcome: Outcome)
    modifies req
    ensures outcome == Decide(header, secret, verify)
    ensures req.user == UserAfter(header, secret, verify, old(req.user))
  {
    var token := ExtractToken(header);
    if !Truthy(token) {
      return Reply(401, "No token provided");
    }
    if !Truthy(secret) {
      return Reply(500, "JWT secret not configured");
    }
    var result := verify(token.value, secret.value);
    if result.Throws? {
      return Reply(401, "Invalid token");
    }
    var decoded := result.payload;
    req.user := Some(decoded);
    if !IsAdmin(decoded) {
      return Reply(403, "Access denied");
    }
    return Next;
  }
}
