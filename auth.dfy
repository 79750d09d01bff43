/**
 * The authentication middleware: the token is taken from the Authorization
 * header, checked by the token-verification primitive (a parameter here),
 * resolved to a user, and accepted only when it equals the token stored for
 * that user. The verdict either lets the request through with the user and
 * token attached, or names the reason it is rejected.
 */
module Auth {
  import opened Common

  const Bearer: string := "Bearer "

  /** `pat` occurs in `s` starting at index `i`. */
  predicate OccursAt(s: string, pat: string, i: nat)
  {
    i + |pat| <= |s| && s[i..i + |pat|] == pat
  }

  /** JavaScript's `s.replace(pat, rep)` with a string pattern: only the first occurrence is replaced. */
  function ReplaceFirst(s: string, pat: string, rep: string): string
    requires pat != []
    decreases |s|
  {
    if |s| < |pat| then s
    else if s[..|pat|] == pat then rep + s[|pat|..]
    else [s[0]] + ReplaceFirst(s[1..], pat, rep)
  }

  /** Without an occurrence of the pattern, the string is returned as it is. */
  lemma {:induction false} ReplaceFirstAbsent(s: string, pat: string, rep: string)
    requires pat != []
    requires forall i: nat :: !OccursAt(s, pat, i)
    ensures ReplaceFirst(s, pat, rep) == s
    decreases |s|
  {
    if |s| >= |pat| {
      assert !OccursAt(s, pat, 0);
      forall i: nat ensures !OccursAt(s[1..], pat, i) {
        assert !OccursAt(s, pat, i + 1);
        if i + |pat| <= |s| - 1 {
          assert s[1..][i..i + |pat|] == s[i + 1..i + 1 + |pat|];
        }
      }
      ReplaceFirstAbsent(s[1..], pat, rep);
    }
  }

  /** With a first occurrence at `i`, exactly that occurrence is replaced. */
  lemma {:induction false} ReplaceFirstAt(s: string, pat: string, rep: string, i: nat)
    requires pat != []
    requires OccursAt(s, pat, i)
    requires forall j: nat :: j < i ==> !OccursAt(s, pat, j)
    ensures ReplaceFirst(s, pat, rep) == s[..i] + rep + s[i + |pat|..]
    decreases i
  {
    if i == 0 {
      assert s[..|pat|] == pat;
    } else {
      assert !OccursAt(s, pat, 0);
      var t := s[1..];
      assert OccursAt(t, pat, i - 1) by {
        assert t[i - 1..i - 1 + |pat|] == s[i..i + |pat|];
      }
      forall j: nat | j < i - 1 ensures !OccursAt(t, pat, j) {
        assert !OccursAt(s, pat, j + 1);
        assert t[j..j + |pat|] == s[j + 1..j + 1 + |pat|];
      }
      ReplaceFirstAt(t, pat, rep, i - 1);
      assert ReplaceFirst(s, pat, rep) == [s[0]] + ReplaceFirst(t, pat, rep);
      assert [s[0]] + t[..i - 1] == s[..i];
      assert t[i - 1 + |pat|..] == s[i + |pat|..];
    }
  }

  /** The token: the Authorization header with its first "Bearer " removed; None when there is no header. */
  function ExtractToken(header: Option<string>): Option<string>
  {
    match header
    case None => None
    case Some(h) => Some(ReplaceFirst(h, Bearer, ""))
  }

  /** A header of the usual form "Bearer <t>" yields exactly `t`. */
  lemma ExtractBearer(t: string)
    ensures ExtractToken(Some(Bearer + t)) == Some(t)
  {
    var h := Bearer + t;
    assert h[..|Bearer|] == Bearer && h[|Bearer|..] == t;
    assert ReplaceFirst(h, Bearer, "") == "" + h[|Bearer|..];
    assert "" + h[|Bearer|..] == t;
    assert ExtractToken(Some(h)) == Some(ReplaceFirst(h, Bearer, ""));
  }

  /** A header that does not contain "Bearer " is used as the token as it stands. */
  lemma ExtractRaw(h: string)
    requires forall i: nat :: !OccursAt(h, Bearer, i)
    ensures ExtractToken(Some(h)) == Some(h)
  {
    ReplaceFirstAbsent(h, Bearer, "");
  }

  /** What the token-verification primitive reports: the identity in a good token, or why it failed. */
  datatype VerifyOutcome =
    | Verified(subject: UserId)
    | Malformed       // JsonWebTokenError
    | Expired         // TokenExpiredError
    | VerifyFailed    // any other error raised while verifying

  /** The part of a user record the middleware reads: the one stored session token, if any. */
  datatype UserRecord = UserRecord(token: Option<string>)

  datatype Rejection = NoToken | InvalidToken | TokenExpired | UserNotFound | TokenMismatch | AuthFailure

  datatype Verdict = Accept(user: UserId, token: string) | Reject(reason: Rejection)

  /** The status code of each rejection: 401, except 500 for an unexpected verification error. */
  function StatusOf(r: Rejection): (status: nat)
    ensures status == Unauthorized || status == InternalError
    ensures status == InternalError <==> r == AuthFailure
  {
    if r == AuthFailure then InternalError else Unauthorized
  }

  function MessageOf(r: Rejection): string
  {
    match r
    case NoToken => "No token provided, authorization denied"
    case InvalidToken => "Invalid token"
    case TokenExpired => "Token expired"
    case UserNotFound => "User not found"
    case TokenMismatch => "Token is invalid or user logged in from another device"
    case AuthFailure => "Server error during authentication"
  }

  /** Only the mismatch rejection carries a machine-readable code. */
  function CodeOf(r: Rejection): (code: Option<string>)
    ensures code.Some? <==> r == TokenMismatch
  {
    if r == TokenMismatch then Some("TOKEN_MISMATCH") else None
  }

  /** The middleware's decision for one request. */
  function Authenticate(header: Option<string>, verify: string -> VerifyOutcome, users: map<UserId, UserRecord>): Verdict
  {
    var token := ExtractToken(header);
    if token.None? || token.value == [] then Reject(NoToken)
    else
      match verify(token.value)
      case Malformed => Reject(InvalidToken)
      case Expired => Reject(TokenExpired)
      case VerifyFailed => Reject(AuthFailure)
      case Verified(id) =>
        if id !in users then Reject(UserNotFound)
        else if users[id].token != Some(token.value) then Reject(TokenMismatch)
        else Accept(id, token.value)
  }

  /**
   * A request proceeds if and only if a non-empty token is present, it
   * verifies, its identity resolves to a user, and that user's stored token
   * is this very token; the verdict then carries that user and token.
   */
  lemma AcceptIff(header: Option<string>, verify: string -> VerifyOutcome, users: map<UserId, UserRecord>)
    ensures var v := Authenticate(header, verify, users);
      var t := ExtractToken(header);
      v.Accept? <==>
        && t.Some? && t.value != []
        && verify(t.value).Verified?
        && verify(t.value).subject in users
        && users[verify(t.value).subject].token == Some(t.value)
    ensures var v := Authenticate(header, verify, users);
      v.Accept? ==> v.token == ExtractToken(header).value && v.user == verify(v.token).subject
  {
  }

  /** An absent or empty token is refused before the verifier or the user table is consulted. */
  lemma MissingTokenRejected(header: Option<string>, users: map<UserId, UserRecord>)
    requires ExtractToken(header).None? || ExtractToken(header).value == []
    ensures forall verify: string -> VerifyOutcome :: Authenticate(header, verify, users) == Reject(NoToken)
  {
  }

  /** How each verification failure maps to a rejection and its status. */
  lemma VerifyErrors(header: Option<string>, verify: string -> VerifyOutcome, users: map<UserId, UserRecord>)
    requires ExtractToken(header).Some? && ExtractToken(header).value != []
    ensures var o := verify(ExtractToken(header).value);
      var v := Authenticate(header, verify, users);
      && (o.Malformed? ==> v == Reject(InvalidToken) && StatusOf(v.reason) == 401
                           && MessageOf(v.reason) == "Invalid token")
      && (o.Expired? ==> v == Reject(TokenExpired) && StatusOf(v.reason) == 401
                         && MessageOf(v.reason) == "Token expired")
      && (o.VerifyFailed? ==> v == Reject(AuthFailure) && StatusOf(v.reason) == 500
                              && MessageOf(v.reason) == "Server error during authentication")
      && (o.Verified? && o.subject !in users ==> v == Reject(UserNotFound))
      && ((o.Verified? && o.subject in users && users[o.subject].token != Some(ExtractToken(header).value))
            ==> v == Reject(TokenMismatch) && CodeOf(v.reason) == Some("TOKEN_MISMATCH"))
  {
  }

  /** A user with no stored token is never let through, whatever token is presented. */
  lemma NoStoredTokenRejects(header: Option<string>, verify: string -> VerifyOutcome, users: map<UserId, UserRecord>, u: UserId)
    requires u in users && users[u].token.None?
    ensures Authenticate(header, verify, users).Accept? ==> Authenticate(header, verify, users).user != u
  {
  }

  /** At any moment at most one token string is accepted for a user: the stored one. */
  lemma OneTokenPerUser(h1: Option<string>, h2: Option<string>, verify: string -> VerifyOutcome,
                        users: map<UserId, UserRecord>, u: UserId)
    requires Authenticate(h1, verify, users).Accept? && Authenticate(h1, verify, users).user == u
    requires Authenticate(h2, verify, users).Accept? && Authenticate(h2, verify, users).user == u
    ensures Authenticate(h1, verify, users).token == Authenticate(h2, verify, users).token
    ensures Some(Authenticate(h1, verify, users).token) == users[u].token
  {
  }

  /**
   * Overwriting a user's stored token (a new login elsewhere) makes a token
   * that verifies as that user fail with TOKEN_MISMATCH, even though it has
   * not expired.
   */
  lemma ReissueInvalidatesOld(t: string, newer: string, verify: string -> VerifyOutcome,
                              users: map<UserId, UserRecord>, u: UserId)
    requires t != [] && t != newer
    requires verify(t) == Verified(u)
    requires u in users
    ensures Authenticate(Some(Bearer + t), verify, users[u := UserRecord(Some(newer))]) == Reject(TokenMismatch)
  {
    ExtractBearer(t);
  }
}
