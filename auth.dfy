/**
 * The authentication middlewares as outcome functions.
 *
 * Token verification (`jwt.verify`) and the user lookup (`User.findById`) are
 * inputs: `verify` gives the user id a token carries, or None when
 * verification throws; `findUser` gives the account, or None when there is
 * none (a lookup that throws is handled the same way by every middleware).
 */
module Auth {
  import opened Common
  import opened Text

  /** The parts of a user document the middlewares read. */
  datatype Account = Account(id: UserId, role: Role, isBanned: bool, banReason: Option<string>)

  /** What a middleware does with a request: call `next` (with `req.user` set
      or not), or answer with an error. */
  datatype Outcome =
    | Next(user: Option<Account>)
    | Reject(status: int, error: string)
    | BannedAccount(reason: Option<string>)

  /** The HTTP status of a refusal. */
  function Status(o: Outcome): int
    requires !o.Next?
  {
    if o.BannedAccount? then 403 else o.status
  }

  /** The first position where `pat` occurs in `s`. */
  function FirstOccurrence(s: string, pat: string): (r: Option<nat>)
    ensures r.Some? ==> OccursAt(s, pat, r.value) && forall k :: 0 <= k < r.value ==> !OccursAt(s, pat, k)
    ensures r.None? ==> forall k :: 0 <= k <= |s| - |pat| ==> !OccursAt(s, pat, k)
    decreases |s|
  {
    if |s| < |pat| then None
    else if s[..|pat|] == pat then Some(0)
    else
      var rest := FirstOccurrence(s[1..], pat);
      ShiftOccurrence(s, pat);
      assert !OccursAt(s, pat, 0);
      if rest.None? then None else Some(rest.value + 1)
  }

  /** An occurrence in `s[1..]` is an occurrence in `s` one position later. */
  lemma ShiftOccurrence(s: string, pat: string)
    requires |s| > 0
    ensures forall k :: 1 <= k ==> (OccursAt(s, pat, k) <==> OccursAt(s[1..], pat, k - 1))
  {
    forall k | 1 <= k ensures OccursAt(s, pat, k) <==> OccursAt(s[1..], pat, k - 1) {
      if k + |pat| <= |s| {
        assert s[1..][k - 1..k - 1 + |pat|] == s[k..k + |pat|];
      }
    }
  }

  /** `s.replace(pat, rep)` with a string pattern: only the first occurrence is replaced. */
  function ReplaceFirst(s: string, pat: string, rep: string): (r: string)
    ensures FirstOccurrence(s, pat).None? ==> r == s
    ensures FirstOccurrence(s, pat).Some? ==>
      var i := FirstOccurrence(s, pat).value;
      |r| == |s| - |pat| + |rep| && r == s[..i] + rep + s[i + |pat|..]
  {
    var at := FirstOccurrence(s, pat);
    if at.None? then s else s[..at.value] + rep + s[at.value + |pat|..]
  }

  /** `req.header('Authorization')?.replace('Bearer ', '')`: None when the
      header is missing. */
  function TokenOf(header: Option<string>): (t: Option<string>)
    ensures header.None? <==> t.None?
    ensures header.Some? && !Contains(header.value, "Bearer ") ==> t == header
  {
    if header.None? then None else Some(ReplaceFirst(header.value, "Bearer ", ""))
  }

  /** A header that starts with the prefix yields the rest as the token,
      whatever the rest holds. */
  lemma BearerStripped(tail: string)
    ensures TokenOf(Some("Bearer " + tail)) == Some(tail)
  {
    var s := "Bearer " + tail;
    assert s[..7] == "Bearer ";
    assert FirstOccurrence(s, "Bearer ") == Some(0);
    assert s[7..] == tail;
    assert ReplaceFirst(s, "Bearer ", "") == s[..0] + "" + s[7..];
    assert s[..0] + "" + s[7..] == tail;
  }

  /** The falsy-token test: missing or empty. */
  predicate NoToken(t: Option<string>)
  {
    t.None? || t.value == ""
  }

  /** The steps shared by `auth`, `adminAuth` and `superAdminAuth`: token
      present, verified, user found, user not banned. */
  function Authenticate(header: Option<string>, verify: string -> Option<UserId>,
                        findUser: UserId -> Option<Account>): Outcome
  {
    var token := TokenOf(header);
    if NoToken(token) then Reject(401, "No token, authorization denied")
    else if verify(token.value).None? then Reject(401, "Token is not valid")
    else
      var user := findUser(verify(token.value).value);
      if user.None? then Reject(401, "Token is not valid")
      else if user.value.isBanned then BannedAccount(user.value.banReason)
      else Next(Some(user.value))
  }

  /** The account a header identifies, when the token verifies and the user exists. */
  function Identified(header: Option<string>, verify: string -> Option<UserId>,
                      findUser: UserId -> Option<Account>): Option<Account>
  {
    var token := TokenOf(header);
    if NoToken(token) || verify(token.value).None? then None
    else findUser(verify(token.value).value)
  }

  /** `auth`. */
  function AuthMiddleware(header: Option<string>, verify: string -> Option<UserId>,
                          findUser: UserId -> Option<Account>): (o: Outcome)
    ensures NoToken(TokenOf(header)) ==> o == Reject(401, "No token, authorization denied")
    ensures o.Next? <==> Identified(header, verify, findUser).Some? && !Identified(header, verify, findUser).value.isBanned
    ensures o.Next? ==> o.user == Identified(header, verify, findUser)
    ensures o.BannedAccount? <==> Identified(header, verify, findUser).Some? && Identified(header, verify, findUser).value.isBanned
    ensures o.BannedAccount? ==> o.reason == Identified(header, verify, findUser).value.banReason
    ensures o.Reject? ==> o.status == 401
  {
    Authenticate(header, verify, findUser)
  }

  /** `optionalAuth`: always calls `next`; `req.user` is set only for an
      identified account that is not banned. */
  function OptionalAuth(header: Option<string>, verify: string -> Option<UserId>,
                        findUser: UserId -> Option<Account>): (o: Outcome)
    ensures o.Next?
    ensures o.user.Some? <==> Identified(header, verify, findUser).Some? && !Identified(header, verify, findUser).value.isBanned
    ensures o.user.Some? ==> o.user == Identified(header, verify, findUser)
  {
    var token := TokenOf(header);
    if !NoToken(token) && verify(token.value).Some? then
      var user := findUser(verify(token.value).value);
      if user.Some? && !user.value.isBanned then Next(Some(user.value)) else Next(None)
    else Next(None)
  }

  /** `adminAuth`: the `auth` steps, then only admins and moderators pass. */
  function AdminAuth(header: Option<string>, verify: string -> Option<UserId>,
                     findUser: UserId -> Option<Account>): (o: Outcome)
    ensures o.Next? <==>
      && AuthMiddleware(header, verify, findUser).Next?
      && AuthMiddleware(header, verify, findUser).user.value.role in {Admin, Moderator}
    ensures !AuthMiddleware(header, verify, findUser).Next? ==> o == AuthMiddleware(header, verify, findUser)
    ensures o.Next? ==> o == AuthMiddleware(header, verify, findUser)
    ensures AuthMiddleware(header, verify, findUser).Next? && AuthMiddleware(header, verify, findUser).user.value.role !in {Admin, Moderator} ==>
      o == Reject(403, "Access denied. Admin privileges required.")
  {
    var o := Authenticate(header, verify, findUser);
    if o.Next? && o.user.value.role != Admin && o.user.value.role != Moderator then
      Reject(403, "Access denied. Admin privileges required.")
    else o
  }

  /** `superAdminAuth`: the `auth` steps, then only admins pass. */
  function SuperAdminAuth(header: Option<string>, verify: string -> Option<UserId>,
                          findUser: UserId -> Option<Account>): (o: Outcome)
    ensures o.Next? <==>
      && AuthMiddleware(header, verify, findUser).Next?
      && AuthMiddleware(header, verify, findUser).user.value.role == Admin
    ensures !AuthMiddleware(header, verify, findUser).Next? ==> o == AuthMiddleware(header, verify, findUser)
    ensures o.Next? ==> o == AuthMiddleware(header, verify, findUser)
    ensures AuthMiddleware(header, verify, findUser).Next? && AuthMiddleware(header, verify, findUser).user.value.role != Admin ==>
      o == Reject(403, "Access denied. Super admin privileges required.")
  {
    var o := Authenticate(header, verify, findUser);
    if o.Next? && o.user.value.role != Admin then
      Reject(403, "Access denied. Super admin privileges required.")
    else o
  }

  /** A banned account is refused with its ban reason by every guarding
      middleware, whatever its role: the ban check comes before the role check. */
  lemma BanBeforeRole(header: Option<string>, verify: string -> Option<UserId>,
                      findUser: UserId -> Option<Account>)
    requires Identified(header, verify, findUser).Some? && Identified(header, verify, findUser).value.isBanned
    ensures var reason := BannedAccount(Identified(header, verify, findUser).value.banReason);
      && AuthMiddleware(header, verify, findUser) == reason
      && AdminAuth(header, verify, findUser) == reason
      && SuperAdminAuth(header, verify, findUser) == reason
  {
  }

  /** Whoever passes `superAdminAuth` passes `adminAuth`, and whoever passes
      `adminAuth` passes `auth`, as the same user. */
  lemma PrivilegeChain(header: Option<string>, verify: string -> Option<UserId>,
                       findUser: UserId -> Option<Account>)
    ensures SuperAdminAuth(header, verify, findUser).Next? ==>
      SuperAdminAuth(header, verify, findUser) == AdminAuth(header, verify, findUser)
    ensures AdminAuth(header, verify, findUser).Next? ==>
      AdminAuth(header, verify, findUser) == AuthMiddleware(header, verify, findUser)
  {
  }
}
