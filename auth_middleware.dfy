/**
 * Request authentication (auth.middleware.js): where the session token is taken from,
 * the 401/403 outcomes, and the two role gates. Token verification is a parameter:
 * whatever the signing library accepts it maps to the claims it carried.
 */
module AuthMiddleware {
  import opened Wrappers
  import opened Text

  /** The claims a session token carries: `{ id, role, name }`. */
  datatype Claims = Claims(id: nat, role: string, name: string)

  /** What the middleware does with a request: pass it on with the user, or answer with a status. */
  datatype Response = Next(user: Claims) | Reject(status: int)

  // ---------------------------------------------------------------------------
  // `s.split(c)`
  // ---------------------------------------------------------------------------

  /** JavaScript `s.split(c)` for a one-character separator: always at least one part. */
  function Split(s: string, c: char): (parts: seq<string>)
    ensures |parts| >= 1
    ensures forall i :: 0 <= i < |parts| ==> c !in parts[i]
    decreases |s|
  {
    if |s| == 0 then [""]
    else
      var rest := Split(s[1..], c);
      if s[0] == c then [""] + rest
      else [[s[0]] + rest[0]] + rest[1..]
  }

  /** `parts.join(c)`. */
  function Join(parts: seq<string>, c: char): string
    requires |parts| >= 1
    decreases |parts|
  {
    if |parts| == 1 then parts[0] else parts[0] + [c] + Join(parts[1..], c)
  }

  /** Joining the parts of a split gives back the string. */
  lemma {:induction false} JoinSplit(s: string, c: char)
    ensures Join(Split(s, c), c) == s
    decreases |s|
  {
    if |s| > 0 {
      JoinSplit(s[1..], c);
      var rest := Split(s[1..], c);
      if s[0] != c {
        if |rest| == 1 {
          assert Join(Split(s, c), c) == [s[0]] + rest[0];
        } else {
          assert Join(Split(s, c), c) == [s[0]] + rest[0] + [c] + Join(rest[1..], c);
        }
      }
    }
  }

  /** A word without the separator, followed by the separator, splits off as one part. */
  lemma {:induction false} SplitWord(w: string, c: char, t: string)
    requires c !in w
    ensures Split(w + [c] + t, c) == [w] + Split(t, c)
    decreases |w|
  {
    if |w| == 0 {
      assert w + [c] + t == [c] + t;
      assert ([c] + t)[1..] == t;
    } else {
      SplitWord(w[1..], c, t);
      assert (w + [c] + t)[1..] == w[1..] + [c] + t;
      assert w == [w[0]] + w[1..];
    }
  }

  lemma {:induction false} SplitNoSeparator(w: string, c: char)
    requires c !in w
    ensures Split(w, c) == [w]
    decreases |w|
  {
    if |w| > 0 {
      SplitNoSeparator(w[1..], c);
      assert w == [w[0]] + w[1..];
    }
  }

  /** Splitting a join of separator-free parts gives back the parts. */
  lemma {:induction false} SplitJoin(parts: seq<string>, c: char)
    requires |parts| >= 1
    requires forall i :: 0 <= i < |parts| ==> c !in parts[i]
    ensures Split(Join(parts, c), c) == parts
    decreases |parts|
  {
    if |parts| == 1 {
      SplitNoSeparator(parts[0], c);
    } else {
      SplitJoin(parts[1..], c);
      SplitWord(parts[0], c, Join(parts[1..], c));
      assert parts == [parts[0]] + parts[1..];
    }
  }

  // ---------------------------------------------------------------------------
  // authenticateUser
  // ---------------------------------------------------------------------------

  /** `header.split(' ')[1]`: undefined when there is no space. */
  function SecondWord(header: string): (w: Option<string>)
    ensures (' ' in header) <==> w.Some?
  {
    var parts := Split(header, ' ');
    if ' ' !in header then
      SplitNoSeparator(header, ' ');
      None
    else
      JoinSplit(header, ' ');
      if |parts| >= 2 then Some(parts[1]) else None
  }

  /** `req.cookies.token || (auth && auth.split(' ')[1])`; a falsy token is None. */
  function SelectToken(cookie: Option<string>, authorization: Option<string>): (t: Option<string>)
    ensures t.Some? ==> t.value != ""
    ensures Truthy(cookie) ==> t == cookie
  {
    if Truthy(cookie) then cookie
    else if !Truthy(authorization) then None
    else
      match SecondWord(authorization.value)
      case Some(w) => if w == "" then None else Some(w)
      case None => None
  }

  /** Without a cookie, a `Bearer <token>` header yields the token. */
  lemma BearerToken(cookie: Option<string>, scheme: string, token: string)
    requires !Truthy(cookie)
    requires ' ' !in scheme && ' ' !in token && token != ""
    ensures SelectToken(cookie, Some(scheme + " " + token)) == Some(token)
  {
    var h := scheme + " " + token;
    assert h == Join([scheme, token], ' ');
    SplitJoin([scheme, token], ' ');
    assert h[|scheme|] == ' ';
  }

  /** `authenticateUser`: 401 without a token, 403 when verification fails, otherwise on to the handler. */
  function Authenticate(cookie: Option<string>, authorization: Option<string>,
                        verify: string -> Option<Claims>): (r: Response)
    ensures r.Reject? ==> r.status == 401 || r.status == 403
    ensures r.Reject? && r.status == 401 <==> SelectToken(cookie, authorization).None?
    ensures r.Next? <==> (exists t :: SelectToken(cookie, authorization) == Some(t) && verify(t).Some?)
    ensures r.Next? ==> verify(SelectToken(cookie, authorization).value) == Some(r.user)
  {
    match SelectToken(cookie, authorization)
    case None => Reject(401)
    case Some(t) =>
      match verify(t)
      case None => Reject(403)
      case Some(u) => Next(u)
  }

  // ---------------------------------------------------------------------------
  // Role gates
  // ---------------------------------------------------------------------------

  /** `requireRole(role)`: passes exactly for that role, case-sensitively. */
  function RequireRole(role: string, user: Claims): (r: Response)
    ensures r.Next? <==> user.role == role
    ensures r.Next? ==> r.user == user
    ensures r.Reject? ==> r.status == 403
  {
    if user.role != role then Reject(403) else Next(user)
  }

  /** `authorizeRoles(...allowed)`: passes exactly for a role in the list. */
  function AuthorizeRoles(allowed: seq<string>, user: Claims): (r: Response)
    ensures r.Next? <==> (exists i :: 0 <= i < |allowed| && allowed[i] == user.role)
    ensures r.Next? ==> r.user == user
    ensures r.Reject? ==> r.status == 403
  {
    if user.role !in allowed then Reject(403) else Next(user)
  }

  /** A single-role list is the same gate as requireRole; adding roles never locks anyone out. */
  lemma AuthorizeRolesSingle(role: string, more: seq<string>, user: Claims)
    ensures AuthorizeRoles([role], user) == RequireRole(role, user)
    ensures RequireRole(role, user).Next? ==> AuthorizeRoles([role] + more, user).Next?
    ensures AuthorizeRoles(more, user).Next? ==> AuthorizeRoles([role] + more, user).Next?
  {
    if AuthorizeRoles(more, user).Next? {
      var i :| 0 <= i < |more| && more[i] == user.role;
      assert ([role] + more)[i + 1] == user.role;
    }
  }
}
