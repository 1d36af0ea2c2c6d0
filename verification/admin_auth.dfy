/** The administrators' sign-in: one configured user name and password and
    a process-wide set of live session tokens
    (backend/src/middleware/adminAuth.js). */
module AdminAuth {
  import opened Wrappers
  import Text

  const BearerPrefix: string := "Bearer "

  /** `req.headers.authorization?.replace('Bearer ', '')`: no header gives
      no token; otherwise the first occurrence of the prefix, wherever it
      is, is cut out. */
  function ExtractToken(authorization: Option<string>): (r: Option<string>)
    ensures authorization.None? <==> r.None?
    ensures r.Some? && !Text.Contains(authorization.value, BearerPrefix) ==> r.value == authorization.value
    ensures forall i: nat ::
      (&& authorization.Some?
       && Text.OccursAt(authorization.value, BearerPrefix, i)
       && forall j: nat :: j < i ==> !Text.OccursAt(authorization.value, BearerPrefix, j))
      ==> r == Some(authorization.value[..i] + authorization.value[i + |BearerPrefix|..])
  {
    match authorization
    case None => None
    case Some(h) =>
      Text.ContainsIffIndexOf(h, BearerPrefix);
      Text.ReplaceFirstCutsFirst(h, BearerPrefix);
      Some(Text.ReplaceFirst(h, BearerPrefix, ""))
  }

  /** The guard of `checkAuth` and `requireAuth`: the token is present,
      non-empty and live. */
  predicate Admits(active: set<string>, authorization: Option<string>) {
    var t := ExtractToken(authorization);
    t.Some? && t.value != "" && t.value in active
  }

  /** The session set after `logout` with this header: the presented token
      is dropped, if there is one. */
  function LoggedOut(active: set<string>, authorization: Option<string>): (r: set<string>)
    ensures r <= active
    ensures forall u :: u in active && Some(u) != ExtractToken(authorization) ==> u in r
    ensures ExtractToken(authorization).Some? && ExtractToken(authorization).value != "" ==>
      ExtractToken(authorization).value !in r
  {
    var t := ExtractToken(authorization);
    if t.Some? && t.value != "" then active - {t.value} else active
  }

  /** The token `login` hands out: `session_<milliseconds>_<nonce>`, the
      nonce standing for the nine random base-36 characters. */
  function SessionToken(now: nat, nonce: string): (r: string)
    ensures Text.StartsWith(r, "session_")
    ensures |r| > |"session_"|
  {
    "session_" + Text.NatToString(now) + "_" + nonce
  }

  datatype LoginReply = LoggedIn(token: string) | Unauthorized
  datatype CheckReply = Authenticated(username: string) | NotAuthenticated

  class AdminSessions {
    const username: string
    const password: string
    var active: set<string>

    /** The credentials are read once from the environment, with defaults. */
    constructor (envUsername: Option<string>, envPassword: Option<string>)
      ensures username == Text.EnvOr(envUsername, "admin")
      ensures password == Text.EnvOr(envPassword, "admin123")
      ensures active == {}
    {
      username := Text.EnvOr(envUsername, "admin");
      password := Text.EnvOr(envPassword, "admin123");
      active := {};
    }

    /** `login`: the configured pair opens a session whose token is
        returned; any other pair is refused with 401 and changes nothing. */
    method Login(user: string, pass: string, now: nat, nonce: string) returns (r: LoginReply)
      modifies this
      ensures user == username && pass == password ==>
        && r == LoggedIn(SessionToken(now, nonce))
        && active == old(active) + {r.token}
      ensures !(user == username && pass == password) ==>
        r == Unauthorized && active == old(active)
    {
      if user == username && pass == password {
        var token := SessionToken(now, nonce);
        active := active + {token};
        r := LoggedIn(token);
      } else {
        r := Unauthorized;
      }
    }

    /** `logout` always reports success. */
    method Logout(authorization: Option<string>) returns (success: bool)
      modifies this
      ensures success
      ensures active == LoggedOut(old(active), authorization)
    {
      var t := ExtractToken(authorization);
      if t.Some? && t.value != "" {
        active := active - {t.value};
      }
      success := true;
    }

    method CheckAuth(authorization: Option<string>) returns (r: CheckReply)
      ensures r.Authenticated? <==> Admits(active, authorization)
      ensures r.Authenticated? ==> r.username == username
    {
      var t := ExtractToken(authorization);
      if t.Some? && t.value != "" && t.value in active {
        r := Authenticated(username);
      } else {
        r := NotAuthenticated;
      }
    }

    /** `requireAuth`: whether the request is passed on to `next`. */
    method RequireAuth(authorization: Option<string>) returns (next: bool)
      ensures next <==> Admits(active, authorization)
    {
      var t := ExtractToken(authorization);
      next := t.Some? && t.value != "" && t.value in active;
    }
  }

  /** A client sending `Bearer <t>` presents exactly `t`. */
  lemma ExtractBearer(t: string)
    ensures ExtractToken(Some(BearerPrefix + t)) == Some(t)
  {
    var h := BearerPrefix + t;
    assert h[0..|BearerPrefix|] == BearerPrefix;
    assert Text.IndexOf(h, BearerPrefix) == Some(0);
    assert h[..0] + "" + h[|BearerPrefix|..] == t;
    assert Text.ReplaceFirst(h, BearerPrefix, "") == t;
  }

  /** The token a successful login returns is admitted right away. */
  lemma LoginThenAdmitted(active: set<string>, now: nat, nonce: string)
    ensures Admits(active + {SessionToken(now, nonce)}, Some(BearerPrefix + SessionToken(now, nonce)))
  {
    var t := SessionToken(now, nonce);
    ExtractBearer(t);
    assert ExtractToken(Some(BearerPrefix + t)).value == t;
    assert t != "" && t in active + {t};
  }

  /** A token accepted before `logout` is refused after it, and every other
      live session survives. */
  lemma LogoutRevokes(active: set<string>, t: string, other: string)
    requires Admits(active, Some(BearerPrefix + t))
    ensures !Admits(LoggedOut(active, Some(BearerPrefix + t)), Some(BearerPrefix + t))
    ensures other != t && other in active ==> other in LoggedOut(active, Some(BearerPrefix + t))
  {
    ExtractBearer(t);
  }
}
