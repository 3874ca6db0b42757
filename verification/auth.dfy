/** The request guards: the `Bearer ` prefix of the Authorization header and the role check. */
module Auth {
  import opened Records

  const Prefix: string := "Bearer "

  /** The token carried by an Authorization header: refused when the header is empty, or when it is not
      `Bearer ` followed by at least one character. */
  function BearerToken(header: string): (r: Result<string>)
    ensures header == [] ==> r == Err(Unauthorized("Missing token"))
    ensures header != [] && r.Err? ==> r == Err(Unauthorized("Invalid token format"))
    ensures r.Ok? <==> |header| > 7 && header[..7] == Prefix
    ensures r.Ok? ==> r.value != [] && Prefix + r.value == header
  {
    if header == [] then Err(Unauthorized("Missing token"))
    else if |header| > 7 && header[..7] == Prefix then Ok(header[7..])
    else Err(Unauthorized("Invalid token format"))
  }

  /** Stripping the prefix gives back any non-empty token that was sent after it. */
  lemma BearerRoundTrip(token: string)
    requires token != []
    ensures BearerToken(Prefix + token) == Ok(token)
  {
    var header := Prefix + token;
    assert header[..7] == Prefix;
    assert header[7..] == token;
  }

  /** The prefix alone, and the prefix in another case, are refused. */
  lemma MalformedHeadersRefused()
    ensures BearerToken("Bearer ") == Err(Unauthorized("Invalid token format"))
    ensures BearerToken("bearer abc") == Err(Unauthorized("Invalid token format"))
  {
    assert "bearer abc"[..7] != Prefix by {
      assert "bearer abc"[0] != Prefix[0];
    }
  }

  /** Lower case of one character; only `A`..`Z` change. */
  function LowerChar(c: char): (l: char)
    ensures 'A' <= c <= 'Z' ==> l as int == c as int + 32
    ensures !('A' <= c <= 'Z') ==> l == c
  {
    if 'A' <= c <= 'Z' then (c as int + 32) as char else c
  }

  /** `strings.ToLower`, character by character. */
  function Lower(s: string): (l: string)
    ensures |l| == |s|
    ensures forall k :: 0 <= k < |s| ==> l[k] == LowerChar(s[k])
  {
    if s == [] then [] else Lower(s[..|s| - 1]) + [LowerChar(s[|s| - 1])]
  }

  /** Two role names match when they agree ignoring case. */
  predicate SameRole(a: string, b: string)
  {
    Lower(a) == Lower(b)
  }

  /** Access is granted when some allowed role matches some role of the user. */
  predicate Admits(allowedRoles: seq<string>, roles: seq<string>)
  {
    exists i, j :: 0 <= i < |allowedRoles| && 0 <= j < |roles| && SameRole(roles[j], allowedRoles[i])
  }

  /** The nested loops of `AllowedRoles`: stop at the first match. */
  method RoleAllowed(allowedRoles: seq<string>, roles: seq<string>) returns (roleAllowed: bool)
    ensures roleAllowed <==> Admits(allowedRoles, roles)
  {
    roleAllowed := false;
    var i := 0;
    while i < |allowedRoles|
      invariant 0 <= i <= |allowedRoles|
      invariant !roleAllowed
      invariant forall i', j :: 0 <= i' < i && 0 <= j < |roles| ==> !SameRole(roles[j], allowedRoles[i'])
    {
      var j := 0;
      while j < |roles|
        invariant 0 <= j <= |roles|
        invariant !roleAllowed
        invariant forall j' :: 0 <= j' < j ==> !SameRole(roles[j'], allowedRoles[i])
      {
        if Lower(roles[j]) == Lower(allowedRoles[i]) {
          roleAllowed := true;
          break;
        }
        j := j + 1;
      }
      if roleAllowed {
        break;
      }
      i := i + 1;
    }
  }

  /** Granting never depends on case: an upper-case role of the user admits its lower-case allowance. */
  lemma CaseIsIgnored()
    ensures Admits(["admin"], ["ADMIN"])
  {
    var l := Lower("ADMIN");
    assert l[0] == 'a' && l[1] == 'd' && l[2] == 'm' && l[3] == 'i' && l[4] == 'n';
    assert l == Lower("admin");
    assert SameRole(["ADMIN"][0], ["admin"][0]);
  }

  /** With no allowed roles, or a user without roles, access is always denied. */
  lemma EmptyListsDeny(allowedRoles: seq<string>, roles: seq<string>)
    requires allowedRoles == [] || roles == []
    ensures !Admits(allowedRoles, roles)
  {
  }

  /** Giving the user more roles never takes access away. */
  lemma MoreRolesNeverDeny(allowedRoles: seq<string>, roles: seq<string>, extra: seq<string>)
    requires Admits(allowedRoles, roles)
    ensures Admits(allowedRoles, roles + extra)
  {
    var i, j :| 0 <= i < |allowedRoles| && 0 <= j < |roles| && SameRole(roles[j], allowedRoles[i]);
    assert (roles + extra)[j] == roles[j];
  }

  /** The `roles` value the authentication step left in the request context. */
  datatype RolesValue = Missing | NotStringList | Roles(names: seq<string>)

  /** What a guard does with the request: pass it on, or abort with a failure. */
  datatype Decision = Next | Abort(failure: Failure)

  /** `AllowedRoles`: 401 without roles or with roles of the wrong shape, 403 without a match. */
  method AllowedRoles(allowedRoles: seq<string>, userRoles: RolesValue) returns (d: Decision)
    ensures userRoles.Missing? ==> d == Abort(Unauthorized("User is not authenticated"))
    ensures userRoles.NotStringList? ==> d == Abort(Unauthorized("Invalid roles format"))
    ensures userRoles.Roles? ==>
              (d == Next <==> Admits(allowedRoles, userRoles.names))
              && (d != Next ==> d == Abort(Forbidden("Access denied")))
  {
    if userRoles.Missing? {
      return Abort(Unauthorized("User is not authenticated"));
    }
    if userRoles.NotStringList? {
      return Abort(Unauthorized("Invalid roles format"));
    }
    var roleAllowed := RoleAllowed(allowedRoles, userRoles.names);
    if !roleAllowed {
      return Abort(Forbidden("Access denied"));
    }
    return Next;
  }
}
