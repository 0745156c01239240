/** The sign-in and route-guard callbacks of frontend/src/auth.ts. The
    ADMIN_EMAILS environment value is a parameter (None when unset); the
    token and session objects the jwt and session callbacks write to are
    classes updated in place. */
module Auth {
  import opened Wrappers
  import opened Text

  function TrimAll(xs: seq<string>): (r: seq<string>)
    ensures |r| == |xs| && forall i :: 0 <= i < |xs| ==> r[i] == JsTrim(xs[i])
  {
    seq(|xs|, i requires 0 <= i < |xs| => JsTrim(xs[i]))
  }

  /** ADMIN_EMAILS?.split(',').map(e => e.trim()) || []: no entries when the
      variable is unset, otherwise one per comma-separated item. */
  function AllowedEmails(adminEmails: Option<string>): (r: seq<string>)
    ensures adminEmails.None? ==> r == []
    ensures adminEmails.Some? ==> r == TrimAll(Split(adminEmails.value, ",")) && |r| >= 1
  {
    if adminEmails.None? then [] else TrimAll(Split(adminEmails.value, ","))
  }

  /** The signIn callback: refused when no admin list is configured, and
      otherwise allowed exactly when the user's e-mail (or "" when it has none)
      is one of the entries. */
  function SignIn(adminEmails: Option<string>, email: Option<string>): (ok: bool)
    ensures adminEmails.None? ==> !ok
    ensures adminEmails.Some? ==> (ok <==> Listed(Split(adminEmails.value, ","), email.GetOr("")))
  {
    var allowed := AllowedEmails(adminEmails);
    if |allowed| == 0 then false
    else
      var parts := Split(adminEmails.value, ",");
      var e := email.GetOr("");
      assert (e in allowed) <==> Listed(parts, e) by {
        if e in allowed {
          var i :| 0 <= i < |allowed| && allowed[i] == e;
          assert JsTrim(parts[i]) == e;
        }
        if Listed(parts, e) {
          var i :| 0 <= i < |parts| && JsTrim(parts[i]) == e;
          assert allowed[i] == e;
        }
      }
      e in allowed
  }

  /** Some comma-separated item, trimmed, is e. */
  predicate Listed(parts: seq<string>, e: string) {
    exists i :: 0 <= i < |parts| && JsTrim(parts[i]) == e
  }

  /** With ADMIN_EMAILS set to the empty string the list is [""], which
      passes the emptiness check, so only a user without an e-mail (or with
      an empty one) gets in. */
  lemma EmptyAdminList(email: Option<string>)
    ensures SignIn(Some(""), email) <==> email.GetOr("") == ""
  {
    assert IndexOf("", ",") == None;
    assert Split("", ",") == [""];
    assert JsTrim("") == "";
    assert [""][0] == "";
    assert Listed([""], "");
  }

  /** An entry written with spaces around it admits the e-mail it names. */
  lemma PaddedEntryAdmits(before: string, entry: string, after: string, email: string)
    requires ',' !in before && ',' !in after && ',' !in entry
    requires All(before, IsJsSpace) && All(after, IsJsSpace)
    requires JsTrim(entry) == email
    ensures SignIn(Some(before + entry + after), Some(email))
  {
    var s := before + entry + after;
    assert ',' !in s;
    SplitJoin([s], ",");
    assert Split(s, ",") == [s];
    TrimPadded(before, entry, after);
  }

  lemma TrimPadded(before: string, entry: string, after: string)
    requires All(before, IsJsSpace) && All(after, IsJsSpace)
    ensures JsTrim(before + entry + after) == JsTrim(entry)
  {
    StripPadded(before, entry, after, IsJsSpace);
  }

  /** Whitespace around a string does not change what stripping leaves. */
  lemma {:induction false} StripPadded(before: string, s: string, after: string, ws: char -> bool)
    requires All(before, ws) && All(after, ws)
    ensures Strip(before + s + after, ws) == Strip(s, ws)
    decreases |before| + |after|
  {
    if |before| > 0 {
      var t := before + s + after;
      assert t[1..] == before[1..] + s + after;
      assert TrimStart(t, ws) == TrimStart(t[1..], ws);
      StripPadded(before[1..], s, after, ws);
    } else {
      assert before + s + after == s + after;
      TrimEndAfter(s, after, ws);
    }
  }

  /** Trimming the start of s + after: the start of s, then after as it is;
      or, when s is all whitespace, the trimmed start of after. */
  lemma {:induction false} TrimStartPadded(s: string, after: string, ws: char -> bool)
    ensures TrimStart(s, ws) != [] ==> TrimStart(s + after, ws) == TrimStart(s, ws) + after
    ensures TrimStart(s, ws) == [] ==> TrimStart(s + after, ws) == TrimStart(after, ws)
    decreases |s|
  {
    if |s| > 0 {
      assert (s + after)[0] == s[0];
      if ws(s[0]) {
        assert (s + after)[1..] == s[1..] + after;
        TrimStartPadded(s[1..], after, ws);
      }
    } else {
      assert s + after == after;
    }
  }

  /** Strip(s + after) == Strip(s) when after is whitespace. */
  lemma TrimEndAfter(s: string, after: string, ws: char -> bool)
    requires All(after, ws)
    ensures Strip(s + after, ws) == Strip(s, ws)
  {
    TrimStartPadded(s, after, ws);
    var u := TrimStart(s, ws);
    if u != [] {
      TrimEndSpace(u, after, ws);
    } else {
      TrimStartAll(after, ws);
    }
  }

  lemma {:induction false} TrimEndSpace(u: string, after: string, ws: char -> bool)
    requires All(after, ws)
    ensures TrimEnd(u + after, ws) == TrimEnd(u, ws)
    decreases |after|
  {
    if |after| > 0 {
      var a := after[..|after| - 1];
      assert (u + after)[..|u + after| - 1] == u + a;
      TrimEndSpace(u, a, ws);
    } else {
      assert u + after == u;
    }
  }

  lemma {:induction false} TrimStartAll(s: string, ws: char -> bool)
    requires All(s, ws)
    ensures TrimStart(s, ws) == []
    decreases |s|
  {
    if |s| > 0 {
      TrimStartAll(s[1..], ws);
    }
  }

  // ---------------------------------------------------------------------------
  // Route guard

  /** The pages that need a signed-in user. */
  predicate Protected(pathname: string) {
    pathname == "/" || StartsWith(pathname, "/embed-admin") || StartsWith(pathname, "/chat-test")
  }

  /** The authorized callback: a protected page needs a logged-in user, every
      other page is open. */
  function Authorized(loggedIn: bool, pathname: string): (ok: bool)
    ensures ok <==> loggedIn || !Protected(pathname)
  {
    if Protected(pathname) then loggedIn else true
  }

  /** The admin pages and their sub-pages are guarded; other paths are not. */
  lemma GuardedPages(loggedIn: bool, sub: string)
    ensures Authorized(loggedIn, "/embed-admin" + sub) == loggedIn
    ensures Authorized(loggedIn, "/chat-test" + sub) == loggedIn
    ensures Authorized(loggedIn, "/") == loggedIn
    ensures Authorized(false, "/login")
  {
    assert ("/embed-admin" + sub)[..12] == "/embed-admin";
    assert ("/chat-test" + sub)[..10] == "/chat-test";
    assert !StartsWith("/login", "/embed-admin");
    assert !StartsWith("/login", "/chat-test");
  }

  // ---------------------------------------------------------------------------
  // Token and session callbacks

  /** The JWT's role claim (None when it is not set). */
  class Token {
    var role: Option<string>
    var email: Option<string>

    constructor (email: Option<string>)
      ensures this.email == email && role == None
    {
      this.email := email;
      role := None;
    }
  }

  class SessionUser {
    var role: Option<string>
    var email: Option<string>

    constructor (email: Option<string>)
      ensures this.email == email && role == None
    {
      this.email := email;
      role := None;
    }
  }

  class Session {
    var user: SessionUser?

    constructor (user: SessionUser?)
      ensures this.user == user
    {
      this.user := user;
    }
  }

  /** The jwt callback: on sign-in (a user is present) the role becomes
      "admin"; otherwise the token comes back unchanged. The same token is
      returned. */
  method Jwt(token: Token, signedInUser: bool) returns (t: Token)
    modifies token
    ensures t == token
    ensures signedInUser ==> token.role == Some("admin")
    ensures !signedInUser ==> token.role == old(token.role)
    ensures token.email == old(token.email)
  {
    if signedInUser {
      token.role := Some("admin");
    }
    t := token;
  }

  /** The session callback: the token's role is copied onto the session's
      user, when there is one. */
  method SessionCallback(session: Session, token: Token) returns (s: Session)
    modifies session.user
    ensures s == session && session.user == old(session.user)
    ensures session.user != null ==> session.user.role == token.role && session.user.email == old(session.user.email)
  {
    if session.user != null {
      session.user.role := token.role;
    }
    s := session;
  }

  /** Sign-in followed by a session read: the session's user carries the
      admin role. */
  method SignInThenSession(token: Token, session: Session) returns (s: Session)
    requires session.user != null
    modifies token, session.user
    ensures s == session && session.user.role == Some("admin")
  {
    var t := Jwt(token, true);
    s := SessionCallback(session, t);
  }
}
