/**
 * The access check of the site's edge function: four public paths pass
 * through, and every other request needs an `auth` cookie equal to the
 * configured `APP_TOKEN`; anything else is redirected to the login page.
 */
module Middleware {
  import opened Strings
  import opened Wrappers

  /** The paths served without a cookie. */
  const PUBLIC_PATHS: seq<string> := ["/login", "/styles.css", "/app.js", "/data.json"]

  const LOGIN_PATH := "/login"

  /** The cookie holding the token. */
  const AUTH_COOKIE := "auth"

  /** Assigning a string to this key of a plain object leaves the object as it is. */
  const PROTO_KEY := "__proto__"

  /** What the function answers: hand the request to the site, or a 302 to the login page. */
  datatype Decision = Next | RedirectTo(path: string)

  /** One `;`-separated segment of the header, split at its first `=`. */
  datatype Cookie = Cookie(name: string, value: string)

  /** The trimmed segment up to its first `=`, and the pieces after it joined again by `=`. */
  function ParseSegment(segment: string): Cookie {
    var parts := Split(Trim(segment), '=');
    Cookie(parts[0], Join(parts[1..], "="))
  }

  /** The segments of a header, parsed. */
  function Segments(header: string): (r: seq<Cookie>)
    ensures |r| == |Split(header, ';')|
    ensures forall i :: 0 <= i < |r| ==> r[i] == ParseSegment(Split(header, ';')[i])
  {
    var parts := Split(header, ';');
    seq(|parts|, i requires 0 <= i < |parts| => ParseSegment(parts[i]))
  }

  /** Whether a segment sets an entry: its name is not empty and not the prototype key. */
  predicate Sets(c: Cookie) {
    c.name != "" && c.name != PROTO_KEY
  }

  /** The cookie object after the callback of `forEach` has seen `cookies`. */
  function Assign(cookies: seq<Cookie>): map<string, string> {
    if cookies == [] then map[]
    else
      var m := Assign(cookies[..|cookies| - 1]);
      var c := cookies[|cookies| - 1];
      if Sets(c) then m[c.name := c.value] else m
  }

  /** `parseCookies(cookieHeader)`. */
  function Cookies(header: string): map<string, string> {
    if header == "" then map[] else Assign(Segments(header))
  }

  /** `parseCookies`, segment by segment. */
  method ParseCookies(cookieHeader: string) returns (cookies: map<string, string>)
    ensures cookies == Cookies(cookieHeader)
  {
    cookies := map[];
    if cookieHeader == "" {
      return;
    }
    var segments := Split(cookieHeader, ';');
    ghost var parsed := Segments(cookieHeader);
    for i := 0 to |segments|
      invariant cookies == Assign(parsed[..i])
    {
      var parts := Split(Trim(segments[i]), '=');
      var name := parts[0];
      assert parsed[i] == Cookie(name, Join(parts[1..], "="));
      AssignSnoc(parsed, i);
      if name != "" && name != PROTO_KEY {
        cookies := cookies[name := Join(parts[1..], "=")];
      }
    }
    assert parsed[..|parsed|] == parsed;
  }

  /** One more segment seen by the callback. */
  lemma AssignSnoc(cookies: seq<Cookie>, i: nat)
    requires i < |cookies|
    ensures var m := Assign(cookies[..i]);
      Assign(cookies[..i + 1]) == if Sets(cookies[i]) then m[cookies[i].name := cookies[i].value] else m
  {
    assert cookies[..i + 1][..i] == cookies[..i];
  }

  /** Whether the cookies carry the configured token: present, not empty, and equal to it. */
  predicate Authorized(cookies: map<string, string>, appToken: Option<string>) {
    AUTH_COOKIE in cookies && cookies[AUTH_COOKIE] != "" && appToken == Some(cookies[AUTH_COOKIE])
  }

  /** The answer of `onRequest` for a path, the `Cookie` header (when sent) and `APP_TOKEN` (when set). */
  function Decide(pathname: string, cookieHeader: Option<string>, appToken: Option<string>): Decision {
    if pathname in PUBLIC_PATHS then Next
    else if Authorized(Cookies(cookieHeader.GetOr("")), appToken) then Next
    else RedirectTo(LOGIN_PATH)
  }

  /** `onRequest`. */
  method OnRequest(pathname: string, cookieHeader: Option<string>, appToken: Option<string>) returns (decision: Decision)
    ensures decision == Decide(pathname, cookieHeader, appToken)
  {
    if pathname in PUBLIC_PATHS {
      return Next;
    }
    var header := if cookieHeader.Some? then cookieHeader.value else "";
    var cookies := ParseCookies(header);
    if AUTH_COOKIE !in cookies || cookies[AUTH_COOKIE] == "" || appToken != Some(cookies[AUTH_COOKIE]) {
      return RedirectTo(LOGIN_PATH);
    }
    decision := Next;
  }

  // ----- properties -----

  /** A request is let through exactly when its path is public or its `auth` cookie is the token. */
  lemma DecideMeaning(pathname: string, cookieHeader: Option<string>, appToken: Option<string>)
    ensures Decide(pathname, cookieHeader, appToken) == Next
      <==> pathname in PUBLIC_PATHS || Authorized(Cookies(cookieHeader.GetOr("")), appToken)
    ensures Decide(pathname, cookieHeader, appToken) != Next ==> Decide(pathname, cookieHeader, appToken) == RedirectTo(LOGIN_PATH)
  {
  }

  /** Without `APP_TOKEN`, only the public paths are reachable. */
  lemma NoTokenNoAccess(pathname: string, cookieHeader: Option<string>)
    ensures Decide(pathname, cookieHeader, None) == Next <==> pathname in PUBLIC_PATHS
  {
  }

  /** A private path requested without cookies, or with an empty `Cookie` header, goes to the login page. */
  lemma NoCookieRedirects(pathname: string, appToken: Option<string>)
    requires pathname !in PUBLIC_PATHS
    ensures Decide(pathname, None, appToken) == RedirectTo(LOGIN_PATH)
    ensures Decide(pathname, Some(""), appToken) == RedirectTo(LOGIN_PATH)
  {
  }

  /** The login page itself is always reachable, so a redirect never loops. */
  lemma LoginReachable(cookieHeader: Option<string>, appToken: Option<string>)
    ensures Decide(LOGIN_PATH, cookieHeader, appToken) == Next
  {
  }

  /** A value is everything after the first `=` of the trimmed segment, with any later `=` kept. */
  lemma ParseSegmentAtFirstEquals(segment: string)
    ensures var t := Trim(segment);
      && ParseSegment(segment).name == t[..IndexOf(t, '=')]
      && ParseSegment(segment).value == if '=' in t then t[IndexOf(t, '=') + 1..] else ""
  {
    RestAfterFirst(Trim(segment), '=');
  }

  /** A name is in the cookie object exactly when some segment sets it. */
  lemma {:induction false} AssignHas(cookies: seq<Cookie>, name: string)
    ensures name in Assign(cookies) <==> exists i :: 0 <= i < |cookies| && Sets(cookies[i]) && cookies[i].name == name
    decreases |cookies|
  {
    if cookies != [] {
      var n := |cookies| - 1;
      var init := cookies[..n];
      AssignHas(init, name);
      if exists i :: 0 <= i < n && Sets(init[i]) && init[i].name == name {
        var i :| 0 <= i < n && Sets(init[i]) && init[i].name == name;
        assert init[i] == cookies[i];
      }
      if exists i :: 0 <= i < |cookies| && Sets(cookies[i]) && cookies[i].name == name {
        var i :| 0 <= i < |cookies| && Sets(cookies[i]) && cookies[i].name == name;
        if i < n {
          assert init[i] == cookies[i];
        }
      }
    }
  }

  /** The entry holds the value of the last segment that sets it. */
  lemma {:induction false} AssignLastWins(cookies: seq<Cookie>, i: nat)
    requires i < |cookies| && Sets(cookies[i])
    requires forall j :: i < j < |cookies| ==> !(Sets(cookies[j]) && cookies[j].name == cookies[i].name)
    ensures cookies[i].name in Assign(cookies) && Assign(cookies)[cookies[i].name] == cookies[i].value
    decreases |cookies|
  {
    var n := |cookies| - 1;
    if i < n {
      var init := cookies[..n];
      assert init[i] == cookies[i];
      assert forall j :: i < j < n ==> init[j] == cookies[j];
      AssignLastWins(init, i);
    }
  }

  /** The empty name and the prototype key never become entries. */
  lemma AssignSkips(cookies: seq<Cookie>)
    ensures "" !in Assign(cookies) && PROTO_KEY !in Assign(cookies)
  {
    AssignHas(cookies, "");
    AssignHas(cookies, PROTO_KEY);
  }

  /**
   * The header a client sends after logging in, `auth=<token>`, is read back
   * as the token, `=` signs in the token included.
   */
  lemma AuthCookieRoundTrip(token: string)
    requires token != "" && ';' !in token && !IsSpace(token[|token| - 1])
    ensures Cookies(AUTH_COOKIE + "=" + token) == map[AUTH_COOKIE := token]
  {
    var parsed := Segments(AUTH_COOKIE + "=" + token);
    AuthSegment(token);
    assert parsed[..0] == [];
    assert Sets(Cookie(AUTH_COOKIE, token));
    assert Assign(parsed) == map[][AUTH_COOKIE := token];
  }

  /** `auth=<token>` is the one segment named `auth` with the value `token`. */
  lemma AuthSegment(token: string)
    requires token != "" && ';' !in token && !IsSpace(token[|token| - 1])
    ensures Segments(AUTH_COOKIE + "=" + token) == [Cookie(AUTH_COOKIE, token)]
  {
    var header := AUTH_COOKIE + "=" + token;
    assert ';' !in header by {
      assert header == ['a', 'u', 't', 'h', '='] + token;
    }
    assert Split(header, ';') == [header];
    AuthParse(token);
  }

  lemma AuthParse(token: string)
    requires token != "" && !IsSpace(token[|token| - 1])
    ensures ParseSegment(AUTH_COOKIE + "=" + token) == Cookie(AUTH_COOKIE, token)
  {
    var header := AUTH_COOKIE + "=" + token;
    assert header == ['a', 'u', 't', 'h', '='] + token;
    assert header[|header| - 1] == token[|token| - 1];
    TrimUnspaced(header);
    ParseSegmentAtFirstEquals(header);
    AuthEquals(token);
    assert header[5..] == token && header[..4] == AUTH_COOKIE;
  }

  lemma AuthEquals(token: string)
    ensures IndexOf(AUTH_COOKIE + "=" + token, '=') == 4
  {
    var header := AUTH_COOKIE + "=" + token;
    assert header == ['a', 'u', 't', 'h', '='] + token;
    assert header[4] == '=' && header[0] == 'a' && header[1] == 'u' && header[2] == 't' && header[3] == 'h';
  }

  /** With that cookie and the same token configured, every path is reachable. */
  lemma TokenGivesAccess(pathname: string, token: string)
    requires token != "" && ';' !in token && !IsSpace(token[|token| - 1])
    ensures Decide(pathname, Some(AUTH_COOKIE + "=" + token), Some(token)) == Next
  {
    AuthCookieRoundTrip(token);
  }

  /** The same cookie against a different token sends a private path to the login page. */
  lemma WrongTokenRedirects(pathname: string, token: string, appToken: string)
    requires token != "" && ';' !in token && !IsSpace(token[|token| - 1])
    requires appToken != token && pathname !in PUBLIC_PATHS
    ensures Decide(pathname, Some(AUTH_COOKIE + "=" + token), Some(appToken)) == RedirectTo(LOGIN_PATH)
  {
    AuthCookieRoundTrip(token);
  }
}
