/** The password gate (src/context/AuthContext.tsx). On mount the app
    scans `document.cookie` for a `todoeat_auth=` cookie; `authenticate`
    compares the password with a constant and, on success, sets that cookie.

    The browser's cookie jar is a sequence of name/value cookies, and
    `document.cookie` reads it as the cookie-string of section 5.4 of
    RFC 6265: `name=value` pairs joined by "; ". The expiry date and path
    are not modelled. */
module Auth {
  import opened Text
  import opened Types
  import opened Collections

  const CorrectPassword: string := "lescarottessontcuites"
  const AuthCookieName: string := "todoeat_auth"

  datatype Cookie = Cookie(name: string, value: string)

  function CookieName(c: Cookie): string { c.name }

  /** A cookie as the jar can hold it: a non-empty name without '=', and no
      ';' or white space in its name or value (the token and cookie-octet
      rules of section 4.1.1 of RFC 6265). */
  predicate WellFormed(c: Cookie) {
    && c.name != []
    && '=' !in c.name
    && (forall i :: 0 <= i < |c.name| ==> c.name[i] != ';' && !IsSpace(c.name[i]))
    && (forall i :: 0 <= i < |c.value| ==> c.value[i] != ';' && !IsSpace(c.value[i]))
  }

  function Pair(c: Cookie): string {
    c.name + "=" + c.value
  }

  /** `document.cookie`. */
  function CookieString(jar: seq<Cookie>): string
    decreases |jar|
  {
    if jar == [] then ""
    else if |jar| == 1 then Pair(jar[0])
    else Pair(jar[0]) + "; " + CookieString(jar[1..])
  }

  /** `cookies.find(c => c.startsWith('todoeat_auth='))` over the trimmed
      `;`-separated pieces. */
  function FindAuthCookie(pieces: seq<string>): Option<string>
    decreases |pieces|
  {
    if pieces == [] then None
    else if StartsWith(Trim(pieces[0]), AuthCookieName + "=") then Some(Trim(pieces[0]))
    else FindAuthCookie(pieces[1..])
  }

  /** The mount check: a found cookie starts with the prefix, so it is a
      non-empty, truthy string. */
  predicate HasAuthCookie(documentCookie: string) {
    FindAuthCookie(Split(documentCookie, ';')).Some?
  }

  lemma {:induction false} FindAuthCookieSpec(pieces: seq<string>)
    ensures FindAuthCookie(pieces).Some? <==>
      exists i :: 0 <= i < |pieces| && StartsWith(Trim(pieces[i]), AuthCookieName + "=")
    decreases |pieces|
  {
    if pieces != [] {
      FindAuthCookieSpec(pieces[1..]);
      assert forall i :: 1 <= i < |pieces| ==> pieces[i] == pieces[1..][i - 1];
    }
  }

  /** A well-formed pair holds no ';'. */
  lemma PairHasNoSeparator(c: Cookie)
    requires WellFormed(c)
    ensures ';' !in Pair(c)
  {
    forall i | 0 <= i < |Pair(c)| ensures Pair(c)[i] != ';' {
      if i < |c.name| {
        assert Pair(c)[i] == c.name[i];
      } else if i > |c.name| {
        assert Pair(c)[i] == c.value[i - |c.name| - 1];
      }
    }
  }

  /** The pieces of a pair followed by "; " and the rest of a
      cookie-string: the pair, then the rest's pieces with a space in front
      of the first. */
  lemma SplitAfterPair(head: string, tail: string)
    requires ';' !in head
    ensures Split(head + "; " + tail, ';') == [head] + [" " + Split(tail, ';')[0]] + Split(tail, ';')[1..]
  {
    assert head + "; " + tail == head + [';'] + (" " + tail);
    SplitJoin(head, ';', " " + tail);
    assert (" " + tail)[1..] == tail;
  }

  lemma PieceBehindSecond(head: string, restPieces: seq<string>, k: int)
    requires 2 <= k <= |restPieces|
    ensures ([head] + [" " + restPieces[0]] + restPieces[1..])[k] == restPieces[k - 1]
  {
  }

  /** The pieces `split(';')` cuts a cookie-string into: the first pair,
      then each further pair behind the space of its "; ". */
  lemma {:induction false} SplitCookieString(jar: seq<Cookie>)
    requires jar != []
    requires forall k :: 0 <= k < |jar| ==> ';' !in Pair(jar[k])
    ensures |Split(CookieString(jar), ';')| == |jar|
    ensures Split(CookieString(jar), ';')[0] == Pair(jar[0])
    ensures forall k :: 1 <= k < |jar| ==> Split(CookieString(jar), ';')[k] == " " + Pair(jar[k])
    decreases |jar|
  {
    if |jar| == 1 {
      SplitNoSeparator(Pair(jar[0]), ';');
    } else {
      var rest := jar[1..];
      SplitCookieString(rest);
      var restPieces := Split(CookieString(rest), ';');
      assert CookieString(jar) == Pair(jar[0]) + "; " + CookieString(rest);
      SplitAfterPair(Pair(jar[0]), CookieString(rest));
      var pieces := [Pair(jar[0])] + [" " + restPieces[0]] + restPieces[1..];
      assert Split(CookieString(jar), ';') == pieces;
      forall k | 1 <= k < |jar| ensures pieces[k] == " " + Pair(jar[k]) {
        assert jar[k] == rest[k - 1];
        if k == 1 {
          assert pieces[1] == " " + restPieces[0];
        } else {
          PieceBehindSecond(Pair(jar[0]), restPieces, k);
        }
      }
    }
  }

  /** A well-formed pair carries no white space at either end. */
  lemma TrimPair(c: Cookie)
    requires WellFormed(c)
    ensures Trim(" " + Pair(c)) == Pair(c) && Trim(Pair(c)) == Pair(c)
  {
    var p := Pair(c);
    assert p[0] == c.name[0];
    assert !IsSpace(p[|p| - 1]) by {
      if c.value == [] {
        assert p[|p| - 1] == '=';
      } else {
        assert p[|p| - 1] == c.value[|c.value| - 1];
      }
    }
    assert (" " + p)[1..] == p;
    assert TrimStart(" " + p) == TrimStart(p);
  }

  /** A well-formed pair starts with `todoeat_auth=` exactly when the
      cookie's name is `todoeat_auth`: the value plays no part. */
  lemma PairHasPrefix(c: Cookie)
    requires WellFormed(c)
    ensures StartsWith(Pair(c), AuthCookieName + "=") <==> c.name == AuthCookieName
  {
    var p := Pair(c);
    var prefix := AuthCookieName + "=";
    if c.name == AuthCookieName {
      assert p[..|prefix|] == prefix;
    }
    if StartsWith(p, prefix) {
      assert p[12] == '=';
      assert forall i :: 0 <= i < |c.name| ==> p[i] == c.name[i];
      assert |c.name| <= 12;
      assert p[|c.name|] == '=';
      assert forall i :: 0 <= i < 12 ==> prefix[i] != '=';
      assert |c.name| == 12;
      assert c.name == p[..12];
    }
  }

  /** On mount the user is authenticated exactly when the jar holds a cookie
      named `todoeat_auth`, whatever its value. */
  lemma AuthenticatedIff(jar: seq<Cookie>)
    requires forall k :: 0 <= k < |jar| ==> WellFormed(jar[k])
    ensures HasAuthCookie(CookieString(jar)) <==> exists k :: 0 <= k < |jar| && jar[k].name == AuthCookieName
  {
    var pieces := Split(CookieString(jar), ';');
    FindAuthCookieSpec(pieces);
    if jar == [] {
      assert pieces == [""];
    } else {
      forall k | 0 <= k < |jar| ensures ';' !in Pair(jar[k]) {
        PairHasNoSeparator(jar[k]);
      }
      SplitCookieString(jar);
      forall k | 0 <= k < |jar|
        ensures StartsWith(Trim(pieces[k]), AuthCookieName + "=") <==> jar[k].name == AuthCookieName
      {
        TrimPair(jar[k]);
        PairHasPrefix(jar[k]);
      }
    }
  }

  /** The cookie name without `=` does not authenticate. */
  lemma BareNameRejected()
    ensures !HasAuthCookie("todoeat_auth")
  {
    var s := "todoeat_auth";
    SplitNoSeparator(s, ';');
    TrimStartSpec(s);
    TrimEndSpec(TrimStart(s));
  }

  /** The auth cookie, with its value, is one the jar can hold. */
  lemma AuthCookieWellFormed(value: string)
    requires forall i :: 0 <= i < |value| ==> value[i] != ';' && !IsSpace(value[i])
    ensures WellFormed(Cookie(AuthCookieName, value))
  {
    var name := AuthCookieName;
    forall i | 0 <= i < |name|
      ensures 'a' <= name[i] <= 'z' || name[i] == '_'
    {
    }
  }

  class AuthState {
    var isAuthenticated: bool
    var showPasswordPrompt: bool
    var jar: seq<Cookie>

    /** Mounting the provider over the browser's cookie jar. */
    constructor(cookies: seq<Cookie>)
      ensures jar == cookies
      ensures isAuthenticated == HasAuthCookie(CookieString(cookies))
      ensures showPasswordPrompt == !HasAuthCookie(CookieString(cookies))
    {
      jar := cookies;
      var found := FindAuthCookie(Split(CookieString(cookies), ';'));
      if found.Some? {
        isAuthenticated := true;
        showPasswordPrompt := false;
      } else {
        isAuthenticated := false;
        showPasswordPrompt := true;
      }
    }

    /** `authenticate`: on success, the user is in, the prompt is hidden and
        the cookie is set (replacing one of the same name, as section 5.3 of
        RFC 6265 does); on failure nothing changes. */
    method Authenticate(password: string) returns (isValid: bool)
      modifies this
      ensures isValid <==> password == CorrectPassword
      ensures isValid ==>
        isAuthenticated && !showPasswordPrompt && jar == Upsert(old(jar), CookieName, Cookie(AuthCookieName, "true"))
      ensures !isValid ==>
        isAuthenticated == old(isAuthenticated) && showPasswordPrompt == old(showPasswordPrompt) && jar == old(jar)
    {
      isValid := password == CorrectPassword;
      if isValid {
        isAuthenticated := true;
        showPasswordPrompt := false;
        jar := Upsert(jar, CookieName, Cookie(AuthCookieName, "true"));
      }
    }
  }

  /** After a successful `authenticate`, the next mount finds the cookie. */
  lemma AuthenticationRemembered(jar: seq<Cookie>)
    requires forall k :: 0 <= k < |jar| ==> WellFormed(jar[k])
    ensures HasAuthCookie(CookieString(Upsert(jar, CookieName, Cookie(AuthCookieName, "true"))))
  {
    var c := Cookie(AuthCookieName, "true");
    AuthCookieWellFormed("true");
    var after := Upsert(jar, CookieName, c);
    UpsertSpec(jar, CookieName, c);
    UpsertMembers(jar, CookieName, c);
    forall k | 0 <= k < |after| ensures WellFormed(after[k]) {
      assert after[k] in after;
    }
    AuthenticatedIff(after);
    var k :| 0 <= k < |after| && after[k] == c;
  }
}
