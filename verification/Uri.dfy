/**
 Recognizing, prefixing and splitting URIs (core/loader.c, core/comp_load.c,
 core/insfile.c, comploader/cl_shell_template), against the grammar of RFC 3986.
 */
module Uri {
  import opened Config
  import Decimal

  // ---------- schemes ----------

  predicate IsAlpha(c: char) { 'a' <= c <= 'z' || 'A' <= c <= 'Z' }

  /** `scheme = ALPHA *( ALPHA / DIGIT / "+" / "-" / "." )`, section 3.1. */
  predicate IsScheme(s: string) {
    && s != "" && IsAlpha(s[0])
    && forall k :: 0 < k < |s| ==> IsAlpha(s[k]) || Decimal.IsDigit(s[k]) || s[k] == '+' || s[k] == '-' || s[k] == '.'
  }

  /** The text starts with a scheme and its colon. */
  predicate HasScheme(uri: string) {
    exists n :: 0 <= n < |uri| && uri[n] == ':' && IsScheme(uri[..n])
  }

  lemma SchemeEndsAtColon(uri: string, n: nat, m: nat)
    requires n < |uri| && uri[n] == ':' && IsScheme(uri[..n])
    requires m < |uri| && uri[m] == ':' && ':' !in uri[..m]
    ensures n == m
  {
    assert forall k :: 0 <= k < n ==> uri[k] == uri[..n][k] && uri[k] != ':';
    assert forall k :: 0 <= k < m ==> uri[k] == uri[..m][k] && uri[k] in uri[..m];
  }

  /** strchr() */
  method FindColon(uri: string) returns (colon: int)
    ensures if ':' in uri then 0 <= colon < |uri| && uri[colon] == ':' && ':' !in uri[..colon] else colon == -1
  {
    colon := 0;
    while colon < |uri|
      invariant 0 <= colon <= |uri| && ':' !in uri[..colon]
    {
      if uri[colon] == ':' {
        return;
      }
      assert uri[..colon + 1] == uri[..colon] + [uri[colon]];
      colon := colon + 1;
    }
    assert uri[..colon] == uri;
    colon := -1;
  }

  /** verify_uri_scheme() accepts exactly the texts that start with a scheme. */
  method VerifyUriScheme(uri: string) returns (r: int)
    ensures r == 0 || r == -1
    ensures r == 0 <==> HasScheme(uri)
  {
    var colon := FindColon(uri);
    if colon == -1 {
      return -1;
    }
    forall n: nat | n < |uri| && uri[n] == ':' && IsScheme(uri[..n]) ensures n == colon {
      SchemeEndsAtColon(uri, n, colon);
    }
    if !IsAlpha(uri[0]) {
      assert colon > 0 ==> uri[..colon][0] == uri[0];
      return -1;
    }
    var ptr := 1;
    while ptr < colon
      invariant 1 <= ptr && (ptr <= colon || ptr == 1) && IsScheme(uri[..ptr])
    {
      if !IsAlpha(uri[ptr]) && !Decimal.IsDigit(uri[ptr]) && uri[ptr] != '+' && uri[ptr] != '-' && uri[ptr] != '.' {
        assert uri[..colon][ptr] == uri[ptr];
        return -1;
      }
      assert forall k :: 0 <= k < ptr ==> uri[..ptr + 1][k] == uri[..ptr][k];
      ptr := ptr + 1;
    }
    assert uri[colon] == ':' && colon > 0 && IsScheme(uri[..colon]);
    return 0;
  }

  // ---------- prefixes ----------

  predicate Quoted(uri: string) { |uri| > 1 && uri[0] == '\'' && uri[|uri| - 1] == '\'' }

  /** What prefix_root() computes. */
  function Prefixed(root: string, uri: string): string {
    if uri == "" then ""
    else if Quoted(uri) then root + uri[1..|uri| - 1]
    else if HasScheme(uri) then uri
    else root + uri
  }

  /** prefix_root(), with its own scan for a scheme. */
  method PrefixRoot(root: string, uri: string) returns (finalUri: string)
    ensures finalUri == Prefixed(root, uri)
  {
    finalUri := "";
    if |uri| == 0 {
      return;
    }
    if |uri| > 1 && uri[0] == '\'' && uri[|uri| - 1] == '\'' {
      finalUri := root + uri[1..];
      finalUri := finalUri[..|finalUri| - 1];
      assert finalUri == root + uri[1..|uri| - 1];
      return;
    }
    finalUri := root + uri;
    var colon := FindColon(uri);
    if colon == -1 {
      return;
    }
    forall n: nat | n < |uri| && uri[n] == ':' && IsScheme(uri[..n]) ensures n == colon {
      SchemeEndsAtColon(uri, n, colon);
    }
    if !IsAlpha(uri[0]) {
      assert colon > 0 ==> uri[..colon][0] == uri[0];
      return;
    }
    var ptr := 1;
    while ptr < colon
      invariant 1 <= ptr && (ptr <= colon || ptr == 1) && IsScheme(uri[..ptr])
    {
      if !IsAlpha(uri[ptr]) && !Decimal.IsDigit(uri[ptr]) && uri[ptr] != '+' && uri[ptr] != '-' && uri[ptr] != '.' {
        assert uri[..colon][ptr] == uri[ptr];
        return;
      }
      assert forall k :: 0 <= k < ptr ==> uri[..ptr + 1][k] == uri[..ptr][k];
      ptr := ptr + 1;
    }
    assert uri[colon] == ':' && colon > 0 && IsScheme(uri[..colon]);
    finalUri := uri;
  }

  /** A non-empty URI without quotes is left alone exactly if it has a scheme (or
      the root is empty). */
  lemma UnchangedIffScheme(root: string, uri: string)
    requires uri != "" && !Quoted(uri)
    ensures Prefixed(root, uri) == uri <==> HasScheme(uri) || root == ""
    ensures !HasScheme(uri) ==> Prefixed(root, uri) == root + uri
  {
    assert root != "" ==> |root + uri| > |uri|;
    assert "" + uri == uri;
  }

  lemma SchemeOfPrefix(a: string, b: string)
    ensures HasScheme(a) ==> HasScheme(a + b) && a[0] != '\''
    ensures HasScheme(a + b) && ':' !in b ==> HasScheme(a)
  {
    if HasScheme(a) {
      var n :| 0 <= n < |a| && a[n] == ':' && IsScheme(a[..n]);
      assert (a + b)[n] == ':' && (a + b)[..n] == a[..n] && a[..n][0] == a[0];
    }
    if HasScheme(a + b) && ':' !in b {
      var n :| 0 <= n < |a + b| && (a + b)[n] == ':' && IsScheme((a + b)[..n]);
      assert forall k :: |a| <= k < |a + b| ==> (a + b)[k] == b[k - |a|] && b[k - |a|] in b;
      assert a[..n] == (a + b)[..n];
    }
  }

  /** Prefixing twice is prefixing once, for every URI, exactly for roots that have
      a scheme. */
  lemma IdempotentIffScheme(root: string)
    ensures (forall uri :: Prefixed(root, Prefixed(root, uri)) == Prefixed(root, uri)) <==> HasScheme(root)
  {
    if HasScheme(root) {
      forall uri ensures Prefixed(root, Prefixed(root, uri)) == Prefixed(root, uri) {
        PrefixedHasScheme(root, uri);
      }
    } else if root == "" {
      var uri := "''x''";
      assert Prefixed("", uri) == "'x'" && Prefixed("", "'x'") == "x";
    } else {
      SchemeOfPrefix(root, "/");
      assert Prefixed(root, "/") == root + "/" by {
        SchemeOfPrefix("", "/");
        assert "" + "/" == "/";
      }
      assert Prefixed(root, root + "/") == root + (root + "/");
    }
  }

  lemma PrefixedHasScheme(root: string, uri: string)
    requires HasScheme(root)
    ensures Prefixed(root, uri) == "" || (HasScheme(Prefixed(root, uri)) && !Quoted(Prefixed(root, uri)))
  {
    SchemeOfPrefix(root, uri);
    SchemeOfPrefix(uri, "");
    if Quoted(uri) {
      SchemeOfPrefix(root, uri[1..|uri| - 1]);
    }
  }

  // ---------- the path of an insfile ----------

  /** Everything up to the last slash, or all of it. */
  function UriPath(uri: string): (path: string)
    ensures path <= uri
    ensures '/' !in uri ==> path == uri
    ensures '/' in uri ==> path != "" && path[|path| - 1] == '/' && '/' !in uri[|path|..]
  {
    PathLengthIs(uri, |uri|);
    if '/' in uri then uri[..PathLength(uri, |uri|)] else uri
  }

  /** One more than the index of the last slash among the first `n` characters. */
  function PathLength(uri: string, n: nat): (len: nat)
    requires n <= |uri|
    ensures len <= n
  {
    if n == 0 || uri[n - 1] == '/' then n else PathLength(uri, n - 1)
  }

  lemma {:induction false} PathLengthIs(uri: string, n: nat)
    requires n <= |uri|
    ensures var len := PathLength(uri, n);
            (len > 0 ==> uri[len - 1] == '/') && '/' !in uri[len..n]
  {
    if n > 0 && uri[n - 1] != '/' {
      PathLengthIs(uri, n - 1);
      var len := PathLength(uri, n - 1);
      assert uri[len..n] == uri[len..n - 1] + [uri[n - 1]];
    }
  }

  /** get_uri_path() */
  method GetUriPath(uri: string) returns (path: string)
    ensures path == UriPath(uri)
  {
    var copylen := |uri|;
    var i := |uri| - 1;
    while i >= 0
      invariant -1 <= i < |uri| && copylen == |uri| && '/' !in uri[i + 1..]
    {
      if uri[i] == '/' {
        copylen := i + 1;
        break;
      }
      assert uri[i..] == [uri[i]] + uri[i + 1..];
      i := i - 1;
    }
    path := uri[..copylen];
    LastSlash(uri, path);
  }

  lemma LastSlash(uri: string, path: string)
    requires path <= uri && if '/' in uri then path != "" && path[|path| - 1] == '/' && '/' !in uri[|path|..]
                            else path == uri
    ensures path == UriPath(uri)
  {
    var q := UriPath(uri);
    if '/' in uri {
      assert forall k :: |q| <= k < |uri| ==> uri[k] == uri[|q|..][k - |q|] && uri[k] in uri[|q|..];
      assert forall k :: |path| <= k < |uri| ==> uri[k] == uri[|path|..][k - |path|] && uri[k] in uri[|path|..];
      assert uri[|q| - 1] == '/' && uri[|path| - 1] == '/';
      assert |q| == |path|;
      assert q == uri[..|q|] && path == uri[..|path|];
    }
  }

  /** The path of a URI and the rest of it give the URI back exactly if the rest is
      a plain relative name. */
  lemma PathAndRest(uri: string)
    ensures var path := UriPath(uri);
            var rest := uri[|path|..];
            Prefixed(path, rest) == uri <==> uri == "" || (rest != "" && !Quoted(rest) && !HasScheme(rest))
  {
    var path := UriPath(uri);
    var rest := uri[|path|..];
    assert path + rest == uri;
  }

  // ---------- splitting ----------

  /** The longest prefix of characters outside a set. */
  function Until(stops: string, s: string): (n: nat)
    ensures n <= |s| && (n < |s| ==> s[n] in stops) && forall k :: 0 <= k < n ==> s[k] !in stops
  {
    if s == "" || s[0] in stops then 0 else 1 + Until(stops, s[1..])
  }

  lemma UntilIs(stops: string, s: string, n: nat)
    requires n <= |s| && (n < |s| ==> s[n] in stops) && forall k :: 0 <= k < n ==> s[k] !in stops
    ensures Until(stops, s) == n
  {
    assert Until(stops, s) < |s| ==> s[Until(stops, s)] in stops;
  }

  // The regular expressions of the script, as the length they match at the start.

  /** `^(([^:/?#]+):)?` */
  function SchemeRe(s: string): (n: nat)
    ensures n <= |s|
  {
    var n := Until(":/?#", s);
    if 0 < n < |s| && s[n] == ':' then n + 1 else 0
  }

  /** `^([^:/?#]+)` */
  function NameRe(s: string): (n: nat)
    ensures n <= |s|
  {
    Until(":/?#", s)
  }

  /** `^(//([^/?#]*))?` */
  function AuthorityRe(s: string): (n: nat)
    ensures n <= |s|
  {
    if |s| >= 2 && s[0] == '/' && s[1] == '/' then 2 + Until("/?#", s[2..]) else 0
  }

  /** `^([^?#]*)` */
  function PathRe(s: string): (n: nat)
    ensures n <= |s|
  {
    Until("?#", s)
  }

  /** `^(\?([^#]*))?` */
  function QueryRe(s: string): (n: nat)
    ensures n <= |s|
  {
    if s != "" && s[0] == '?' then 1 + Until("#", s[1..]) else 0
  }

  /** `^(#(.*))` */
  function FragmentRe(s: string): (n: nat)
    ensures n <= |s|
  {
    if s != "" && s[0] == '#' then |s| else 0
  }

  function Extract(re: string -> nat, s: string): string
    requires re(s) <= |s|
  {
    s[..re(s)]
  }

  function Remains(re: string -> nat, s: string): string
    requires re(s) <= |s|
  {
    s[re(s)..]
  }

  /** `cut -c n-` */
  function Cut(n: nat, s: string): string
    requires n > 0
  {
    if n - 1 <= |s| then s[n - 1..] else ""
  }

  /** The components of a URI reference; scheme, authority, query and fragment may
      be undefined (section 5.3). */
  datatype Components = Components(
    scheme: Option<string>, authority: Option<string>, path: string, query: Option<string>, fragment: Option<string>)

  function SchemeText(o: Option<string>): string { if o.Some? then o.value + ":" else "" }
  function AuthorityText(o: Option<string>): string { if o.Some? then "//" + o.value else "" }
  function QueryText(o: Option<string>): string { if o.Some? then "?" + o.value else "" }
  function FragmentText(o: Option<string>): string { if o.Some? then "#" + o.value else "" }

  /** Component recomposition, section 5.3. */
  function Recompose(c: Components): string {
    SchemeText(c.scheme) + (AuthorityText(c.authority) + (c.path + (QueryText(c.query) + FragmentText(c.fragment))))
  }

  predicate Avoids(stops: string, s: string) { forall k :: 0 <= k < |s| ==> s[k] !in stops }

  /** The components a reference can be made of: no component contains the start of
      a later one, and none is taken for an earlier one. */
  predicate WellFormed(c: Components) {
    && (c.scheme.Some? ==> c.scheme.value != "" && Avoids(":/?#", c.scheme.value))
    && (c.authority.Some? ==> Avoids("/?#", c.authority.value) && (c.path == "" || c.path[0] == '/'))
    && (c.authority.None? ==> AuthorityRe(c.path) == 0)
    && Avoids("?#", c.path)
    && (c.scheme.None? && c.authority.None? ==> SchemeRe(c.path) == 0)
    && (c.query.Some? ==> Avoids("#", c.query.value))
  }

  function SchemeIn(s: string): Option<string> { if SchemeRe(s) > 0 then Some(s[..SchemeRe(s) - 1]) else None }
  function AuthorityIn(s: string): Option<string> { if AuthorityRe(s) > 0 then Some(s[2..AuthorityRe(s)]) else None }
  function QueryIn(s: string): Option<string> { if QueryRe(s) > 0 then Some(s[1..QueryRe(s)]) else None }
  function FragmentIn(s: string): Option<string> { if FragmentRe(s) > 0 then Some(s[1..]) else None }

  /** Splitting by the regular expression of Appendix B, part by part. */
  function Split(uri: string): Components {
    var r1 := Remains(SchemeRe, uri);
    var r2 := Remains(AuthorityRe, r1);
    var r3 := Remains(PathRe, r2);
    Components(SchemeIn(uri), AuthorityIn(r1), Extract(PathRe, r2), QueryIn(r3), FragmentIn(Remains(QueryRe, r3)))
  }

  lemma SchemePart(s: string)
    ensures SchemeText(SchemeIn(s)) + Remains(SchemeRe, s) == s
    ensures SchemeIn(s).Some? ==> SchemeIn(s).value != "" && Avoids(":/?#", SchemeIn(s).value)
    ensures SchemeIn(s).None? ==> Remains(SchemeRe, s) == s
  {
    var n := SchemeRe(s);
    if n > 0 {
      assert s[..n - 1] + ":" == s[..n];
      assert s[..n] + s[n..] == s;
    }
  }

  lemma AuthorityPart(s: string)
    ensures AuthorityText(AuthorityIn(s)) + Remains(AuthorityRe, s) == s
    ensures AuthorityIn(s).Some? ==> Avoids("/?#", AuthorityIn(s).value)
    ensures AuthorityIn(s).Some? ==> Remains(AuthorityRe, s) == "" || Remains(AuthorityRe, s)[0] in "/?#"
    ensures AuthorityIn(s).None? ==> Remains(AuthorityRe, s) == s && AuthorityRe(s) == 0
  {
    var n := AuthorityRe(s);
    if n > 0 {
      assert "//" + s[2..n] == s[..n];
      assert s[..n] + s[n..] == s;
      assert s[2..n] == s[2..][..n - 2];
      assert n < |s| ==> s[n..][0] == s[2..][n - 2];
    }
  }

  lemma PathPart(s: string)
    ensures Extract(PathRe, s) + Remains(PathRe, s) == s
    ensures Avoids("?#", Extract(PathRe, s))
    ensures Remains(PathRe, s) == "" || Remains(PathRe, s)[0] in "?#"
  {
  }

  lemma QueryPart(s: string)
    requires s == "" || s[0] in "?#"
    ensures QueryText(QueryIn(s)) + Remains(QueryRe, s) == s
    ensures QueryIn(s).Some? ==> Avoids("#", QueryIn(s).value)
    ensures Remains(QueryRe, s) == "" || Remains(QueryRe, s)[0] == '#'
  {
    var n := QueryRe(s);
    if n > 0 {
      assert "?" + s[1..n] == s[..n];
      assert s[..n] + s[n..] == s;
      assert s[1..n] == s[1..][..n - 1];
      assert n < |s| ==> s[n..][0] == s[1..][n - 1];
    }
  }

  lemma FragmentPart(s: string)
    requires s == "" || s[0] == '#'
    ensures FragmentText(FragmentIn(s)) == s
  {
    assert s != "" ==> "#" + s[1..] == s;
  }

  lemma Joined(a: string, r1: string, b: string, r2: string, p: string, r3: string, q: string, f: string, s: string)
    requires a + r1 == s && b + r2 == r1 && p + r3 == r2 && q + f == r3
    ensures a + (b + (p + (q + f))) == s
  {
  }

  /** The steps of the script consume any reference completely, and before the last
      step what is left is empty or starts with `#`. */
  lemma SplitRecompose(uri: string)
    ensures Recompose(Split(uri)) == uri
    ensures var left := Remains(QueryRe, Remains(PathRe, Remains(AuthorityRe, Remains(SchemeRe, uri))));
            left == "" || left[0] == '#'
  {
    var r1 := Remains(SchemeRe, uri);
    var r2 := Remains(AuthorityRe, r1);
    var r3 := Remains(PathRe, r2);
    var r4 := Remains(QueryRe, r3);
    SchemePart(uri);
    AuthorityPart(r1);
    PathPart(r2);
    QueryPart(r3);
    FragmentPart(r4);
    var c := Split(uri);
    Joined(SchemeText(c.scheme), r1, AuthorityText(c.authority), r2, c.path, r3,
           QueryText(c.query), FragmentText(c.fragment), uri);
  }

  lemma SplitWellFormed(uri: string)
    ensures WellFormed(Split(uri))
  {
    var r1 := Remains(SchemeRe, uri);
    var r2 := Remains(AuthorityRe, r1);
    var r3 := Remains(PathRe, r2);
    var c := Split(uri);
    SchemePart(uri);
    AuthorityPart(r1);
    PathPart(r2);
    QueryPart(r3);
    PathFits(c, r2);
  }

  lemma PathFits(c: Components, s: string)
    requires c.path == Extract(PathRe, s)
    requires if c.authority.Some? then s == "" || s[0] in "/?#" else AuthorityRe(s) == 0
    requires c.scheme.None? && c.authority.None? ==> SchemeRe(s) == 0
    ensures c.authority.Some? ==> c.path == "" || c.path[0] == '/'
    ensures c.authority.None? ==> AuthorityRe(c.path) == 0
    ensures c.scheme.None? && c.authority.None? ==> SchemeRe(c.path) == 0
  {
    if c.authority.None? {
      NoAuthorityInPath(s);
      if c.scheme.None? {
        NoSchemeInPath(s);
      }
    }
  }

  lemma NoAuthorityInPath(s: string)
    requires AuthorityRe(s) == 0
    ensures AuthorityRe(Extract(PathRe, s)) == 0
  {
    var p := Extract(PathRe, s);
    assert |p| >= 2 ==> p[0] == s[0] && p[1] == s[1];
  }

  lemma NoSchemeInPath(s: string)
    requires SchemeRe(s) == 0
    ensures SchemeRe(Extract(PathRe, s)) == 0
  {
    var p := Extract(PathRe, s);
    var n := Until(":/?#", p);
    if n < |p| {
      assert forall k :: 0 <= k < n ==> s[k] == p[k];
      UntilIs(":/?#", s, n);
    }
  }

  // ---------- back ----------

  lemma UntilEnd(stops: string, a: string, b: string)
    requires Avoids(stops, a) && (b == "" || b[0] in stops)
    ensures Until(stops, a + b) == |a|
  {
    UntilIs(stops, a + b, |a|);
  }

  lemma SchemeBack(o: Option<string>, rest: string)
    requires if o.Some? then o.value != "" && Avoids(":/?#", o.value) else SchemeRe(rest) == 0
    ensures SchemeIn(SchemeText(o) + rest) == o && Remains(SchemeRe, SchemeText(o) + rest) == rest
  {
    var s := SchemeText(o) + rest;
    if o.Some? {
      assert s == o.value + (":" + rest);
      UntilEnd(":/?#", o.value, ":" + rest);
      assert SchemeRe(s) == |o.value| + 1 && s[..|o.value|] == o.value;
    } else {
      assert s == rest;
    }
  }

  lemma AuthorityBack(o: Option<string>, rest: string)
    requires if o.Some? then Avoids("/?#", o.value) && (rest == "" || rest[0] in "/?#") else AuthorityRe(rest) == 0
    ensures AuthorityIn(AuthorityText(o) + rest) == o && Remains(AuthorityRe, AuthorityText(o) + rest) == rest
  {
    var s := AuthorityText(o) + rest;
    if o.Some? {
      assert s[2..] == o.value + rest;
      UntilEnd("/?#", o.value, rest);
      assert s[2..AuthorityRe(s)] == o.value;
    } else {
      assert s == rest;
    }
  }

  lemma PathBack(p: string, rest: string)
    requires Avoids("?#", p) && (rest == "" || rest[0] in "?#")
    ensures Extract(PathRe, p + rest) == p && Remains(PathRe, p + rest) == rest
  {
    UntilEnd("?#", p, rest);
  }

  lemma QueryBack(o: Option<string>, rest: string)
    requires (o.Some? ==> Avoids("#", o.value)) && (rest == "" || rest[0] == '#')
    ensures QueryIn(QueryText(o) + rest) == o && Remains(QueryRe, QueryText(o) + rest) == rest
  {
    var s := QueryText(o) + rest;
    if o.Some? {
      assert s[1..] == o.value + rest;
      UntilEnd("#", o.value, rest);
      assert s[1..QueryRe(s)] == o.value;
    } else {
      assert s == rest;
    }
  }

  lemma FragmentBack(o: Option<string>)
    ensures FragmentIn(FragmentText(o)) == o
  {
  }

  /** The text after the authority does not look like a scheme or an authority. */
  lemma PathFollows(c: Components, rest: string)
    requires WellFormed(c) && (rest == "" || rest[0] in "?#")
    ensures c.authority.None? ==> AuthorityRe(c.path + rest) == 0
    ensures c.authority.None? && c.scheme.None? ==> SchemeRe(c.path + rest) == 0
    ensures c.authority.Some? ==> c.path + rest == "" || (c.path + rest)[0] in "/?#"
  {
    var s := c.path + rest;
    assert c.path != "" ==> s[0] == c.path[0];
    assert |c.path| > 1 ==> s[1] == c.path[1];
    assert |c.path| == 1 && rest != "" ==> s[1] == rest[0];
    if c.authority.None? && c.scheme.None? {
      var n := Until(":/?#", c.path);
      assert forall k :: 0 <= k < |c.path| ==> s[k] == c.path[k];
      assert |c.path| < |s| ==> s[|c.path|] == rest[0];
      UntilIs(":/?#", s, n);
    }
  }

  /** Recomposition and splitting are inverse to each other on well-formed
      components. */
  lemma RecomposeSplit(c: Components)
    requires WellFormed(c)
    ensures Split(Recompose(c)) == c
  {
    var f := FragmentText(c.fragment);
    var q := QueryText(c.query) + f;
    var p := c.path + q;
    var a := AuthorityText(c.authority) + p;
    PathFollows(c, q);
    NoSchemeBefore(c.authority, p);
    SchemeBack(c.scheme, a);
    AuthorityBack(c.authority, p);
    PathBack(c.path, q);
    QueryBack(c.query, f);
    FragmentBack(c.fragment);
  }

  lemma NoSchemeBefore(o: Option<string>, rest: string)
    ensures o.Some? ==> SchemeRe(AuthorityText(o) + rest) == 0
    ensures o.None? ==> AuthorityText(o) + rest == rest
  {
    if o.Some? {
      var s := AuthorityText(o) + rest;
      assert s[0] == '/';
    }
  }

  // ---------- the script ----------

  /** The five shell variables. */
  datatype Variables = Variables(scheme: string, authority: string, path: string, query: string, fragment: string)

  function OrEmpty(o: Option<string>): string { if o.Some? then o.value else "" }

  function ToShell(c: Components): Variables {
    Variables(OrEmpty(c.scheme), OrEmpty(c.authority), c.path, OrEmpty(c.query), OrEmpty(c.fragment))
  }

  lemma CutScheme(s: string)
    ensures Extract(NameRe, Extract(SchemeRe, s)) == OrEmpty(SchemeIn(s))
  {
    var n := SchemeRe(s);
    if n > 0 {
      assert s[..n] == s[..n - 1] + ":";
      UntilEnd(":/?#", s[..n - 1], ":");
    }
  }

  lemma CutAuthority(s: string)
    ensures Cut(3, Extract(AuthorityRe, s)) == OrEmpty(AuthorityIn(s))
  {
  }

  lemma CutQuery(s: string)
    ensures Cut(2, Extract(QueryRe, s)) == OrEmpty(QueryIn(s))
  {
  }

  lemma CutFragment(s: string)
    ensures Cut(2, Extract(FragmentRe, s)) == OrEmpty(FragmentIn(s))
  {
  }

  /** The script for one reference without line ends. */
  method SplitUri(uri: string) returns (r: Variables)
    requires '\n' !in uri
    ensures r == ToShell(Split(uri))
  {
    CutScheme(uri);
    var scheme := Extract(NameRe, Extract(SchemeRe, uri));
    var remains := Remains(SchemeRe, uri);
    var authority := Cut(3, Extract(AuthorityRe, remains));
    CutAuthority(remains);
    remains := Remains(AuthorityRe, remains);
    var path := Extract(PathRe, remains);
    remains := Remains(PathRe, remains);
    var query := Cut(2, Extract(QueryRe, remains));
    CutQuery(remains);
    remains := Remains(QueryRe, remains);
    var fragment := Cut(2, Extract(FragmentRe, remains));
    CutFragment(remains);
    r := Variables(scheme, authority, path, query, fragment);
  }

  function NonEmpty(s: string): Option<string> { if s == "" then None else Some(s) }

  /** Putting the shell variables together again. */
  function Rejoin(r: Variables): string {
    Recompose(Components(NonEmpty(r.scheme), NonEmpty(r.authority), r.path, NonEmpty(r.query), NonEmpty(r.fragment)))
  }

  /** The script loses the difference between an empty and an undefined component:
      its variables determine the reference exactly if no component is empty. */
  lemma RejoinExact(uri: string)
    ensures var c := Split(uri);
            Rejoin(ToShell(c)) == uri <==> c.authority != Some("") && c.query != Some("") && c.fragment != Some("")
  {
    var c := Split(uri);
    SplitRecompose(uri);
    NoEmptyScheme(uri);
    RejoinDropped(c);
    DropShortens(c);
    DropsNothing(c);
  }

  lemma NoEmptyScheme(uri: string)
    ensures Split(uri).scheme != Some("")
  {
    SplitWellFormed(uri);
  }

  lemma DropsNothing(c: Components)
    requires c.scheme != Some("")
    ensures DropEmpty(c) == c <==> c.authority != Some("") && c.query != Some("") && c.fragment != Some("")
  {
    KeptLength(c.scheme);
    KeptLength(c.authority);
    KeptLength(c.query);
    KeptLength(c.fragment);
  }

  /** The components that can be told from the shell variables. */
  function DropEmpty(c: Components): Components {
    Components(Kept(c.scheme), Kept(c.authority), c.path, Kept(c.query), Kept(c.fragment))
  }

  function Kept(o: Option<string>): Option<string> { NonEmpty(OrEmpty(o)) }

  lemma RejoinDropped(c: Components)
    ensures Rejoin(ToShell(c)) == Recompose(DropEmpty(c))
  {
  }

  lemma KeptLength(o: Option<string>)
    ensures Kept(o) == if o == Some("") then None else o
  {
  }

  lemma DropShortens(c: Components)
    requires c.scheme != Some("")
    ensures Recompose(DropEmpty(c)) == Recompose(c) <==> DropEmpty(c) == c
  {
    var d := DropEmpty(c);
    KeptLength(c.scheme);
    KeptLength(c.authority);
    KeptLength(c.query);
    KeptLength(c.fragment);
    if d != c {
      RecomposeLength(c);
      RecomposeLength(d);
    }
  }

  lemma RecomposeLength(c: Components)
    ensures |Recompose(c)| == |SchemeText(c.scheme)| + |AuthorityText(c.authority)| + |c.path|
                              + |QueryText(c.query)| + |FragmentText(c.fragment)|
  {
  }
}
