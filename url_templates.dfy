/**
 * Share-URL construction: `Plugin.prototype.generateUrl`, which fills the
 * `{key}` and `{key-ne}` placeholders of a network's URL template, and
 * `Plugin.prototype.cleanUrl`, which removes leftover placeholders and
 * rebuilds the query string from its well-formed `key=value` pairs.
 *
 * The regular expressions of the source are written as the scanners they
 * amount to: `new RegExp('{' + key + '}', 'g')` with a plain key matches the
 * literal text, `/\{([^{}]*)}/g` deletes a brace with no brace before the
 * next `}`, and `/[^=&?]+=[^=&?]+/g` picks out maximal runs around one `=`.
 */
module UrlTemplates {
  import opened Strings
  import opened JsValues
  import opened UriEncoding
  import opened Wrappers

  // ---- literal global replacement ----

  /** `s.replace(new RegExp(pattern, 'g'), replacement)` for a pattern that
      matches itself literally and a replacement without `$` patterns:
      left to right, non-overlapping. */
  function ReplaceAll(s: string, pattern: string, replacement: string): string
    requires |pattern| > 0
    decreases |s|
  {
    if |s| < |pattern| then s
    else if s[..|pattern|] == pattern then replacement + ReplaceAll(s[|pattern|..], pattern, replacement)
    else [s[0]] + ReplaceAll(s[1..], pattern, replacement)
  }

  /** Without an occurrence there is nothing to replace. */
  lemma {:induction false} ReplaceAllAbsent(s: string, pattern: string, replacement: string)
    requires |pattern| > 0 && !Contains(s, pattern)
    ensures ReplaceAll(s, pattern, replacement) == s
    decreases |s|
  {
    if |s| >= |pattern| {
      ReplaceAllAbsent(s[1..], pattern, replacement);
    }
  }

  lemma {:induction false} ReplaceAllNoMatch(s: string, pattern: string, replacement: string)
    requires |pattern| > 0 && |s| > 0
    requires !(|s| >= |pattern| && s[..|pattern|] == pattern)
    ensures ReplaceAll(s, pattern, replacement) == [s[0]] + ReplaceAll(s[1..], pattern, replacement)
  {
  }

  /** Text in which the pattern's first character never occurs is copied. */
  lemma {:induction false} ReplaceAllSkip(a: string, x: string, pattern: string, replacement: string)
    requires |pattern| > 0 && pattern[0] !in a
    ensures ReplaceAll(a + x, pattern, replacement) == a + ReplaceAll(x, pattern, replacement)
    decreases |a|
  {
    if |a| == 0 {
      assert a + x == x;
    } else {
      var s := a + x;
      assert a[0] != pattern[0];
      if |s| >= |pattern| {
        assert s[..|pattern|][0] == a[0];
      }
      ReplaceAllNoMatch(s, pattern, replacement);
      assert ReplaceAll(s, pattern, replacement) == [s[0]] + ReplaceAll(s[1..], pattern, replacement);
      assert s[1..] == a[1..] + x;
      ReplaceAllSkip(a[1..], x, pattern, replacement);
      assert s[0] == a[0];
      assert [a[0]] + (a[1..] + ReplaceAll(x, pattern, replacement))
          == a + ReplaceAll(x, pattern, replacement);
    }
  }

  // ---- generateUrl ----

  predicate NoBraces(s: string)
  {
    '{' !in s && '}' !in s
  }

  /** `'{' + prop + '}'`. */
  function Token(key: string): string
  {
    "{" + key + "}"
  }

  /** `'{' + prop + '-ne}'`. */
  function RawToken(key: string): string
  {
    "{" + key + "-ne}"
  }

  /** One round of the `for..in` loop of `generateUrl`: every `{key}` becomes
      the encoded value, then every `{key-ne}` becomes the value as it is. */
  function SubstituteParam(url: string, key: string, value: Value): string
  {
    var encoded := ReplaceAll(url, Token(key), EncodeUriComponent(ToString(value)));
    ReplaceAll(encoded, RawToken(key), ToString(value))
  }

  /** All rounds, one per property of `opt` in enumeration order. */
  function SubstituteAll(url: string, opt: Fields): string
    decreases |opt|
  {
    if |opt| == 0 then url
    else SubstituteAll(SubstituteParam(url, opt[0].0, opt[0].1), opt[1..])
  }

  /** `generateUrl(url, opt)`: the loop over the properties of `opt`, each
      replacement guarded by `indexOf` as in the source, then `cleanUrl`. */
  method GenerateUrl(url: string, opt: Fields) returns (r: string)
    ensures r == CleanUrl(SubstituteAll(url, opt))
    ensures |opt| == 0 ==> r == CleanUrl(url)
  {
    var current := url;
    var i := 0;
    while i < |opt|
      invariant 0 <= i <= |opt|
      invariant SubstituteAll(current, opt[i..]) == SubstituteAll(url, opt)
    {
      var (prop, value) := opt[i];
      var before := current;
      var arg := Token(prop);
      if Contains(current, arg) {
        current := ReplaceAll(current, arg, EncodeUriComponent(ToString(value)));
      } else {
        ReplaceAllAbsent(current, arg, EncodeUriComponent(ToString(value)));
      }
      var argNe := RawToken(prop);
      var middle := current;
      if Contains(current, argNe) {
        current := ReplaceAll(current, argNe, ToString(value));
      } else {
        ReplaceAllAbsent(current, argNe, ToString(value));
      }
      assert current == SubstituteParam(before, prop, value);
      assert opt[i..][1..] == opt[i + 1..];
      i := i + 1;
    }
    r := CleanUrl(current);
  }

  // ---- cleanUrl ----

  /** Index of the first brace of either kind in `s`, or `|s|`. */
  function BraceIndex(s: string): (i: nat)
    ensures i <= |s|
    ensures forall j | 0 <= j < i :: s[j] != '{' && s[j] != '}'
    ensures i < |s| ==> s[i] == '{' || s[i] == '}'
  {
    if |s| == 0 || s[0] == '{' || s[0] == '}' then 0 else 1 + BraceIndex(s[1..])
  }

  /** `s.replace(/\{([^{}]*)}/g, '')`: a `{` whose next brace is a `}` starts
      a placeholder, which is deleted; scanning resumes after it. */
  function StripTokens(s: string): (r: string)
    ensures |r| <= |s|
    decreases |s|
  {
    if |s| == 0 then ""
    else
      var j := BraceIndex(s[1..]);
      if s[0] == '{' && j < |s| - 1 && s[1 + j] == '}' then StripTokens(s[j + 2..])
      else [s[0]] + StripTokens(s[1..])
  }

  predicate IsSeparator(c: char)
  {
    c == '=' || c == '&' || c == '?'
  }

  predicate NoSeparator(s: string)
  {
    forall j | 0 <= j < |s| :: !IsSeparator(s[j])
  }

  /** Length of the longest prefix of `s` without `=`, `&` or `?`. */
  function Run(s: string): (n: nat)
    ensures n <= |s|
    ensures NoSeparator(s[..n])
    ensures n < |s| ==> IsSeparator(s[n])
  {
    if |s| == 0 || IsSeparator(s[0]) then 0 else 1 + Run(s[1..])
  }

  /** A query pair: a non-empty key, `=`, a non-empty value, and no other
      `=`, `&` or `?`. */
  predicate IsPair(p: string)
  {
    var n := Run(p);
    0 < n < |p| - 1 && p[n] == '=' && NoSeparator(p[n + 1..])
  }

  /** `s.match(/[^=&?]+=[^=&?]+/g)` (an empty list where the source gets
      `null`): at each position the maximal separator-free run must be
      followed by `=` and another non-empty run; otherwise scanning moves
      past the run, or past the separator. Every match is a query pair. */
  function QueryPairs(s: string): (pairs: seq<string>)
    ensures forall k | 0 <= k < |pairs| :: IsPair(pairs[k])
    decreases |s|
  {
    if |s| == 0 then []
    else
      var n := Run(s);
      if n == 0 then QueryPairs(s[1..])
      else if n < |s| && s[n] == '=' && Run(s[n + 1..]) > 0 then
        var m := n + 1 + Run(s[n + 1..]);
        PairAt(s, n, m);
        [s[..m]] + QueryPairs(s[m..])
      else QueryPairs(s[n..])
  }

  lemma {:induction false} PairAt(s: string, n: nat, m: nat)
    requires 0 < n < |s| && n == Run(s) && s[n] == '='
    requires m == n + 1 + Run(s[n + 1..]) && m > n + 1
    ensures IsPair(s[..m])
  {
    var p := s[..m];
    RunPrefix(s, m);
    assert p[n + 1..] == s[n + 1..][..Run(s[n + 1..])];
  }

  /** The run of a prefix that reaches past the run is the same run. */
  lemma {:induction false} RunPrefix(s: string, m: nat)
    requires Run(s) < m <= |s|
    ensures Run(s[..m]) == Run(s)
  {
    if |s| > 0 && !IsSeparator(s[0]) {
      assert s[..m][1..] == s[1..][..m - 1];
      RunPrefix(s[1..], m - 1);
    }
  }

  /** What `cleanUrl` does after deleting placeholders: the text before the
      first `?`, then `?` and the pairs joined by `&` if there is any pair. */
  function RebuildQuery(s: string): string
  {
    var pairs := QueryPairs(s);
    var url := Split(s, '?')[0];
    if |pairs| > 0 then url + "?" + Join(pairs, "&") else url
  }

  /** `cleanUrl(fullUrl)`. */
  function CleanUrl(fullUrl: string): string
  {
    RebuildQuery(StripTokens(fullUrl))
  }

  // ---- properties of cleanUrl ----

  lemma {:induction false} StripSkip(a: string, x: string)
    requires '{' !in a
    ensures StripTokens(a + x) == a + StripTokens(x)
    decreases |a|
  {
    if |a| == 0 {
      assert a + x == x;
    } else {
      var s := a + x;
      assert s[0] == a[0] && s[1..] == a[1..] + x;
      StripSkip(a[1..], x);
      assert [a[0]] + (a[1..] + StripTokens(x)) == a + StripTokens(x);
    }
  }

  /** A string without `{` has no placeholder to delete. */
  lemma {:induction false} StripNoBrace(s: string)
    requires '{' !in s
    ensures StripTokens(s) == s
  {
    StripSkip(s, "");
    assert s + "" == s;
  }

  lemma {:induction false} BraceIndexAfter(a: string, b: string)
    requires NoBraces(a) && |b| > 0 && (b[0] == '{' || b[0] == '}')
    ensures BraceIndex(a + b) == |a|
  {
    var s := a + b;
    var i := BraceIndex(s);
    assert s[|a|] == b[0];
    assert forall j | 0 <= j < |a| :: s[j] == a[j];
  }

  /** A placeholder `{name}` with a brace-free name is deleted. */
  lemma {:induction false} StripPlaceholder(name: string, rest: string)
    requires NoBraces(name)
    ensures StripTokens(Token(name) + rest) == StripTokens(rest)
  {
    var s := Token(name) + rest;
    assert s[1..] == name + ("}" + rest);
    BraceIndexAfter(name, "}" + rest);
    assert s[|name| + 2..] == rest;
  }

  lemma {:induction false} RunAppend(a: string, b: string)
    requires NoSeparator(a) && (|b| == 0 || IsSeparator(b[0]))
    ensures Run(a + b) == |a|
    decreases |a|
  {
    if |a| == 0 {
      assert a + b == b;
    } else {
      assert (a + b)[0] == a[0] && (a + b)[1..] == a[1..] + b;
      RunAppend(a[1..], b);
    }
  }

  lemma {:induction false} PairChars(p: string)
    requires IsPair(p)
    ensures '&' !in p && '?' !in p
  {
    var n := Run(p);
    forall j | 0 <= j < |p|
      ensures p[j] != '&' && p[j] != '?'
    {
      if j < n {
        assert p[j] == p[..n][j];
      } else if j > n {
        assert p[j] == p[n + 1..][j - n - 1];
      }
    }
  }

  /** A pair followed by a separator or the end is matched whole. */
  lemma {:induction false} PairThen(p: string, rest: string)
    requires IsPair(p) && (|rest| == 0 || IsSeparator(rest[0]))
    ensures QueryPairs(p + rest) == [p] + QueryPairs(rest)
  {
    var s := p + rest;
    var n := Run(p);
    PairRuns(p, rest);
    QueryPairsAtPair(s, n, |p|);
    assert s[..|p|] == p && s[|p|..] == rest;
  }

  lemma {:induction false} PairRuns(p: string, rest: string)
    requires IsPair(p) && (|rest| == 0 || IsSeparator(rest[0]))
    ensures var s := p + rest; var n := Run(p);
      Run(s) == n && s[n] == '=' && n + 1 + Run(s[n + 1..]) == |p|
  {
    var n := Run(p);
    KeyRun(p, rest, n);
    ValueRun(p, rest, n);
  }

  lemma {:induction false} KeyRun(p: string, rest: string, n: nat)
    requires n == Run(p) < |p| && p[n] == '='
    ensures Run(p + rest) == n && (p + rest)[n] == '='
  {
    var key := p[..n];
    var tail := p[n..] + rest;
    assert p + rest == key + tail;
    RunAppend(key, tail);
  }

  lemma {:induction false} ValueRun(p: string, rest: string, n: nat)
    requires n < |p| && NoSeparator(p[n + 1..]) && (|rest| == 0 || IsSeparator(rest[0]))
    ensures n + 1 + Run((p + rest)[n + 1..]) == |p|
  {
    var value := p[n + 1..];
    assert (p + rest)[n + 1..] == value + rest;
    RunAppend(value, rest);
  }

  lemma {:induction false} QueryPairsAtPair(s: string, n: nat, m: nat)
    requires 0 < n < |s| && n == Run(s) && s[n] == '='
    requires m == n + 1 + Run(s[n + 1..]) && m > n + 1
    ensures QueryPairs(s) == [s[..m]] + QueryPairs(s[m..])
  {
  }

  /** Text before a separator other than `=` yields no pair. */
  lemma {:induction false} QueryPairsSkip(u: string, rest: string)
    requires NoSeparator(u) && |rest| > 0 && (rest[0] == '&' || rest[0] == '?')
    ensures QueryPairs(u + rest) == QueryPairs(rest[1..])
  {
    var s := u + rest;
    RunAppend(u, rest);
    assert s[|u|..] == rest;
  }

  /** Joining well-formed pairs with `&` and scanning gives the pairs back. */
  lemma {:induction false} QueryPairsJoin(pairs: seq<string>)
    requires forall k | 0 <= k < |pairs| :: IsPair(pairs[k])
    ensures QueryPairs(Join(pairs, "&")) == pairs
  {
    if |pairs| == 1 {
      PairThen(pairs[0], "");
      assert pairs[0] + "" == pairs[0];
    } else if |pairs| > 1 {
      var rest := Join(pairs[1..], "&");
      assert Join(pairs, "&") == pairs[0] + ("&" + rest);
      PairThen(pairs[0], "&" + rest);
      QueryPairsSkip("", "&" + rest);
      assert "" + ("&" + rest) == "&" + rest && ("&" + rest)[1..] == rest;
      QueryPairsJoin(pairs[1..]);
    }
  }

  /** The shape of what `cleanUrl` returns: the text before the first `?`
      of its (placeholder-free) input, and then, when there are pairs, one
      `?` followed by the pairs, which splitting on `&` recovers. */
  lemma {:induction false} RebuildQueryShape(s: string)
    ensures var pairs := QueryPairs(s);
      var url := s[..IndexOfChar(s, '?')];
      var r := RebuildQuery(s);
      && (|pairs| == 0 ==> r == url && '?' !in r)
      && (|pairs| > 0 ==>
            && r == url + "?" + r[|url| + 1..]
            && Split(r, '?') == [url, r[|url| + 1..]]
            && Split(r[|url| + 1..], '&') == pairs)
  {
    var pairs := QueryPairs(s);
    var url := Split(s, '?')[0];
    SplitHead(s, '?');
    if |pairs| > 0 {
      var query := Join(pairs, "&");
      QueryShape(url, pairs);
      assert RebuildQuery(s) == url + "?" + query;
      assert (url + "?" + query)[|url| + 1..] == query;
    }
  }

  /** What `cleanUrl` returns, in terms of its input with the placeholders
      deleted: the text before its first `?`; then, when the pair scan found
      any pair, one `?` and the pairs joined by `&`, each pair a non-empty
      key, `=` and a non-empty value with no `=`, `&` or `?`. With no pair
      the result holds no `?` at all. */
  lemma {:induction false} CleanUrlShape(fullUrl: string)
    ensures var s := StripTokens(fullUrl);
      var pairs := QueryPairs(s);
      var path := s[..IndexOfChar(s, '?')];
      var r := CleanUrl(fullUrl);
      && (forall k | 0 <= k < |pairs| :: IsPair(pairs[k]))
      && (|pairs| == 0 ==> r == path && '?' !in r)
      && (|pairs| > 0 ==> r == path + "?" + Join(pairs, "&") && Split(r, '?') == [path, Join(pairs, "&")])
  {
    var s := StripTokens(fullUrl);
    RebuildQueryShape(s);
    SplitHead(s, '?');
    var pairs := QueryPairs(s);
    if |pairs| > 0 {
      QueryShape(s[..IndexOfChar(s, '?')], pairs);
    }
  }

  lemma {:induction false} QueryShape(url: string, pairs: seq<string>)
    requires '?' !in url && |pairs| > 0
    requires forall k | 0 <= k < |pairs| :: IsPair(pairs[k])
    ensures var query := Join(pairs, "&");
      Split(url + "?" + query, '?') == [url, query] && Split(query, '&') == pairs
  {
    var query := Join(pairs, "&");
    forall k | 0 <= k < |pairs|
      ensures '&' !in pairs[k] && '?' !in pairs[k]
    {
      PairChars(pairs[k]);
    }
    JoinWithout(pairs, '?');
    SplitJoin(pairs, '&');
    SplitJoin([url, query], '?');
    assert Join([url, query], "?") == url + "?" + query;
  }

  lemma {:induction false} JoinWithout(parts: seq<string>, c: char)
    requires c != '&'
    requires forall k | 0 <= k < |parts| :: c !in parts[k]
    ensures c !in Join(parts, "&")
  {
    if |parts| > 1 {
      JoinWithout(parts[1..], c);
    }
  }

  /** A URL already in the form `cleanUrl` produces, with a path free of
      `=`, `&` and `?`, comes out unchanged (the trailing `?` of one with an
      empty query is dropped). */
  lemma {:induction false} CleanUrlIdentity(url: string, pairs: seq<string>)
    requires NoSeparator(url) && '{' !in url
    requires forall k | 0 <= k < |pairs| :: IsPair(pairs[k]) && '{' !in pairs[k]
    ensures CleanUrl(url + "?" + Join(pairs, "&"))
         == if |pairs| > 0 then url + "?" + Join(pairs, "&") else url
  {
    var query := Join(pairs, "&");
    var s := url + "?" + query;
    JoinWithout(pairs, '{');
    StripNoBrace(s);
    PairsOfClean(url, pairs);
    PathOfClean(url, query);
  }

  lemma {:induction false} PairsOfClean(url: string, pairs: seq<string>)
    requires NoSeparator(url)
    requires forall k | 0 <= k < |pairs| :: IsPair(pairs[k])
    ensures QueryPairs(url + "?" + Join(pairs, "&")) == pairs
  {
    var query := Join(pairs, "&");
    assert url + "?" + query == url + ("?" + query);
    QueryPairsSkip(url, "?" + query);
    assert ("?" + query)[1..] == query;
    QueryPairsJoin(pairs);
  }

  lemma {:induction false} PathOfClean(url: string, query: string)
    requires NoSeparator(url)
    ensures Split(url + "?" + query, '?')[0] == url
  {
    var s := url + "?" + query;
    assert s == url + ("?" + query);
    assert '?' !in url by {
      forall j | 0 <= j < |url| ensures url[j] != '?' { }
    }
    IndexAfterNoSep(url, "?" + query, '?');
    SplitHead(s, '?');
    assert s[..|url|] == url;
  }

  // ---- templates as text and placeholders ----

  /** A template read as literal text and `{name}` placeholders. */
  datatype Piece = Text(text: string) | Placeholder(name: string)

  function PieceText(p: Piece): string
  {
    match p
    case Text(t) => t
    case Placeholder(n) => Token(n)
  }

  function Assemble(ps: seq<Piece>): string
  {
    if |ps| == 0 then "" else PieceText(ps[0]) + Assemble(ps[1..])
  }

  /** Literal text holds no `{` and a placeholder's name holds no brace. */
  predicate PlainPiece(p: Piece)
  {
    match p
    case Text(t) => '{' !in t
    case Placeholder(n) => NoBraces(n)
  }

  predicate PlainPieces(ps: seq<Piece>)
  {
    forall i | 0 <= i < |ps| :: PlainPiece(ps[i])
  }

  /** Property names without braces and values whose text has no `{`. */
  predicate PlainParams(opt: Fields)
  {
    forall i | 0 <= i < |opt| :: NoBraces(opt[i].0) && '{' !in ToString(opt[i].1)
  }

  /** What a piece of the template becomes: the first property of `opt`
      whose name is the placeholder's name gives its encoded value, the
      first whose name followed by `-ne` is the placeholder's name gives its
      value as it is, and a placeholder no property names stays. */
  function Resolve(p: Piece, opt: Fields): Piece
    decreases |opt|
  {
    match p
    case Text(_) => p
    case Placeholder(n) =>
      if |opt| == 0 then p
      else if n == opt[0].0 then Text(EncodeUriComponent(ToString(opt[0].1)))
      else if n == opt[0].0 + "-ne" then Text(ToString(opt[0].1))
      else Resolve(p, opt[1..])
  }

  function ResolveAll(ps: seq<Piece>, opt: Fields): (r: seq<Piece>)
    ensures |r| == |ps| && forall i | 0 <= i < |ps| :: r[i] == Resolve(ps[i], opt)
  {
    if |ps| == 0 then [] else [Resolve(ps[0], opt)] + ResolveAll(ps[1..], opt)
  }

  /** The literal text of the pieces, placeholders dropped. */
  function Texts(ps: seq<Piece>): string
  {
    if |ps| == 0 then ""
    else (match ps[0] case Text(t) => t case Placeholder(_) => "") + Texts(ps[1..])
  }

  function ReplacePieces(ps: seq<Piece>, name: string, text: string): (r: seq<Piece>)
    ensures |r| == |ps|
    ensures forall i | 0 <= i < |ps| ::
      r[i] == if ps[i] == Placeholder(name) then Text(text) else ps[i]
  {
    if |ps| == 0 then []
    else [if ps[0] == Placeholder(name) then Text(text) else ps[0]] + ReplacePieces(ps[1..], name, text)
  }

  lemma {:induction false} PlaceholderMismatch(n: string, k: string, rest: string)
    requires NoBraces(n) && NoBraces(k) && n != k
    ensures var s := Token(n) + rest;
      !(|s| >= |Token(k)| && s[..|Token(k)|] == Token(k))
  {
    var s := Token(n) + rest;
    var p := Token(k);
    if |s| >= |p| {
      var j: nat;
      if |n| < |k| {
        j := |n| + 1;
        assert s[j] == '}' && p[j] == k[|n|];
      } else if |n| > |k| {
        j := |k| + 1;
        assert s[j] == n[|k|] && p[j] == '}';
      } else {
        assert exists i :: 0 <= i < |n| && n[i] != k[i];
        var i :| 0 <= i < |n| && n[i] != k[i];
        j := i + 1;
        assert s[j] == n[i] && p[j] == k[i];
      }
      assert s[..|p|][j] != p[j];
    }
  }

  /** Replacing `{k}` at a placeholder: it is replaced exactly when it is
      named `k`. */
  lemma {:induction false} ReplaceAtPlaceholder(n: string, k: string, rest: string, e: string)
    requires NoBraces(n) && NoBraces(k)
    ensures ReplaceAll(Token(n) + rest, Token(k), e)
         == (if n == k then e else Token(n)) + ReplaceAll(rest, Token(k), e)
  {
    var p := Token(k);
    var s := Token(n) + rest;
    if n == k {
      assert s[..|p|] == p && s[|p|..] == rest;
    } else {
      PlaceholderMismatch(n, k, rest);
      ReplaceAllNoMatch(s, p, e);
      assert s[0] == '{' && s[1..] == (n + "}") + rest;
      ReplaceAllSkip(n + "}", rest, p, e);
      assert [s[0]] + ((n + "}") + ReplaceAll(rest, p, e)) == Token(n) + ReplaceAll(rest, p, e);
    }
  }

  /** Replacing `{k}` in an assembled template replaces exactly the
      placeholders named `k`. */
  lemma {:induction false} ReplaceAssembled(ps: seq<Piece>, k: string, e: string)
    requires PlainPieces(ps) && NoBraces(k) && '{' !in e
    ensures ReplaceAll(Assemble(ps), Token(k), e) == Assemble(ReplacePieces(ps, k, e))
  {
    if |ps| > 0 {
      var rest := Assemble(ps[1..]);
      var r := ReplacePieces(ps, k, e);
      ReplaceAssembled(ps[1..], k, e);
      assert PlainPiece(ps[0]);
      assert r[1..] == ReplacePieces(ps[1..], k, e);
      assert Assemble(r) == PieceText(r[0]) + Assemble(r[1..]);
      match ps[0]
      case Text(t) =>
        ReplaceAllSkip(t, rest, Token(k), e);
      case Placeholder(n) =>
        ReplaceAtPlaceholder(n, k, rest, e);
    }
  }

  /** One round of the loop on an assembled template. */
  function StepPieces(ps: seq<Piece>, key: string, value: Value): seq<Piece>
  {
    ReplacePieces(ReplacePieces(ps, key, EncodeUriComponent(ToString(value))), key + "-ne", ToString(value))
  }

  lemma {:induction false} SubstituteParamAssembled(ps: seq<Piece>, key: string, value: Value)
    requires PlainPieces(ps) && NoBraces(key) && '{' !in ToString(value)
    ensures SubstituteParam(Assemble(ps), key, value) == Assemble(StepPieces(ps, key, value))
    ensures PlainPieces(StepPieces(ps, key, value))
  {
    var encoded := EncodeUriComponent(ToString(value));
    EncodedAlphabet(ToString(value));
    assert '{' !in encoded;
    ReplaceAssembled(ps, key, encoded);
    var ps1 := ReplacePieces(ps, key, encoded);
    assert PlainPieces(ps1);
    assert RawToken(key) == Token(key + "-ne");
    ReplaceAssembled(ps1, key + "-ne", ToString(value));
  }

  /** All rounds of the loop on an assembled template resolve every
      placeholder independently, as `Resolve` says. */
  lemma {:induction false} SubstituteAssembled(ps: seq<Piece>, opt: Fields)
    requires PlainPieces(ps) && PlainParams(opt)
    ensures SubstituteAll(Assemble(ps), opt) == Assemble(ResolveAll(ps, opt))
    decreases |opt|
  {
    if |opt| == 0 {
      assert ResolveAll(ps, opt) == ps;
    } else {
      var (key, value) := opt[0];
      var ps' := StepPieces(ps, key, value);
      SubstituteParamAssembled(ps, key, value);
      SubstituteAssembled(ps', opt[1..]);
      forall i | 0 <= i < |ps|
        ensures Resolve(ps'[i], opt[1..]) == Resolve(ps[i], opt)
      {
        if ps[i].Placeholder? {
          assert ps[i].name != key + "-ne" || ps[i].name != key;
        }
      }
      assert ResolveAll(ps', opt[1..]) == ResolveAll(ps, opt);
    }
  }

  lemma {:induction false} ResolvePlain(ps: seq<Piece>, opt: Fields)
    requires PlainPieces(ps) && PlainParams(opt)
    ensures PlainPieces(ResolveAll(ps, opt))
  {
    forall i | 0 <= i < |ps|
      ensures PlainPiece(Resolve(ps[i], opt))
    {
      ResolvePiecePlain(ps[i], opt);
    }
  }

  lemma {:induction false} ResolvePiecePlain(p: Piece, opt: Fields)
    requires PlainPiece(p) && PlainParams(opt)
    ensures PlainPiece(Resolve(p, opt))
    decreases |opt|
  {
    if p.Placeholder? && |opt| > 0 {
      EncodedAlphabet(ToString(opt[0].1));
      ResolvePiecePlain(p, opt[1..]);
    }
  }

  /** Deleting placeholders from an assembled template leaves its text. */
  lemma {:induction false} StripAssembled(ps: seq<Piece>)
    requires PlainPieces(ps)
    ensures StripTokens(Assemble(ps)) == Texts(ps)
  {
    if |ps| > 0 {
      var rest := Assemble(ps[1..]);
      assert PlainPiece(ps[0]);
      StripAssembled(ps[1..]);
      match ps[0]
      case Text(t) => StripSkip(t, rest);
      case Placeholder(n) => StripPlaceholder(n, rest);
    }
  }

  /** `generateUrl` on a template of text and placeholders: every
      placeholder resolved as `Resolve` says, the unresolved ones deleted,
      and the query string of the resulting text rebuilt. */
  lemma {:induction false} GenerateAssembled(ps: seq<Piece>, opt: Fields)
    requires PlainPieces(ps) && PlainParams(opt)
    ensures CleanUrl(SubstituteAll(Assemble(ps), opt)) == RebuildQuery(Texts(ResolveAll(ps, opt)))
  {
    SubstituteAssembled(ps, opt);
    ResolvePlain(ps, opt);
    StripAssembled(ResolveAll(ps, opt));
  }

  // ---- consequences and examples ----

  lemma {:induction false} AssembleCons(p: Piece, ps: seq<Piece>)
    ensures Assemble([p] + ps) == PieceText(p) + Assemble(ps)
    ensures Texts([p] + ps) == (match p case Text(t) => t case Placeholder(_) => "") + Texts(ps)
  {
    assert ([p] + ps)[1..] == ps;
  }

  /** A value put in a `key={key}` query pair comes out encoded, and
      decoding the pair's value gives the original back. */
  lemma {:induction false} EncodedRoundTrip(base: string, key: string, v: string)
    requires NoSeparator(base) && '{' !in base
    requires NoBraces(key) && NoSeparator(key) && |key| > 0 && |v| > 0
    ensures var r := CleanUrl(SubstituteAll(base + "?" + key + "=" + Token(key), [(key, Str(v))]));
      && r == base + "?" + key + "=" + EncodeUriComponent(v)
      && DecodeUriComponent(r[|base| + |key| + 2..]) == Some(v)
  {
    FrontPlain(base, key);
    FilledOnce(base + "?" + key + "=", key, v);
    EncodedClean(base, key, v);
    DecodeEncode(v);
  }

  lemma {:induction false} FrontPlain(base: string, key: string)
    requires '{' !in base && NoBraces(key)
    ensures '{' !in base + "?" + key + "="
  {
  }

  lemma {:induction false} EncodedClean(base: string, key: string, v: string)
    requires NoSeparator(base) && '{' !in base
    requires NoBraces(key) && NoSeparator(key) && |key| > 0 && |v| > 0
    ensures var filled := base + "?" + key + "=" + EncodeUriComponent(v);
      && CleanUrl(filled) == filled
      && filled[|base| + |key| + 2..] == EncodeUriComponent(v)
  {
    var e := EncodeUriComponent(v);
    EncodedPair(key, v);
    CleanUrlIdentity(base, [key + "=" + e]);
    PairSplice(base, key, e);
  }

  /** `base?key=e`, read as a path and one pair. */
  lemma {:induction false} PairSplice(base: string, key: string, e: string)
    ensures base + "?" + Join([key + "=" + e], "&") == base + "?" + key + "=" + e
    ensures (base + "?" + key + "=" + e)[|base| + |key| + 2..] == e
  {
    assert [key + "=" + e][1..] == [];
  }

  lemma {:induction false} EncodedPair(key: string, v: string)
    requires NoBraces(key) && NoSeparator(key) && |key| > 0 && |v| > 0
    ensures IsPair(key + "=" + EncodeUriComponent(v)) && '{' !in key + "=" + EncodeUriComponent(v)
  {
    var e := EncodeUriComponent(v);
    EncodedAlphabet(v);
    var pair := key + "=" + e;
    assert NoSeparator(e);
    assert pair == key + ("=" + e);
    RunAppend(key, "=" + e);
    assert pair[|key| + 1..] == e;
  }

  /** `front{key}` with one string property named `key`, `front` leaving no
      room for a `{key-ne}`: the placeholder becomes the encoded value. */
  lemma {:induction false} FilledOnce(front: string, key: string, v: string)
    requires '{' !in front && NoBraces(key)
    ensures SubstituteAll(front + Token(key), [(key, Str(v))]) == front + EncodeUriComponent(v)
  {
    var e := EncodeUriComponent(v);
    var once := ReplaceAll(front + Token(key), Token(key), e);
    assert once == front + e by {
      FillPieces(front, key, e);
    }
    assert ReplaceAll(once, RawToken(key), v) == once by {
      EncodedAlphabet(v);
      assert '{' !in front + e;
      assert RawToken(key)[0] == '{';
      NotContainsWithoutFirst(front + e, RawToken(key));
      ReplaceAllAbsent(front + e, RawToken(key), v);
    }
    assert SubstituteParam(front + Token(key), key, Str(v)) == front + e;
    assert [(key, Str(v))][1..] == [];
  }

  lemma {:induction false} FillPieces(front: string, key: string, e: string)
    requires '{' !in front && NoBraces(key) && '{' !in e
    ensures ReplaceAll(front + Token(key), Token(key), e) == front + e
  {
    var ps := [Text(front)] + [Placeholder(key)];
    AssembleCons(Text(front), [Placeholder(key)]);
    AssembleCons(Placeholder(key), []);
    assert Assemble(ps) == front + Token(key);
    ReplaceAssembled(ps, key, e);
    var ps' := ReplacePieces(ps, key, e);
    assert ps' == [Text(front)] + [Text(e)];
    AssembleCons(Text(front), [Text(e)]);
    AssembleCons(Text(e), []);
  }

  /** Text without `{` comes out of `cleanUrl` as `RebuildQuery` makes it. */
  lemma {:induction false} CleanUrlPlain(s: string)
    requires '{' !in s
    ensures CleanUrl(s) == RebuildQuery(s)
  {
    StripNoBrace(s);
  }

  /** Rebuilding from known pairs and a known path. */
  lemma {:induction false} RebuildFrom(s: string, url: string, pairs: seq<string>)
    requires '{' !in s && QueryPairs(s) == pairs && Split(s, '?')[0] == url && |pairs| > 0
    ensures CleanUrl(s) == url + "?" + Join(pairs, "&")
  {
    StripNoBrace(s);
  }

  /** A separator other than `=`, or a `=` with no key before it, is skipped. */
  lemma {:induction false} SkipSeparator(s: string)
    requires |s| > 0 && IsSeparator(s[0])
    ensures QueryPairs(s) == QueryPairs(s[1..])
  {
  }

  /** A key whose `=` is followed by no value is skipped with its `=`. */
  lemma {:induction false} SkipEmptyValue(key: string, rest: string)
    requires NoSeparator(key) && |key| > 0 && (|rest| == 0 || IsSeparator(rest[0]))
    ensures QueryPairs(key + "=" + rest) == QueryPairs(rest)
  {
    EmptyValueRuns(key, rest);
    SkipSeparator("=" + rest);
  }

  lemma {:induction false} EmptyValueRuns(key: string, rest: string)
    requires NoSeparator(key) && |key| > 0 && (|rest| == 0 || IsSeparator(rest[0]))
    ensures var s := key + "=" + rest;
      && Run(s) == |key| && s[|key|] == '=' && Run(s[|key| + 1..]) == 0
      && s[|key|..] == "=" + rest && ("=" + rest)[1..] == rest
  {
    var s := key + "=" + rest;
    assert s == key + ("=" + rest);
    RunAppend(key, "=" + rest);
    assert s[|key| + 1..] == rest;
  }

  /** A run with no `=` after it is skipped. */
  lemma {:induction false} SkipRun(t: string, rest: string)
    requires NoSeparator(t) && |t| > 0 && (|rest| == 0 || rest[0] == '&' || rest[0] == '?')
    ensures QueryPairs(t + rest) == QueryPairs(rest)
  {
    RunAppend(t, rest);
    assert (t + rest)[|t|..] == rest;
  }

  /** A trailing `&key=` whose value is empty, as an unfilled placeholder
      leaves it, is dropped, and so is the `&`. */
  lemma {:induction false} TrailingEmptyPairDropped(path: string, pair: string, key: string)
    requires NoSeparator(path) && '{' !in path
    requires IsPair(pair) && '{' !in pair
    requires NoSeparator(key) && |key| > 0 && '{' !in key
    ensures CleanUrl(path + "?" + pair + "&" + key + "=") == path + "?" + pair
  {
    var q := pair + ("&" + key + "=");
    TrailingShapes(path, pair, key);
    TrailingPairs(path, pair, key);
    PathOfClean(path, q);
    QueryPlain(path, q);
    RebuildOne(path + "?" + q, path, pair);
  }

  lemma {:induction false} TrailingShapes(path: string, pair: string, key: string)
    ensures var q := pair + ("&" + key + "=");
      && path + "?" + pair + "&" + key + "=" == path + "?" + q
      && path + "?" + q == path + ("?" + q)
  {
  }

  lemma {:induction false} QueryPlain(path: string, q: string)
    requires '{' !in path && '{' !in q
    ensures '{' !in path + "?" + q
    ensures path + "?" + q == path + ("?" + q)
  {
  }

  /** Rebuilding from a known path and a single pair. */
  lemma {:induction false} RebuildOne(s: string, url: string, pair: string)
    requires '{' !in s && QueryPairs(s) == [pair] && Split(s, '?')[0] == url
    ensures CleanUrl(s) == url + "?" + pair
  {
    RebuildFrom(s, url, [pair]);
    assert [pair][1..] == [];
  }

  lemma {:induction false} TrailingPairs(path: string, pair: string, key: string)
    requires NoSeparator(path) && IsPair(pair) && NoSeparator(key) && |key| > 0
    ensures QueryPairs(path + ("?" + (pair + ("&" + key + "=")))) == [pair]
  {
    var query := pair + ("&" + key + "=");
    QueryPairsSkip(path, "?" + query);
    assert ("?" + query)[1..] == query;
    PairThen(pair, "&" + key + "=");
    EmptyTailDropped(key);
  }

  /** `&key=` alone yields no pair. */
  lemma {:induction false} EmptyTailDropped(key: string)
    requires NoSeparator(key) && |key| > 0
    ensures QueryPairs("&" + key + "=") == []
  {
    var tail := "&" + key + "=";
    SkipSeparator(tail);
    assert tail[1..] == key + "=" + "";
    SkipEmptyValue(key, "");
  }

  /** A template with two placeholders and a property for the first only:
      the first is filled and the second pair disappears. */
  lemma {:induction false} UnfilledPlaceholderDropped(path: string, key: string, key2: string, v: string)
    requires NoSeparator(path) && '{' !in path
    requires NoBraces(key) && NoSeparator(key) && |key| > 0
    requires NoBraces(key2) && NoSeparator(key2) && |key2| > 0
    requires key2 != key && key2 != key + "-ne"
    requires |v| > 0 && '{' !in v
    ensures CleanUrl(SubstituteAll(path + "?" + key + "=" + Token(key) + "&" + key2 + "=" + Token(key2), [(key, Str(v))]))
         == path + "?" + key + "=" + EncodeUriComponent(v)
  {
    var e := EncodeUriComponent(v);
    var front := path + "?" + key + "=";
    var middle := "&" + key2 + "=";
    TwoPlaceholders(front, key, middle, key2, v);
    EncodedPair(key, v);
    TrailingEmptyPairDropped(path, key + "=" + e, key2);
    UnfilledShapes(path, key, key2, Token(key), Token(key2), e);
  }

  lemma {:induction false} UnfilledShapes(path: string, key: string, key2: string, t: string, t2: string, e: string)
    ensures path + "?" + key + "=" + t + "&" + key2 + "=" + t2
         == (path + "?" + key + "=") + t + ("&" + key2 + "=") + t2
    ensures (path + "?" + key + "=") + e + ("&" + key2 + "=")
         == path + "?" + (key + "=" + e) + "&" + key2 + "="
    ensures path + "?" + (key + "=" + e) == path + "?" + key + "=" + e
  {
  }

  lemma {:induction false} TwoPlaceholders(front: string, key: string, middle: string, key2: string, v: string)
    requires '{' !in front && '{' !in middle && NoBraces(key) && NoBraces(key2)
    requires key2 != key && key2 != key + "-ne" && '{' !in v
    ensures CleanUrl(SubstituteAll(front + Token(key) + middle + Token(key2), [(key, Str(v))]))
         == CleanUrl(front + EncodeUriComponent(v) + middle)
  {
    var e := EncodeUriComponent(v);
    var ps := [Text(front), Placeholder(key), Text(middle), Placeholder(key2)];
    var opt := [(key, Str(v))];
    AssembleFour(Text(front), Placeholder(key), Text(middle), Placeholder(key2));
    GenerateAssembled(ps, opt);
    ResolveTwo(front, key, middle, key2, v);
    EncodedAlphabet(v);
    CleanUrlPlain(front + e + middle);
  }

  lemma {:induction false} ResolveTwo(front: string, key: string, middle: string, key2: string, v: string)
    requires key2 != key && key2 != key + "-ne"
    ensures Texts(ResolveAll([Text(front), Placeholder(key), Text(middle), Placeholder(key2)], [(key, Str(v))]))
         == front + EncodeUriComponent(v) + middle
  {
    var e := EncodeUriComponent(v);
    var opt := [(key, Str(v))];
    var rs := ResolveAll([Text(front), Placeholder(key), Text(middle), Placeholder(key2)], opt);
    assert opt[1..] == [];
    assert Resolve(Placeholder(key2), opt) == Resolve(Placeholder(key2), []);
    assert rs == [Text(front), Text(e), Text(middle), Placeholder(key2)];
    TextsFour(front, e, middle, key2);
  }

  lemma {:induction false} AssembleOne(d: Piece)
    ensures Assemble([d]) == PieceText(d)
  {
    AssembleCons(d, []);
    assert [d] == [d] + [];
  }

  lemma {:induction false} AssembleTwo(c: Piece, d: Piece)
    ensures Assemble([c, d]) == PieceText(c) + PieceText(d)
  {
    AssembleOne(d);
    assert [c, d] == [c] + [d];
    AssembleCons(c, [d]);
  }

  lemma {:induction false} AssembleThree(b: Piece, c: Piece, d: Piece)
    ensures Assemble([b, c, d]) == PieceText(b) + (PieceText(c) + PieceText(d))
  {
    AssembleTwo(c, d);
    assert [b, c, d] == [b] + [c, d];
    AssembleCons(b, [c, d]);
  }

  lemma {:induction false} AssembleFour(a: Piece, b: Piece, c: Piece, d: Piece)
    ensures Assemble([a, b, c, d]) == PieceText(a) + PieceText(b) + PieceText(c) + PieceText(d)
  {
    var tb, tc, td := PieceText(b), PieceText(c), PieceText(d);
    AssembleThree(b, c, d);
    assert [a, b, c, d] == [a] + [b, c, d];
    AssembleCons(a, [b, c, d]);
    assert Assemble([a, b, c, d]) == PieceText(a) + (tb + (tc + td));
    assert tb + (tc + td) == tb + tc + td;
  }

  lemma {:induction false} TextsFour(a: string, b: string, c: string, n: string)
    ensures Texts([Text(a), Text(b), Text(c), Placeholder(n)]) == a + b + c
  {
    var ps := [Text(a), Text(b), Text(c), Placeholder(n)];
    assert ps[3..][1..] == [];
    assert Texts(ps[3..]) == "";
    assert ps[2..][1..] == ps[3..];
    assert Texts(ps[2..]) == c;
    assert ps[1..][1..] == ps[2..];
    assert Texts(ps[1..]) == b + c;
  }

  /** A URL with one well-formed pair and a plain path is already clean. */
  lemma {:induction false} CleanSinglePair(path: string, pair: string)
    requires NoSeparator(path) && '{' !in path
    requires IsPair(pair) && '{' !in pair
    ensures CleanUrl(path + "?" + pair) == path + "?" + pair
  {
    CleanUrlIdentity(path, [pair]);
  }

  lemma {:induction false} KeyValuePair(key: string, v: string)
    requires NoSeparator(key) && |key| > 0 && NoSeparator(v) && |v| > 0
    ensures IsPair(key + "=" + v)
  {
    var pair := key + "=" + v;
    assert pair == key + ("=" + v);
    RunAppend(key, "=" + v);
    assert pair[|key| + 1..] == v;
  }

  /** `front{key-ne}` with one string property named `key` becomes
      `front` followed by the value as it is. */
  lemma {:induction false} RawResolved(front: string, key: string, v: string)
    requires '{' !in front && NoBraces(key) && '{' !in v
    ensures SubstituteAll(front + RawToken(key), [(key, Str(v))]) == front + v
  {
    var ps := [Text(front)] + [Placeholder(key + "-ne")];
    var opt := [(key, Str(v))];
    assert Assemble(ps) == front + RawToken(key) by {
      AssembleCons(Text(front), [Placeholder(key + "-ne")]);
      AssembleCons(Placeholder(key + "-ne"), []);
    }
    SubstituteAssembled(ps, opt);
    assert ResolveAll(ps, opt) == [Text(front)] + [Text(v)];
    AssembleCons(Text(front), [Text(v)]);
    AssembleCons(Text(v), []);
  }

  /** `{key-ne}` takes the value as it is. */
  lemma {:induction false} RawFilled(base: string, key: string, v: string)
    requires NoSeparator(base) && '{' !in base
    requires NoBraces(key) && NoSeparator(key) && |key| > 0
    requires NoSeparator(v) && '{' !in v && |v| > 0
    ensures CleanUrl(SubstituteAll(base + "?" + key + "=" + RawToken(key), [(key, Str(v))]))
         == base + "?" + key + "=" + v
  {
    FrontPlain(base, key);
    RawResolved(base + "?" + key + "=", key, v);
    KeyValuePair(key, v);
    PairPlain(key, v);
    CleanSinglePair(base, key + "=" + v);
    Regroup(base, key, v);
  }

  lemma {:induction false} PairPlain(key: string, v: string)
    requires NoBraces(key) && '{' !in v
    ensures '{' !in key + "=" + v
  {
  }

  lemma {:induction false} Regroup(base: string, key: string, v: string)
    ensures base + "?" + key + "=" + v == base + "?" + (key + "=" + v)
  {
  }

  /** A raw value holding `&` splits the query: the part after the `&`,
      having no `=`, is dropped. */
  lemma {:induction false} RawValueCut(base: string, key: string, v1: string, v2: string)
    requires NoSeparator(base) && '{' !in base
    requires NoBraces(key) && NoSeparator(key) && |key| > 0
    requires NoSeparator(v1) && '{' !in v1 && |v1| > 0
    requires NoSeparator(v2) && '{' !in v2
    ensures CleanUrl(SubstituteAll(base + "?" + key + "=" + RawToken(key), [(key, Str(v1 + "&" + v2))]))
         == base + "?" + key + "=" + v1
  {
    FrontPlain(base, key);
    CutPlain(v1, v2);
    RawResolved(base + "?" + key + "=", key, v1 + "&" + v2);
    KeyValuePair(key, v1);
    PairPlain(key, v1);
    CutClean(base, key + "=" + v1, v2);
    RegroupCut(base, key, v1, v2);
    Regroup(base, key, v1);
  }

  lemma {:induction false} CutPlain(v1: string, v2: string)
    requires '{' !in v1 && '{' !in v2
    ensures '{' !in v1 + "&" + v2
  {
  }

  lemma {:induction false} RegroupCut(base: string, key: string, v1: string, v2: string)
    ensures base + "?" + key + "=" + (v1 + "&" + v2) == base + ("?" + ((key + "=" + v1) + ("&" + v2)))
  {
  }

  lemma {:induction false} CutClean(base: string, pair: string, v2: string)
    requires NoSeparator(base) && '{' !in base
    requires IsPair(pair) && '{' !in pair
    requires NoSeparator(v2) && '{' !in v2
    ensures CleanUrl(base + ("?" + (pair + ("&" + v2)))) == base + "?" + pair
  {
    var q := pair + ("&" + v2);
    CutPairs(base, pair, v2);
    PathOfClean(base, q);
    CutPlain(pair, v2);
    QueryPlain(base, q);
    RebuildOne(base + "?" + q, base, pair);
  }

  lemma {:induction false} CutPairs(base: string, pair: string, v2: string)
    requires NoSeparator(base) && IsPair(pair) && NoSeparator(v2)
    ensures QueryPairs(base + ("?" + (pair + ("&" + v2)))) == [pair]
  {
    var tail := "&" + v2;
    var query := pair + tail;
    var rest := "?" + query;
    QueryPairsSkip(base, rest);
    assert rest[1..] == query;
    PairThen(pair, tail);
    LoneRunDropped(v2);
  }

  lemma {:induction false} LoneRunDropped(t: string)
    requires NoSeparator(t)
    ensures QueryPairs("&" + t) == []
  {
    SkipSeparator("&" + t);
    assert ("&" + t)[1..] == t;
    if |t| > 0 {
      SkipRun(t, "");
      assert t + "" == t;
    }
  }

  /** The pair pattern is matched against the whole URL, not only its
      query: an `=` in the path makes the path itself a pair, which then
      appears again in the rebuilt query. */
  lemma {:induction false} PathPairRepeated(path: string, pair: string)
    requires IsPair(path) && '{' !in path
    requires IsPair(pair) && '{' !in pair
    ensures CleanUrl(path + "?" + pair) == path + "?" + path + "&" + pair
  {
    PathPairClean(path, pair);
    assert path + "?" + (path + "&" + pair) == path + "?" + path + "&" + pair;
  }

  lemma {:induction false} PathPairClean(path: string, pair: string)
    requires IsPair(path) && '{' !in path
    requires IsPair(pair) && '{' !in pair
    ensures CleanUrl(path + "?" + pair) == path + "?" + (path + "&" + pair)
  {
    var s := path + "?" + pair;
    PathPairs(path, pair);
    assert s == path + ("?" + pair);
    PairPathHead(path, pair);
    RebuildFrom(s, path, [path, pair]);
    JoinTwo(path, pair);
  }

  lemma {:induction false} JoinTwo(a: string, b: string)
    ensures Join([a, b], "&") == a + "&" + b
  {
    assert [a, b][1..] == [b];
  }

  lemma {:induction false} PathPairs(path: string, pair: string)
    requires IsPair(path) && IsPair(pair)
    ensures QueryPairs(path + ("?" + pair)) == [path, pair]
  {
    var rest := "?" + pair;
    PairThen(path, rest);
    SkipSeparator(rest);
    assert rest[1..] == pair;
    PairThen(pair, "");
    assert pair + "" == pair;
  }

  lemma {:induction false} PairPathHead(path: string, pair: string)
    requires IsPair(path)
    ensures Split(path + "?" + pair, '?')[0] == path
  {
    var s := path + "?" + pair;
    PairChars(path);
    assert s == path + ("?" + pair);
    IndexAfterNoSep(path, "?" + pair, '?');
    SplitHead(s, '?');
    assert s[..|path|] == path;
  }

  // ---- concrete instances ----

  lemma {:induction false} ExampleDanglingPair()
    ensures CleanUrl("http://x/" + "?" + "a=1" + "&" + "b" + "=") == "http://x/" + "?" + "a=1"
  {
    assert IsPair("a=1");
    TrailingEmptyPairDropped("http://x/", "a=1", "b");
  }

  lemma {:induction false} ExampleEncoded()
    ensures CleanUrl(SubstituteAll("http://x/" + "?" + "q" + "=" + Token("q"), [("q", Str("a b"))]))
         == "http://x/" + "?" + "q" + "=" + "a%20b"
  {
    var e := EncodeUriComponent("a b");
    assert e == "a%20b";
    EncodedRoundTrip("http://x/", "q", "a b");
  }

  lemma {:induction false} ExampleUnfilled()
    ensures CleanUrl(SubstituteAll("http://x/" + "?" + "a" + "=" + Token("a") + "&" + "b" + "=" + Token("b"), [("a", Str("1"))]))
         == "http://x/" + "?" + "a" + "=" + "1"
  {
    UnfilledPlaceholderDropped("http://x/", "a", "b", "1");
    assert EncodeUriComponent("1") == "1";
  }

  lemma {:induction false} ExampleRaw()
    ensures CleanUrl(SubstituteAll("http://x/" + "?" + "q" + "=" + RawToken("q"), [("q", Str("a b"))]))
         == "http://x/" + "?" + "q" + "=" + "a b"
  {
    RawFilled("http://x/", "q", "a b");
  }

  lemma {:induction false} ExampleRawCut()
    ensures CleanUrl(SubstituteAll("http://x/" + "?" + "q" + "=" + RawToken("q"), [("q", Str("a" + "&" + "b"))]))
         == "http://x/" + "?" + "q" + "=" + "a"
  {
    RawValueCut("http://x/", "q", "a", "b");
  }

  /** The placeholder pattern is applied in one pass: deleting the inner
      `{a}` of `{{a}}` leaves a `{}` that is not deleted. */
  lemma {:induction false} ExampleNestedBraces()
    ensures CleanUrl("{{a}}") == "{}"
  {
    var s := "{{a}}";
    assert BraceIndex(s[1..]) == 0;
    assert s[1..] == Token("a") + "}";
    StripPlaceholder("a", "}");
    assert StripTokens("}") == "}";
    assert StripTokens(s) == "{}";
    assert QueryPairs("{}") == [] by {
      assert Run("{}") == 2;
    }
  }

  lemma {:induction false} ExamplePathPair()
    ensures var path := "http://x/a" + "=" + "b";
      CleanUrl(path + "?" + "c=d") == path + "?" + path + "&" + "c=d"
  {
    KeyValuePair("http://x/a", "b");
    assert IsPair("c=d");
    PathPairRepeated("http://x/a" + "=" + "b", "c=d");
  }
}
