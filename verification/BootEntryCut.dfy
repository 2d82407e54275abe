/**
 The controller may read a printed boot entry only in part. What the scanner makes of
 such a part: the closing brace is missing, and nothing can stand for it unless the
 cut is in the bracket of a URI.
 */
module BootEntryCut {
  import opened Config
  import Decimal
  import opened ConfigLanguage
  import opened ScannerState
  import opened BootEntryScanner
  import opened ConfigGrammar
  import opened BootEntryText
  import opened BootEntryRoundTrip

  /** No token is a closing brace. */
  predicate Open(ts: seq<Token>) { Punct('}') !in ts }

  lemma OpenConcat(a: seq<Token>, b: seq<Token>)
    requires Open(a) && Open(b)
    ensures Open(a + b)
  {
  }

  // ---------- texts without a closing brace ----------

  /** A brace token comes from that character. */
  ghost predicate BraceFromChar(initial: string -> Match) {
    forall s :: s != [] && initial(s).token == Some(Punct('}')) ==> s[0] == '}'
  }

  lemma RuleBrace(r: Rule, s: string)
    requires s != []
    ensures RuleMatch(r, s).token == Some(Punct('}')) ==> s[0] == '}'
  {
  }

  lemma FlexBrace()
    ensures BraceFromChar(InitialMatch)
  {
    forall s: string | s != [] && InitialMatch(s).token == Some(Punct('}')) ensures s[0] == '}' {
      RuleBrace(Pick(RULES, s), s);
    }
  }

  lemma ModeBrace(initial: string -> Match, mode: Mode, s: string)
    requires BraceFromChar(initial) && s != [] && '}' !in s
    ensures Open(TokenOf(NextMatch(initial, mode, s)))
  {
    assert s[0] in s;
  }

  /** No file that can be included contains a closing brace. */
  ghost predicate Braceless(files: Files) {
    forall ts, uri :: files(ts, uri).Some? ==> '}' !in files(ts, uri).value
  }

  /** A text without a closing brace, and without an include statement or with harmless
      files. */
  lemma {:induction false} NoBraceNoToken(w: World, mode: Mode, s: string)
    requires BraceFromChar(w.initial) && '}' !in s && ('\n' !in s || Braceless(w.files))
    ensures Open(Scan(w, mode, s).tokens)
    decreases w.room, |s|, if EndsLine(mode) then 1 else 0
  {
    if s != [] && Progress(mode, s, NextMatch(w.initial, mode, s)) {
      var m := NextMatch(w.initial, mode, s);
      if FileAt(w, mode, s).Some? {
        FileNeedsLine(mode, s);
        NoBraceInFile(w, mode, s, m);
      } else {
        ModeBrace(w.initial, mode, s);
        NoBraceNoToken(w.Saw(TokenOf(m)), m.mode, s[m.consumed..]);
      }
    }
  }

  lemma FileNeedsLine(mode: Mode, s: string)
    requires IncludeUri(mode, s).Some?
    ensures '\n' in s
  {
    assert s[Run(IsNotNewline, s)] in s;
  }

  lemma {:induction false} NoBraceInFile(w: World, mode: Mode, s: string, m: Match)
    requires BraceFromChar(w.initial) && '}' !in s && Braceless(w.files)
    requires s != [] && m == NextMatch(w.initial, mode, s) && Progress(mode, s, m) && FileAt(w, mode, s).Some?
    ensures Open(Scan(w, mode, s).tokens)
    decreases w.room, |s|, 0
  {
    var inner := Scan(w.Below(), Initial, FileAt(w, mode, s).value);
    NoBraceNoToken(w.Below(), Initial, FileAt(w, mode, s).value);
    NoBraceNoToken(w.Saw(inner.tokens), inner.mode, s[m.consumed..]);
  }

  /** Without a line end the scanner delivers no string, only a bracket. */
  lemma {:induction false} NoNewlineNoString(w: World, mode: Mode, s: string)
    requires (mode.StrMode? || mode.UriRestMode?) && '\n' !in s
    ensures forall t :: t in Scan(w, mode, s).tokens ==> t.UriBracket?
    decreases |s|
  {
    if s != [] {
      RunToEnd(s);
      RunToEnd(s[1..]);
      var m := NextMatch(w.initial, mode, s);
      if m.consumed <= |s| {
        NoNewlineNoString(w.Saw(TokenOf(m)), m.mode, s[m.consumed..]);
      }
    }
  }

  lemma RunToEnd(s: string)
    requires '\n' !in s
    ensures Run(IsNotNewline, s) == |s|
  {
    assert forall k :: 0 <= k < |s| ==> s[k] in s;
  }

  // ---------- an open bracket ----------

  /** The first complete line of an open bracket, without opening parentheses in front
      of it, and what follows it. */
  function FirstLine(x: string): Option<(string, string)> {
    if x == "" then None
    else if x[0] == '(' then FirstLine(x[1..])
    else
      var n := 1 + Run(IsNotNewline, x[1..]);
      if n < |x| then Some((x[..n], x[n + 1..])) else None
  }

  lemma OneCharacter(w: World, x: string)
    requires x != "" && NextMatch(w.initial, UriRestMode, x) == Match(None, UriRestMode, 1)
    ensures Yields(w, UriRestMode, x, [], UriRestMode, x[1..])
  {
    ScanStep(w, UriRestMode, x, Match(None, UriRestMode, 1), x[1..]);
  }

  lemma RunNotClosing(x: string)
    requires ')' !in x
    ensures Run(IsNotClosing, x) == |x|
  {
    assert x[..|x|] == x && forall k :: 0 <= k < |x| ==> x[k] in x;
    RunIs(IsNotClosing, x, |x|);
  }

  lemma {:induction false} NothingInside(w: World, x: string)
    requires ')' !in x && '\n' !in x
    ensures Scan(w, UriRestMode, x) == Lexed([], UriRestMode)
    decreases |x|
  {
    if x != "" {
      RunNotClosing(x[1..]);
      RunToEnd(x[1..]);
      OneCharacter(w, x);
      NothingInside(w, x[1..]);
      NoTokens(w, Scan(w, UriRestMode, x[1..]));
    }
  }

  lemma LineInside(w: World, x: string, line: string, rest: string)
    requires line != "" && line[0] != '(' && All(IsNotNewline, line[1..]) && x == line + "\n" + rest
    requires SkipsNewline(w.initial, rest)
    ensures Yields(w, UriRestMode, x, [Str(line)], Initial, rest)
  {
    RestMatch(w.initial, line, rest);
    ScanStep(w, UriRestMode, x, Match(Some(Str(line)), Initial, |line|), "\n" + rest);
    ThenNewline(w, UriRestMode, x, [Str(line)], rest);
  }

  lemma LineOf(x: string, n: nat)
    requires x != "" && n == 1 + Run(IsNotNewline, x[1..]) < |x|
    ensures All(IsNotNewline, x[..n][1..]) && x == x[..n] + "\n" + x[n + 1..]
  {
    assert x[n] == x[1..][n - 1] == '\n';
    assert x[..n][1..] == x[1..][..n - 1];
  }

  lemma NoLineInside(w: World, x: string)
    requires x != "" && x[0] != '(' && ')' !in x && 1 + Run(IsNotNewline, x[1..]) == |x|
    ensures Scan(w, UriRestMode, x) == Lexed([], UriRestMode)
  {
    var tail := x[1..];
    assert tail[..|tail|] == tail;
    NoNewlineIn(tail);
    OneCharacter(w, x);
    NothingInside(w, tail);
    NoTokens(w, Scan(w, UriRestMode, tail));
  }

  /** A bracket that is not closed is skipped, and its first complete line is taken for
      the rest of the URI. */
  lemma {:induction false} ScanUnclosed(w: World, x: string)
    requires Flexes(w) && ')' !in x
    ensures match FirstLine(x)
            case Some((line, rest)) => Yields(w, UriRestMode, x, [Str(line)], Initial, rest)
            case None => Scan(w, UriRestMode, x) == Lexed([], UriRestMode)
    decreases |x|
  {
    if x != "" {
      if x[0] == '(' {
        RunNotClosing(x[1..]);
        OneCharacter(w, x);
        ScanUnclosed(w, x[1..]);
        NoTokens(w, Scan(w, UriRestMode, x[1..]));
      } else if 1 + Run(IsNotNewline, x[1..]) < |x| {
        var n := 1 + Run(IsNotNewline, x[1..]);
        LineOf(x, n);
        FlexNewline(x[n + 1..]);
        LineInside(w, x, x[..n], x[n + 1..]);
      } else {
        NoLineInside(w, x);
      }
    }
  }

  /** A text up to its first complete line. */
  function Front(x: string): string
    requires FirstLine(x).Some?
  {
    BehindIsEnd(x);
    x[..|x| - |FirstLine(x).value.1|]
  }

  lemma {:induction false} BehindIsEnd(x: string)
    requires FirstLine(x).Some?
    ensures var b := FirstLine(x).value.1; |b| <= |x| && x[|x| - |b|..] == b
    decreases |x|
  {
    if x[0] == '(' {
      BehindIsEnd(x[1..]);
    }
  }

  lemma {:induction false} FrontThen(x: string, b: string)
    requires FirstLine(x).Some?
    ensures FirstLine(Front(x) + b) == Some((FirstLine(x).value.0, b))
    decreases |x|
  {
    var s := Front(x) + b;
    if x[0] == '(' {
      FrontThen(x[1..], b);
      BehindIsEnd(x);
      BehindIsEnd(x[1..]);
      assert s[0] == x[0] && s[1..] == Front(x[1..]) + b;
    } else {
      var n := 1 + Run(IsNotNewline, x[1..]);
      assert s == x[..n + 1] + b;
      assert s[1..][..n - 1] == x[1..][..n - 1] && s[1..][n - 1] == x[1..][n - 1];
      RunIs(IsNotNewline, s[1..], n - 1);
      assert s[..n] == x[..n] && s[n + 1..] == b;
    }
  }

  lemma FrontAndBehind(x: string)
    requires FirstLine(x).Some?
    ensures Front(x) + FirstLine(x).value.1 == x
  {
    BehindIsEnd(x);
  }

  /** Cutting behind the first line leaves it as it is. */
  lemma FirstLineCut(x: string, q: string)
    requires q <= x && FirstLine(q).Some?
    ensures FirstLine(x).Some? && FirstLine(x).value.0 == FirstLine(q).value.0
            && FirstLine(q).value.1 <= FirstLine(x).value.1
    ensures Front(x) == Front(q) && q == Front(x) + FirstLine(q).value.1
  {
    var b, t := FirstLine(q).value.1, x[|q|..];
    FrontAndBehind(q);
    assert x == Front(q) + (b + t);
    FrontThen(q, b + t);
    FrontAndBehind(x);
  }

  // ---------- a line that is cut ----------

  predicate HasBracket(v: string) { UriText(v) && v[UriStartLen(v)..][0] == '(' }

  /** What stands between the parentheses. */
  function Bracket(v: string): string
    requires HasBracket(v)
  {
    var r := v[UriStartLen(v)..];
    r[1..BracketLen(r) - 1]
  }

  lemma BracketSplits(v: string)
    requires HasBracket(v)
    ensures ')' !in Bracket(v)
    ensures var n, r := UriStartLen(v), v[UriStartLen(v)..];
            v == v[..n] + ("(" + (Bracket(v) + (")" + r[BracketLen(r)..]))) && |Bracket(v)| == BracketLen(r) - 2
  {
    var r := v[UriStartLen(v)..];
    var n := Run(IsNotClosing, r[1..]);
    assert Bracket(v) == r[1..][..n] && r[n + 1] == r[1..][n] == ')';
    assert r == "(" + (Bracket(v) + (")" + r[n + 2..]));
  }

  /** A keyword and a URI, whatever follows its scheme. */
  lemma ScanToRest(w: World, word: Word, v: string)
    requires Flexes(w) && WithUri(word) in WORDS && UriStartLen(v) > 0
    ensures var n := UriStartLen(v);
            Yields(w, Initial, word + (" " + v), [Keyword(word)] + [UriStart(v[..n])], UriRestMode, v[n..])
  {
    var s, n := word + (" " + v), UriStartLen(v);
    MatchWithUri(word, v);
    assert s[|word|..] == " " + v;
    ScanKeyword(w, s, word, UriMode, |word|, " " + v);
    ScanUriStart(w.Saw([Keyword(word)]), v);
    Chain(w, Initial, s, [Keyword(word)], UriMode, " " + v, [UriStart(v[..n])], UriRestMode, v[n..]);
  }

  /** A line that is cut in the bracket of its URI. */
  lemma ScanInside(w: World, word: Word, start: string, q: string)
    requires Flexes(w) && WithUri(word) in WORDS && UriStartLen(start) == |start| > 0 && ')' !in q
    ensures var ts := [Keyword(word)] + [UriStart(start)];
            var s := word + (" " + (start + ("(" + q)));
            match FirstLine(q)
            case Some((line, rest)) => Yields(w, Initial, s, ts + [Str(line)], Initial, rest)
            case None => Scan(w, Initial, s) == Lexed(ts, UriRestMode)
  {
    var v, ts := start + ("(" + q), [Keyword(word)] + [UriStart(start)];
    UriStartKept(start, "(" + q);
    ScanToRest(w, word, v);
    assert v[..|start|] == start && v[|start|..] == "(" + q && ("(" + q)[1..] == q;
    ScanUnclosed(w.Saw(ts), "(" + q);
    if FirstLine(q).Some? {
      var (line, rest) := FirstLine(q).value;
      Chain(w, Initial, word + (" " + v), ts, UriRestMode, "(" + q, [Str(line)], Initial, rest);
    } else {
      assert ts + [] == ts;
    }
  }

  lemma PrefixNoNewline(r: string, p: string)
    requires '\n' !in r && p <= r
    ensures '\n' !in p
  {
    assert forall c :: c in p ==> c in r;
  }

  lemma NoNewlineIn(r: string)
    requires All(IsNotNewline, r)
    ensures '\n' !in r
  {
    forall c | c in r ensures c != '\n' {
      var k :| 0 <= k < |r| && r[k] == c;
    }
  }

  lemma PlainRestOpen(w: World, r: string, p: string)
    requires UriRest(r) && r[0] != '(' && p <= r
    ensures Open(Scan(w, UriRestMode, p).tokens)
  {
    if p != "" {
      NoNewlineIn(r[1..]);
      assert p[1..] <= r[1..];
      PrefixNoNewline(r[1..], p[1..]);
      RunToEnd(p[1..]);
      OneCharacter(w, p);
      NoNewlineNoString(w.Saw([]), UriRestMode, p[1..]);
    }
  }

  lemma ClosedMatch(initial: string -> Match, r: string, p: string)
    requires UriRest(r) && r[0] == '(' && p <= r && |p| >= BracketLen(r)
    ensures var b := BracketLen(r); NextMatch(initial, UriRestMode, p) == Match(Some(UriBracket(p[..b])), StrMode, b)
    ensures '\n' !in p[BracketLen(r)..]
  {
    var n := BracketLen(r) - 2;
    assert p[1..][..n] == r[1..][..n] && p[1..][n] == r[1..][n];
    RunIs(IsNotClosing, p[1..], n);
    assert p[n + 2..] <= r[n + 2..];
    NoNewlineIn(r[n + 2..]);
    PrefixNoNewline(r[n + 2..], p[n + 2..]);
  }

  lemma ClosedRestOpen(w: World, r: string, p: string)
    requires UriRest(r) && r[0] == '(' && p <= r && |p| >= BracketLen(r)
    ensures Open(Scan(w, UriRestMode, p).tokens)
  {
    var b := BracketLen(r);
    var t := UriBracket(p[..b]);
    ClosedMatch(w.initial, r, p);
    ScanStep(w, UriRestMode, p, Match(Some(t), StrMode, b), p[b..]);
    NoNewlineNoString(w.Saw([t]), StrMode, p[b..]);
    OpenConcat([t], Scan(w.Saw([t]), StrMode, p[b..]).tokens);
  }

  lemma CutRest(w: World, r: string, p: string)
    requires UriRest(r) && p <= r && (r[0] == '(' ==> p == "" || |p| >= BracketLen(r))
    ensures Open(Scan(w, UriRestMode, p).tokens)
  {
    if p != "" {
      if r[0] == '(' {
        ClosedRestOpen(w, r, p);
      } else {
        PlainRestOpen(w, r, p);
      }
    }
  }

  /** A keyword with a string behind it, up to the string. */
  lemma ToString(w: World, word: Word, v: string)
    requires Flexes(w) && WithBlank(word) in WORDS && word != "timeout" && word != "userinterface"
    requires v != "" && !IsBlank(v[0]) && (WithUri(word) in WORDS ==> UriStartLen(v) == 0)
    ensures Yields(w, Initial, word + (" " + v), [Keyword(word)], StrMode, v)
  {
    var s := word + (" " + v);
    MatchWithBlank(word, v);
    assert s[|word| + 1..] == v;
    ScanKeyword(w, s, word, StrMode, |word| + 1, v);
  }

  /** A keyword with the beginning of a string behind it. */
  lemma CutString(w: World, word: Word, v: string)
    requires Flexes(w) && WithBlank(word) in WORDS && word != "timeout" && word != "userinterface"
    requires v != "" && !IsBlank(v[0]) && '\n' !in v && (WithUri(word) in WORDS ==> UriStartLen(v) == 0)
    ensures Open(Scan(w, Initial, word + (" " + v)).tokens)
  {
    ToString(w, word, v);
    NoNewlineNoString(w.Saw([Keyword(word)]), StrMode, v);
    OpenConcat([Keyword(word)], Scan(w.Saw([Keyword(word)]), StrMode, v).tokens);
  }

  /** Characters that do not occur in words and schemes. */
  predicate Special(c: char) { c == '}' || c == '\n' }

  predicate HasSpecial(s: string) { '}' in s || '\n' in s }

  lemma UriStartOfPrefix(v: string, u: string)
    requires u <= v
    ensures UriStartLen(u) > 0 ==> UriStartLen(v) == UriStartLen(u)
    ensures UriStartLen(v) > 0 && HasSpecial(u) ==> UriStartLen(u) > 0
  {
    if UriStartLen(u) > 0 {
      UriStartKept(u, v[|u|..]);
      assert u + v[|u|..] == v;
    }
    if UriStartLen(v) > 0 {
      var n := UriStartLen(v);
      StartHasNoSpecial(v);
      if n <= |u| {
        UriStartAlone(v);
        UriStartKept(v[..n], u[n..]);
        assert v[..n] + u[n..] == u;
      } else {
        assert u == v[..n][..|u|];
        assert forall c :: c in u ==> c in v[..n];
      }
    }
  }

  lemma StartHasNoSpecial(v: string)
    requires UriStartLen(v) > 0
    ensures !HasSpecial(v[..UriStartLen(v)])
  {
    var id := IdLen(v);
    assert v[..id + 3] == v[..id] + v[id..id + 3];
  }

  lemma WordHasNoSpecial(w: Word)
    ensures !HasSpecial(w)
  {
    forall c | c in w ensures !Special(c) {
      assert IsWordChar(c);
    }
  }

  lemma ShortCut(w: Word, v: string, p: string)
    requires p <= w + (" " + v) && HasSpecial(p)
    ensures |p| > |w| + 1 && p[|w| + 1..] <= v && HasSpecial(p[|w| + 1..]) && p == w + (" " + p[|w| + 1..])
  {
    var s := w + (" " + v);
    WordHasNoSpecial(w);
    assert forall k :: 0 <= k < |p| ==> p[k] == s[k];
    assert forall k :: 0 <= k < |w| ==> s[k] == w[k] && w[k] in w && !Special(w[k]);
    assert s[|w| + 1..] == v && !Special(s[|w|]);
    var k :| 0 <= k < |p| && Special(p[k]);
    assert k > |w|;
    assert p[|w| + 1..] == v[..|p| - |w| - 1];
    assert p[|w| + 1..][k - |w| - 1] == p[k];
  }

  /** Where the bracket of a printed URI begins. */
  function BracketPlace(f: Field): nat { |f.word| + UriStartLen(f.value) + 2 }

  /** The cut is in the bracket of a URI. */
  predicate CutInside(f: Field, p: string) {
    && HasBracket(f.value) && !ArgumentOf(f.word).AString?
    && BracketPlace(f) <= |p| <= BracketPlace(f) + |Bracket(f.value)|
  }

  lemma LineAtBracket(w: string, start: string, x: string, rest: string)
    ensures w + (" " + (start + ("(" + (x + rest)))) == w + (" " + (start + "(")) + (x + rest)
    ensures |w + (" " + (start + "("))| == |w| + |start| + 2
  {
  }

  lemma InsideText(f: Field, p: string)
    requires CutInside(f, p) && p <= f.word + (" " + f.value)
    ensures var q := p[BracketPlace(f)..];
            && q <= Bracket(f.value) && ')' !in q
            && p == f.word + (" " + (f.value[..UriStartLen(f.value)] + ("(" + q)))
  {
    var v, n := f.value, UriStartLen(f.value);
    var x, tail := Bracket(v), ")" + v[n..][BracketLen(v[n..])..];
    BracketSplits(v);
    LineAtBracket(f.word, v[..n], x, tail);
    CutPlace(f.word + (" " + (v[..n] + "(")), x + tail, p);
    var q := p[BracketPlace(f)..];
    assert q == x[..|q|];
    assert forall c :: c in q ==> c in x;
    LineAtBracket(f.word, v[..n], q, "");
    assert q + "" == q;
  }

  /** Everywhere else a line that is cut has no closing brace for the scanner. */
  lemma CutOutside(w: World, f: Field, p: string)
    requires Flexes(w) && Fits(f) && f.value != "" && p <= f.word + (" " + f.value) && !CutInside(f, p)
    ensures Open(Scan(w, Initial, p).tokens)
  {
    FlexBrace();
    if !HasSpecial(p) {
      NoBraceNoToken(w, Initial, p);
    } else {
      ShortCut(f.word, f.value, p);
      var u := p[|f.word| + 1..];
      UriStartOfPrefix(f.value, u);
      assert u[0] == f.value[0];
      CutValue(w, WORDS, f.word, ArgumentOf(f.word), f.value, u);
    }
  }

  lemma CutValue(w: World, words: seq<Rule>, word: Word, a: Argument, v: string, u: string)
    requires Flexes(w) && words == WORDS && FitsArgument(words, word, a, v) && u <= v && u != "" && u[0] == v[0]
    requires UriStartLen(u) > 0 ==> UriStartLen(v) == UriStartLen(u)
    requires UriStartLen(v) > 0 ==> UriStartLen(u) > 0
    requires HasBracket(v) && !a.AString? ==> |u| <= UriStartLen(v) || |u| >= UriStartLen(v) + |Bracket(v)| + 2
    ensures Open(Scan(w, Initial, word + (" " + u)).tokens)
  {
    ByArgument(words, word, a, v);
    if UriText(v) && !a.AString? {
      var n := UriStartLen(v);
      var ts := [Keyword(word)] + [UriStart(u[..n])];
      CutRest(w.Saw(ts), v[n..], u[n..]) by {
        if HasBracket(v) {
          BracketSplits(v);
        }
      }
      ScanToRest(w, word, u);
      OpenConcat(ts, Scan(w.Saw(ts), UriRestMode, u[n..]).tokens);
    } else {
      NoNewlineIn(v);
      PrefixNoNewline(v, u);
      CutString(w, word, u);
    }
  }

  // ---------- a text that is cut ----------

  lemma LineOpen(f: Field)
    ensures Open(LineTokens(f))
  {
    TokensOpen(f.word, ArgumentOf(f.word), f.value);
  }

  lemma TokensOpen(w: Word, a: Argument, v: string)
    ensures Open(TokensFor(w, a, v))
  {
  }

  /** A cut behind the line end of a text, or in front of it. */
  lemma CutPlace(a: string, b: string, p: string)
    requires p <= a + b
    ensures if |p| >= |a| then p == a + p[|a|..] && p[|a|..] <= b else p <= a
  {
    assert forall k :: 0 <= k < |p| ==> p[k] == (a + b)[k];
    if |p| >= |a| {
      assert p[..|a|] == a && p == p[..|a|] + p[|a|..];
      assert p[|a|..] == b[..|p| - |a|];
    } else {
      assert p == a[..|p|];
    }
  }

  /** The text is cut in the bracket of line `k`, behind a complete line. */
  predicate CutAt(fs: seq<Field>, k: nat, p: string)
    requires k < |fs|
  {
    var a := |Lines(fs[..k])|;
    && a <= |p| && p[..a] == Lines(fs[..k]) && p[a..] <= fs[k].word + (" " + fs[k].value)
    && CutInside(fs[k], p[a..]) && FirstLine(p[a..][BracketPlace(fs[k])..]).Some?
  }

  lemma LineWithoutEnd(f: Field, p: string)
    requires p <= Line(f) && |p| < |Line(f)|
    ensures f.value != "" && p <= f.word + (" " + f.value)
  {
    var s := f.word + (" " + f.value);
    assert Line(f) == s + "\n";
    assert p == s[..|p|];
  }

  lemma CutFirst(w: World, fs: seq<Field>, p: string) returns (k: nat)
    requires Flexes(w) && fs != [] && Fits(fs[0]) && p <= Line(fs[0]) && |p| < |Line(fs[0])|
    ensures Open(Scan(w, Initial, p).tokens) || (k < |fs| && CutAt(fs, k, p))
  {
    k := 0;
    LineWithoutEnd(fs[0], p);
    if CutInside(fs[0], p) {
      var q, start := p[BracketPlace(fs[0])..], fs[0].value[..UriStartLen(fs[0].value)];
      InsideText(fs[0], p);
      if FirstLine(q).None? {
        UriStartAlone(fs[0].value);
        ByArgument(WORDS, fs[0].word, ArgumentOf(fs[0].word), fs[0].value);
        ScanInside(w, fs[0].word, start, q);
      } else {
        assert fs[..0] == [] && p[0..] == p;
      }
    } else {
      CutOutside(w, fs[0], p);
    }
  }

  lemma LinesAfter(fs: seq<Field>, k: nat)
    requires fs != [] && k < |fs[1..]|
    ensures Lines(fs[..k + 1]) == Line(fs[0]) + Lines(fs[1..][..k]) && fs[1..][k] == fs[k + 1]
  {
    assert fs[..k + 1][1..] == fs[1..][..k] && fs[..k + 1][0] == fs[0];
  }

  lemma CutParts(a: string, b: string, p: string)
    requires |a| <= |p| && p == a + p[|a|..] && |b| <= |p[|a|..]| && p[|a|..][..|b|] == b
    ensures |a + b| <= |p| && p[..|a + b|] == a + b && p[|a + b|..] == p[|a|..][|b|..]
  {
    assert p[..|a + b|] == p[..|a|] + p[|a|..][..|b|];
  }

  lemma CutLater(fs: seq<Field>, k: nat, p: string)
    requires fs != [] && |Line(fs[0])| <= |p| && p == Line(fs[0]) + p[|Line(fs[0])|..]
    requires k < |fs[1..]| && CutAt(fs[1..], k, p[|Line(fs[0])|..])
    ensures CutAt(fs, k + 1, p)
  {
    LinesAfter(fs, k);
    CutParts(Line(fs[0]), Lines(fs[1..][..k]), p);
  }

  lemma CutAfter(w: World, fs: seq<Field>, j: nat, p: string)
    requires Flexes(w) && fs != [] && Fits(fs[0])
    requires |Line(fs[0])| <= |p| && p == Line(fs[0]) + p[|Line(fs[0])|..]
    requires Open(Scan(w.Saw(LineTokens(fs[0])), Initial, p[|Line(fs[0])|..]).tokens)
          || (j < |fs[1..]| && CutAt(fs[1..], j, p[|Line(fs[0])|..]))
    ensures Open(Scan(w, Initial, p).tokens) || (j + 1 < |fs| && CutAt(fs, j + 1, p))
  {
    var tail, ts := p[|Line(fs[0])|..], LineTokens(fs[0]);
    if Open(Scan(w.Saw(ts), Initial, tail).tokens) {
      ScanLine(w, fs[0], tail);
      LineOpen(fs[0]);
      OpenConcat(ts, Scan(w.Saw(ts), Initial, tail).tokens);
    } else {
      CutLater(fs, j, p);
    }
  }

  /** Of a text that is cut either no closing brace is left, or the cut is in a bracket,
      behind a line end. */
  lemma {:induction false} CutLines(w: World, fs: seq<Field>, p: string) returns (k: nat)
    requires Flexes(w) && AllFit(fs) && p <= Lines(fs)
    ensures Open(Scan(w, Initial, p).tokens) || (k < |fs| && CutAt(fs, k, p))
    decreases |fs|
  {
    k := 0;
    if fs == [] {
      assert p == "";
    } else {
      var f, rest := fs[0], fs[1..];
      assert f in fs && forall g :: g in rest ==> g in fs;
      CutPlace(Line(f), Lines(rest), p);
      if |p| >= |Line(f)| {
        var j := CutLines(w.Saw(LineTokens(f)), rest, p[|Line(f)|..]);
        CutAfter(w, fs, j, p);
        k := j + 1;
      } else {
        k := CutFirst(w, fs, p);
      }
    }
  }

  lemma LinesConcat(a: seq<Field>, b: seq<Field>)
    ensures Lines(a + b) == Lines(a) + Lines(b)
    decreases |a|
  {
    if a == [] {
      assert a + b == b;
    } else {
      assert (a + b)[1..] == a[1..] + b;
      LinesConcat(a[1..], b);
      Assoc2(Line(a[0]), Lines(a[1..]), Lines(b));
    }
  }

  lemma {:induction false} LinesOpen(fs: seq<Field>)
    ensures Open(LinesTokens(fs))
    decreases |fs|
  {
    if fs != [] {
      LineOpen(fs[0]);
      LinesOpen(fs[1..]);
      OpenConcat(LineTokens(fs[0]), LinesTokens(fs[1..]));
    }
  }

  lemma CutAction(w: World, word: Word, q: string)
    requires Flexes(w) && q <= word + "\n" && (word == "reboot" || word == "halt" || word == "exit" || word == "shell")
    ensures Open(Scan(w, Initial, q).tokens)
  {
    if |q| <= |word| {
      WordHasNoSpecial(word);
      FlexBrace();
      assert q == word[..|q|] && forall c :: c in q ==> c in word;
      NoBraceNoToken(w, Initial, q);
    } else {
      assert q == word + "\n" + "";
      ActionLine(w, word, "");
      AtTheEnd(w, Initial, q, [Keyword(word)], Initial);
    }
  }

  // ---------- an open text is not an entry ----------

  lemma OpenSuffix(rest: seq<Token>, ts: seq<Token>)
    requires Suffix(rest, ts) && Open(ts)
    ensures Open(rest)
  {
    assert forall t :: t in rest ==> t in ts;
  }

  lemma {:induction false} OpenIsNoBlock<P>(leaf: seq<Token> -> Parsed<P>, empty: bool, ts: seq<Token>)
    requires Open(ts)
    ensures ParseBlock(leaf, empty, ts) == None
    decreases |ts|
  {
    if ts != [] && ParseItem(leaf, empty, ts).Some? {
      var rest := ParseItem(leaf, empty, ts).value.1;
      assert ts[0] in ts;
      ItemIsSuffix(leaf, empty, ts);
      OpenSuffix(rest, ts);
      OpenIsNoBlock(leaf, empty, rest);
    }
  }

  lemma OpenIsNoEntry(ts: seq<Token>)
    requires Open(ts)
    ensures ParseEntry(ts) == None
  {
    if StartsEntry(ts) {
      var rest := if StartsLabel(ts[4..]) then ts[4..][2..] else ts[4..];
      assert forall t :: t in rest ==> t in ts;
      OpenIsNoBlock(ParseOption, false, rest);
    }
  }

  /** A text after which no file is suspended. */
  lemma ReadAlone(files: Files, mode: Mode, text: string)
    ensures Read(files, Flex(mode, []), text) == Scan(Start(files, []), mode, text)
  {
    var r := Scan(Start(files, []), mode, text);
    assert r.tokens + [] == r.tokens;
  }

  /** A text that starts with a boot entry and has no closing brace is rejected. */
  lemma OpenIsRejected(env: Env, files: Files, p: string)
    requires var ts := Read(files, RESET, p).tokens; Open(ts) && ts != [] && ts[0] == Keyword("boot_entry")
    ensures Parse(env, files, RESET, p) == None
  {
    var ts := Read(files, RESET, p).tokens;
    OpenIsNoEntry(ts);
    ParseFirst(env, files, RESET, p, ts);
  }

  // ---------- the first line ----------

  /** Tokens that no definition can do without. */
  predicate Needed(t: Token) { t.Str? || t.Number? || t == Punct('}') }

  predicate Bare(ts: seq<Token>) { forall t :: t in ts ==> !Needed(t) }

  predicate IsBareChar(c: char) { c != '\n' && c != '}' && !Decimal.IsDigit(c) }

  ghost predicate BareInitial(initial: string -> Match) {
    forall s :: s != "" && IsBareChar(s[0]) ==> Bare(TokenOf(initial(s)))
  }

  lemma RuleBare(r: Rule, s: string)
    requires s != "" && IsBareChar(s[0]) && MatchLen(r, s) > 0
    ensures Bare(TokenOf(RuleMatch(r, s)))
  {
  }

  lemma FlexBare()
    ensures BareInitial(InitialMatch)
  {
    forall s: string | s != "" && IsBareChar(s[0]) ensures Bare(TokenOf(InitialMatch(s))) {
      AnythingMatches(s);
      RuleBare(Pick(RULES, s), s);
    }
  }

  lemma {:induction false} BareText(w: World, mode: Mode, s: string)
    requires BareInitial(w.initial) && All(IsBareChar, s)
    ensures Bare(Scan(w, mode, s).tokens)
    decreases |s|, if EndsLine(mode) then 1 else 0
  {
    if s != "" {
      var m := NextMatch(w.initial, mode, s);
      if Progress(mode, s, m) {
        BareMatch(w.initial, mode, s);
        BareText(w.Saw(TokenOf(m)), m.mode, s[m.consumed..]);
      }
    }
  }

  lemma BareMatch(initial: string -> Match, mode: Mode, s: string)
    requires BareInitial(initial) && All(IsBareChar, s) && s != ""
    ensures Bare(TokenOf(NextMatch(initial, mode, s))) && IncludeUri(mode, s).None?
  {
    assert forall k :: 0 <= k < |s| ==> s[k] != '\n' && s[k] != '}';
    assert '\n' !in s && '\n' !in s[1..];
    RunToEnd(s);
    RunToEnd(s[1..]);
  }

  lemma BareSuffix(rest: seq<Token>, ts: seq<Token>)
    requires Bare(ts) && forall t :: t in rest ==> t in ts
    ensures Bare(rest) && Open(rest)
  {
  }

  lemma BareIsNoItem(ts: seq<Token>)
    requires Bare(ts)
    ensures ParseItem(ParseStatement, true, ts) == None
  {
    if ts != [] && ts[0] == Keyword("system") {
      var c := ParseCondition(ts[1..]);
      if c.Some? && c.value.1 != [] {
        assert forall t :: t in c.value.1[1..] ==> t in ts;
        BareSuffix(c.value.1[1..], ts);
        OpenIsNoBlock(ParseStatement, true, c.value.1[1..]);
      }
    } else {
      BareIsNoStatement(ts);
    }
  }

  lemma BareIsNoStatement(ts: seq<Token>)
    requires Bare(ts)
    ensures ParseStatement(ts) == None
  {
    if |ts| >= 2 && ts[0].Keyword? {
      assert !Needed(ts[1]) && (|ts| > 2 ==> !Needed(ts[2])) && (|ts| > 3 ==> !Needed(ts[3]));
      if ts[0].word == "setup" {
        BareIsNoSetup(ts);
      }
    }
  }

  lemma BareIsNoSetup(ts: seq<Token>)
    requires Bare(ts)
    ensures ParseSetup(ts) == None
  {
    if |ts| >= 3 && ts[1].Keyword? {
      BareSuffix(ts[3..], ts);
      OpenIsNoBlock(ParseModParam, false, ts[3..]);
      OpenIsNoBlock(ParseNetParam, false, ts[3..]);
      BareSuffix(ts[2..], ts);
      BareIsNoDevice(ts[1].word, ts[2..]);
    }
  }

  lemma BareIsNoDevice(kind: string, ts: seq<Token>)
    requires Bare(ts)
    ensures ParseDevice(kind, ts) == None
  {
    assert (|ts| > 3 ==> !Needed(ts[3])) && (|ts| > 7 ==> !Needed(ts[7]));
  }

  /** Less than the first line of an entry is rejected. */
  lemma FirstLineRejected(env: Env, files: Files, p: string)
    requires p <= FIRST_LINE && |p| < |FIRST_LINE|
    ensures Parse(env, files, RESET, p) == None
  {
    assert forall k :: 0 <= k < |p| ==> p[k] == FIRST_LINE[k] && IsBareChar(FIRST_LINE[k]);
    FlexBare();
    BareText(Start(files, []), Initial, p);
    ReadAlone(files, Initial, p);
    if Read(files, RESET, p).tokens != [] {
      BareIsNoItem(Read(files, RESET, p).tokens);
    }
  }

  // ---------- the ends of an entry ----------

  lemma TwoEnds(e: Bentry)
    ensures Print(e) == FIRST_LINE + (Lines(Heading(e)) + Body(e)) + "}\n"
  {
    Assoc2(Lines(Heading(e)), Body(e), "}\n");
    Assoc2(FIRST_LINE, Lines(Heading(e)) + Body(e), "}\n");
  }

  lemma LastBrace(w: World, e: Bentry)
    requires Flexes(w) && Scanned(e)
    ensures Scan(w, Initial, FIRST_LINE + (Lines(Heading(e)) + (Body(e) + "}"))) == Lexed(EntryTokens(e), Initial)
  {
    var most := OPENING + LinesTokens(Heading(e)) + BodyTokens(e);
    var s := FIRST_LINE + (Lines(Heading(e)) + (Body(e) + "}"));
    ScanUpToEnd(w, e, "}");
    ScanBrace(w.Saw(most), '}', "");
    assert ['}'] + "" == "}";
    Chain(w, Initial, s, most, Initial, "}", CLOSING, Initial, "");
    TokensInOrder(e);
    AtTheEnd(w, Initial, s, EntryTokens(e), Initial);
  }

  lemma EndsAlike(e: Bentry, p: string)
    requires p <= Print(e) && |p| >= |Print(e)| - 1
    ensures p == Print(e) || p == FIRST_LINE + (Lines(Heading(e)) + (Body(e) + "}"))
  {
    var front := FIRST_LINE + (Lines(Heading(e)) + Body(e));
    TwoEnds(e);
    assert p == Print(e)[..|p|];
    if |p| < |Print(e)| {
      assert p == front + "}";
      Assoc2(Lines(Heading(e)), Body(e), "}");
      Assoc2(FIRST_LINE, Lines(Heading(e)) + Body(e), "}");
    }
  }
}
