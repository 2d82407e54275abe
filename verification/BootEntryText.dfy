/**
 A boot entry as text: what is printed, and what the scanner makes of the lines
 (core/config.c, core/sysload.conf.l).
 */
module BootEntryText {
  import opened Config
  import opened ScannerState
  import opened BootEntryScanner
  import opened ConfigGrammar

  // ---------- printing ----------

  /** A line to print, if there is a value. */
  datatype Field = Field(word: Word, value: string)

  function Line(f: Field): string {
    if f.value == "" then "" else LineAnd(f.word, f.value, "")
  }

  function Lines(fs: seq<Field>): string {
    if fs == [] then "" else Line(fs[0]) + Lines(fs[1..])
  }

  /** A printed line and what follows it. */
  function LineAnd(word: string, v: string, rest: string): string { word + (" " + (v + "\n" + rest)) }

  function Heading(e: Bentry): seq<Field> { [Field("title", e.title), Field("label", e.tag)] }

  function OptionFields(e: Bentry): seq<Field> {
    [Field("root", e.root), Field("kernel", e.kernel), Field("initrd", e.initrd), Field("cmdline", e.cmdline),
     Field("parmfile", e.parmfile), Field("insfile", e.insfile), Field("bootmap", e.bootmap)]
  }

  predicate PrintsOptions(a: BootAction) { a.KernelBoot? || a.InsfileBoot? || a.BootmapBoot? }

  function ActionWord(a: BootAction): Word
    requires !PrintsOptions(a)
  {
    match a
    case Reboot => "reboot"
    case Halt => "halt"
    case Shell => "shell"
    case Exit => "exit"
  }

  function Body(e: Bentry): string {
    if PrintsOptions(e.action) then Lines(OptionFields(e)) else ActionWord(e.action) + "\n"
  }

  function Print(e: Bentry): string {
    "boot_entry {\n" + (Lines(Heading(e)) + (Body(e) + "}\n"))
  }

  // ---------- values the scanner produces ----------

  /** A string: no line end, no blank in front. */
  predicate PlainText(v: string) {
    All(IsNotNewline, v) && (v != "" ==> !IsBlank(v[0]))
  }

  /** What follows the scheme of a URI: a bracket and a string, or anything that
      does not start with a bracket, up to the end of the line. */
  predicate UriRest(r: string) {
    && r != ""
    && if r[0] == '(' then BracketLen(r) > 0 && PlainText(r[BracketLen(r)..]) else All(IsNotNewline, r[1..])
  }

  function BracketLen(r: string): (n: nat)
    requires r != ""
    ensures n <= |r|
  {
    var n := 1 + Run(IsNotClosing, r[1..]);
    if n > 1 && n < |r| then n + 1 else 0
  }

  predicate UriText(v: string) {
    UriStartLen(v) > 0 && UriRest(v[UriStartLen(v)..])
  }

  /** The value of an option that takes a string or a URI. */
  predicate FileText(v: string) {
    v == "" || UriText(v) || (PlainText(v) && UriStartLen(v) == 0)
  }

  /** The field values of an entry come from the scanner. */
  predicate Scanned(e: Bentry) {
    && PlainText(e.title) && PlainText(e.tag) && PlainText(e.cmdline)
    && (e.root == "" || UriText(e.root)) && (e.insfile == "" || UriText(e.insfile))
    && (e.bootmap == "" || UriText(e.bootmap))
    && FileText(e.kernel) && FileText(e.initrd) && FileText(e.parmfile)
  }

  /** The tokens of a value. */
  function ValueTokens(v: string): seq<Token> {
    if UriText(v) then UriTokens(v[..UriStartLen(v)], v[UriStartLen(v)..]) else [Str(v)]
  }

  function UriTokens(start: string, r: string): seq<Token>
    requires UriRest(r)
  {
    if r[0] == '(' then [UriStart(start), UriBracket(r[..BracketLen(r)]), Str(r[BracketLen(r)..])]
    else [UriStart(start), Str(r)]
  }

  // ---------- scanning a printed line ----------

  predicate SkipsNewline(initial: string -> Match, rest: string) {
    initial("\n" + rest) == Match(None, Initial, 1)
  }

  lemma ScanNewline(w: World, rest: string)
    requires SkipsNewline(w.initial, rest)
    ensures Yields(w, Initial, "\n" + rest, [], Initial, rest)
  {
    ScanStep(w, Initial, "\n" + rest, Match(None, Initial, 1), rest);
  }

  /** Something with a token, and the line end behind it. */
  lemma ThenNewline(w: World, mode: Mode, s: string, ts: seq<Token>, rest: string)
    requires Yields(w, mode, s, ts, Initial, "\n" + rest) && SkipsNewline(w.initial, rest)
    ensures Yields(w, mode, s, ts, Initial, rest)
  {
    ScanNewline(w.Saw(ts), rest);
    Chain(w, mode, s, ts, Initial, "\n" + rest, [], Initial, rest);
    assert ts + [] == ts;
  }

  lemma StringMatch(initial: string -> Match, v: string, rest: string)
    requires PlainText(v)
    ensures NextMatch(initial, StrMode, v + "\n" + rest) == Match(Some(Str(v)), Initial, |v|)
    ensures (v + "\n" + rest)[|v|..] == "\n" + rest
  {
    var s := v + "\n" + rest;
    assert s[..|v|] == v && s[|v|] == '\n';
    RunIs(IsNotNewline, s, |v|);
    assert v[..0] == "";
    RunIs(IsBlank, v, 0);
    assert SkipBlanks(v) == v;
  }

  lemma ScanString(w: World, v: string, rest: string)
    requires PlainText(v) && SkipsNewline(w.initial, rest)
    ensures Yields(w, StrMode, v + "\n" + rest, [Str(v)], Initial, rest)
  {
    StringMatch(w.initial, v, rest);
    ScanStep(w, StrMode, v + "\n" + rest, Match(Some(Str(v)), Initial, |v|), "\n" + rest);
    ThenNewline(w, StrMode, v + "\n" + rest, [Str(v)], rest);
  }

  /** Without a line end there is no string, and the condition stays. */
  lemma NoStringWithoutEnd(w: World, s: string)
    requires '\n' !in s
    ensures Scan(w, StrMode, s) == Lexed([], StrMode)
    decreases |s|
  {
    if s != "" {
      assert forall k :: 0 <= k < |s| ==> s[k] in s;
      RunIs(IsNotNewline, s, |s|);
      NoStringWithoutEnd(w, s[1..]);
      ScanStep(w, StrMode, s, Match(None, StrMode, 1), s[1..]);
      NoTokens(w, Scan(w, StrMode, s[1..]));
    }
  }

  lemma BracketMatch(initial: string -> Match, r: string, rest: string)
    requires UriRest(r) && r[0] == '('
    ensures NextMatch(initial, UriRestMode, r + "\n" + rest)
         == Match(Some(UriBracket(r[..BracketLen(r)])), StrMode, BracketLen(r))
    ensures (r + "\n" + rest)[BracketLen(r)..] == r[BracketLen(r)..] + "\n" + rest
  {
    var s, n := r + "\n" + rest, Run(IsNotClosing, r[1..]);
    assert s[1..][..n] == r[1..][..n] && s[1..][n] == r[1..][n];
    RunIs(IsNotClosing, s[1..], n);
    assert s[..n + 2] == r[..n + 2];
  }

  lemma RestMatch(initial: string -> Match, r: string, rest: string)
    requires r != "" && r[0] != '(' && All(IsNotNewline, r[1..])
    ensures NextMatch(initial, UriRestMode, r + "\n" + rest) == Match(Some(Str(r)), Initial, |r|)
    ensures (r + "\n" + rest)[|r|..] == "\n" + rest
  {
    var s := r + "\n" + rest;
    assert s[1..][..|r| - 1] == r[1..] && s[1..][|r| - 1] == '\n';
    RunIs(IsNotNewline, s[1..], |r| - 1);
    assert s[..|r|] == r;
  }

  /** What comes behind the start of a URI. */
  function RestTokens(r: string): seq<Token>
    requires UriRest(r)
  {
    if r[0] == '(' then [UriBracket(r[..BracketLen(r)])] + [Str(r[BracketLen(r)..])] else [Str(r)]
  }

  lemma ScanUriRest(w: World, r: string, rest: string)
    requires UriRest(r) && SkipsNewline(w.initial, rest)
    ensures Yields(w, UriRestMode, r + "\n" + rest, RestTokens(r), Initial, rest)
  {
    var s, b := r + "\n" + rest, BracketLen(r);
    if r[0] == '(' {
      BracketMatch(w.initial, r, rest);
      ScanStep(w, UriRestMode, s, Match(Some(UriBracket(r[..b])), StrMode, b), r[b..] + "\n" + rest);
      ScanString(w.Saw([UriBracket(r[..b])]), r[b..], rest);
      Chain(w, UriRestMode, s, [UriBracket(r[..b])], StrMode, r[b..] + "\n" + rest, [Str(r[b..])], Initial, rest);
    } else {
      RestMatch(w.initial, r, rest);
      ScanStep(w, UriRestMode, s, Match(Some(Str(r)), Initial, |r|), "\n" + rest);
      ThenNewline(w, UriRestMode, s, [Str(r)], rest);
    }
  }

  lemma UriStartKept(v: string, rest: string)
    requires UriStartLen(v) > 0
    ensures UriStartLen(v + rest) == UriStartLen(v)
  {
    var s, n := v + rest, IdLen(v);
    assert s[..n] == v[..n] && s[n] == v[n] == v[n..n + 3][0] == ':';
    RunIs(IsIdChar, s, n);
    assert s[n..n + 3] == v[n..n + 3];
  }

  lemma UriStartAlone(v: string)
    requires UriStartLen(v) > 0
    ensures UriStartLen(v[..UriStartLen(v)]) == UriStartLen(v)
  {
    var id, u := IdLen(v), v[..UriStartLen(v)];
    assert u[..id] == v[..id] && u[id] == v[id] == v[id..id + 3][0] == ':';
    RunIs(IsIdChar, u, id);
    assert u[id..id + 3] == v[id..id + 3];
  }

  /** Appending a line end does not turn a string into the start of a URI. */
  lemma NoUriStartKept(v: string, rest: string)
    requires UriStartLen(v) == 0
    ensures UriStartLen(v + "\n" + rest) == 0
  {
    var s := v + "\n" + rest;
    if v != "" && IsIdStart(v[0]) {
      var n := Run(IsIdChar, v);
      assert s[..n] == v[..n] && (n < |v| ==> s[n] == v[n]) && s[|v|] == '\n';
      RunIs(IsIdChar, s, n);
      assert s[0] == v[0];
      if n + 3 <= |v| {
        assert s[n..n + 3] == v[n..n + 3];
      } else if n + 3 <= |s| {
        assert s[n..n + 3][|v| - n] == '\n';
      }
    } else {
      assert s[0] == if v == "" then '\n' else v[0];
    }
  }

  /** The blank before a URI, and its start. */
  lemma ScanUriStart(w: World, v: string)
    requires UriStartLen(v) > 0
    ensures Yields(w, UriMode, " " + v, [UriStart(v[..UriStartLen(v)])], UriRestMode, v[UriStartLen(v)..])
  {
    var n := UriStartLen(v);
    OneBlank(v);
    assert UriStartLen(" " + v) == 0;
    ScanStep(w, UriMode, " " + v, Match(None, UriMode, 1), v);
    ScanStep(w, UriMode, v, Match(Some(UriStart(v[..n])), UriRestMode, n), v[n..]);
    Skip(w, UriMode, " " + v, UriMode, v, [UriStart(v[..n])], UriRestMode, v[n..]);
  }

  lemma UriSlices(v: string, rest: string)
    requires UriStartLen(v) > 0
    ensures var tail, n := v + "\n" + rest, UriStartLen(v);
            UriStartLen(tail) == n && tail[..n] == v[..n] && tail[n..] == v[n..] + "\n" + rest
  {
    UriStartKept(v, "\n" + rest);
    assert v + ("\n" + rest) == v + "\n" + rest;
  }

  lemma ScanUri(w: World, v: string, rest: string)
    requires UriText(v) && SkipsNewline(w.initial, rest)
    ensures Yields(w, UriMode, " " + (v + "\n" + rest), ValueTokens(v), Initial, rest)
  {
    var n, tail := UriStartLen(v), v + "\n" + rest;
    UriSlices(v, rest);
    ScanUriStart(w, tail);
    ScanUriRest(w.Saw([UriStart(v[..n])]), v[n..], rest);
    Chain(w, UriMode, " " + tail, [UriStart(v[..n])], UriRestMode, v[n..] + "\n" + rest,
          RestTokens(v[n..]), Initial, rest);
    assert ValueTokens(v) == [UriStart(v[..n])] + RestTokens(v[n..]);
  }

  // ---------- printed lines and the rules ----------

  lemma ScanKeyword(w: World, s: string, word: string, mode: Mode, n: nat, tail: string)
    requires 0 < n <= |s| && s[n..] == tail && w.initial(s) == Match(Some(Keyword(word)), mode, n)
    ensures Yields(w, Initial, s, [Keyword(word)], mode, tail)
  {
    ScanStep(w, Initial, s, Match(Some(Keyword(word)), mode, n), tail);
  }

  lemma Assoc(a: seq<Token>, b: seq<Token>, c: seq<Token>)
    ensures a + (b + c) == a + b + c
  {
  }

  /** The INITIAL condition of the configuration language. */
  ghost predicate Flexes(w: World) { w.initial == InitialMatch }

  lemma FlexNewline(rest: string)
    ensures SkipsNewline(InitialMatch, rest)
  {
    MatchNewline("\n" + rest);
  }

  lemma LineSlices(word: string, v: string, rest: string)
    ensures LineAnd(word, v, rest)[|word|..] == " " + (v + "\n" + rest)
    ensures LineAnd(word, v, rest)[|word| + 1..] == v + "\n" + rest
  {
    var s := LineAnd(word, v, rest);
    assert s[|word|..] == " " + (v + "\n" + rest);
    assert s[|word| + 1..] == s[|word|..][1..];
  }

  lemma FlexUri(w: Word, v: string, rest: string)
    requires WithUri(w) in WORDS && UriText(v)
    ensures InitialMatch(LineAnd(w, v, rest)) == Match(Some(Keyword(w)), UriMode, |w|)
  {
    UriSlices(v, rest);
    MatchWithUri(w, v + "\n" + rest);
  }

  /** A line with a URI. */
  lemma UriLine(w: World, word: Word, v: string, rest: string)
    requires Flexes(w) && WithUri(word) in WORDS && UriText(v)
    ensures Yields(w, Initial, LineAnd(word, v, rest), [Keyword(word)] + ValueTokens(v), Initial, rest)
  {
    var s := LineAnd(word, v, rest);
    FlexUri(word, v, rest);
    FlexNewline(rest);
    LineSlices(word, v, rest);
    ScanKeyword(w, s, word, UriMode, |word|, " " + (v + "\n" + rest));
    ScanUri(w.Saw([Keyword(word)]), v, rest);
    Chain(w, Initial, s, [Keyword(word)], UriMode, " " + (v + "\n" + rest), ValueTokens(v), Initial, rest);
  }

  lemma FlexString(w: Word, v: string, rest: string)
    requires WithBlank(w) in WORDS && w != "timeout" && w != "userinterface" && v != "" && PlainText(v)
    requires WithUri(w) in WORDS ==> UriStartLen(v) == 0
    ensures InitialMatch(LineAnd(w, v, rest)) == Match(Some(Keyword(w)), StrMode, |w| + 1)
  {
    if UriStartLen(v) == 0 {
      NoUriStartKept(v, rest);
    }
    assert (v + "\n" + rest)[0] == v[0];
    MatchWithBlank(w, v + "\n" + rest);
  }

  /** A line with a string. */
  lemma StringLine(w: World, word: Word, v: string, rest: string)
    requires Flexes(w) && WithBlank(word) in WORDS && word != "timeout" && word != "userinterface"
    requires v != "" && PlainText(v) && (WithUri(word) in WORDS ==> UriStartLen(v) == 0)
    ensures Yields(w, Initial, LineAnd(word, v, rest), [Keyword(word)] + [Str(v)], Initial, rest)
  {
    var s := LineAnd(word, v, rest);
    FlexString(word, v, rest);
    FlexNewline(rest);
    LineSlices(word, v, rest);
    ScanKeyword(w, s, word, StrMode, |word| + 1, v + "\n" + rest);
    ScanString(w.Saw([Keyword(word)]), v, rest);
    Chain(w, Initial, s, [Keyword(word)], StrMode, v + "\n" + rest, [Str(v)], Initial, rest);
  }

  /** A line with a keyword only. */
  lemma BareLine(w: World, word: Word, rest: string)
    requires Flexes(w) && Plain(word) in WORDS && word != "include" && word != "mod"
    ensures Yields(w, Initial, word + ("\n" + rest), [Keyword(word)], Initial, rest)
  {
    var t := "\n" + rest;
    assert t[..0] == "";
    RunIs(IsBlank, t, 0);
    MatchBare(word, t);
    FlexNewline(rest);
    assert (word + t)[|word|..] == t;
    ScanKeyword(w, word + t, word, Initial, |word|, t);
    ThenNewline(w, Initial, word + t, [Keyword(word)], rest);
  }

  lemma ScanBrace(w: World, brace: char, rest: string)
    requires Flexes(w) && (brace == '{' || brace == '}')
    ensures Yields(w, Initial, [brace] + rest, [Punct(brace)], Initial, rest)
  {
    var s := [brace] + rest;
    MatchBrace(s);
    assert s[1..] == rest;
    ScanStep(w, Initial, s, Match(Some(Punct(brace)), Initial, 1), rest);
  }

  lemma BraceLine(w: World, brace: char, rest: string)
    requires Flexes(w) && (brace == '{' || brace == '}')
    ensures Yields(w, Initial, [brace] + ("\n" + rest), [Punct(brace)], Initial, rest)
  {
    ScanBrace(w, brace, "\n" + rest);
    FlexNewline(rest);
    ThenNewline(w, Initial, [brace] + ("\n" + rest), [Punct(brace)], rest);
  }

  lemma OpeningBrace(w: World, word: Word, rest: string)
    requires Flexes(w) && word != "include" && word != "mod"
    requires Plain(word) in WORDS && WithBlank(word) !in WORDS && WithUri(word) !in WORDS
    ensures Yields(w, Initial, word + (" " + ("{" + ("\n" + rest))), [Keyword(word)] + [Punct('{')], Initial, rest)
  {
    var tail := "{" + ("\n" + rest);
    var b, v := " " + tail, w.Saw([Keyword(word)]);
    MatchBare(word, b);
    assert (word + b)[|word|..] == b && b[1..] == tail;
    ScanKeyword(w, word + b, word, Initial, |word|, b);
    MatchOneBlank(tail);
    ScanStep(v, Initial, b, Match(None, Initial, 1), tail);
    BraceLine(v, '{', rest);
    Skip(v, Initial, b, Initial, tail, [Punct('{')], Initial, rest);
    Chain(w, Initial, word + b, [Keyword(word)], Initial, b, [Punct('{')], Initial, rest);
  }

  lemma OpeningText(rest: string)
    ensures "boot_entry" + (" " + ("{" + ("\n" + rest))) == FIRST_LINE + rest
  {
  }

  const FIRST_LINE := "boot_entry {\n"

  const OPENING: seq<Token> := [Keyword("boot_entry"), Punct('{')]
  const CLOSING: seq<Token> := [Punct('}')]

  lemma OpeningLine(w: World, rest: string)
    requires Flexes(w)
    ensures Yields(w, Initial, FIRST_LINE + rest, OPENING, Initial, rest)
  {
    BootEntryRules();
    OpeningBrace(w, "boot_entry", rest);
    OpeningText(rest);
    assert OPENING == [Keyword("boot_entry")] + [Punct('{')];
  }

  lemma ClosingLine(w: World)
    requires Flexes(w)
    ensures Yields(w, Initial, "}\n", CLOSING, Initial, "")
  {
    BraceLine(w, '}', "");
    assert ['}'] + ("\n" + "") == "}\n";
  }

  // ---------- the tokens of a printed entry ----------

  function LineTokens(f: Field): seq<Token> { TokensFor(f.word, ArgumentOf(f.word), f.value) }

  function TokensFor(word: string, a: Argument, v: string): seq<Token> {
    if v == "" then [] else [Keyword(word)] + if a.AString? then [Str(v)] else ValueTokens(v)
  }

  function LinesTokens(fs: seq<Field>): seq<Token> {
    if fs == [] then [] else LineTokens(fs[0]) + LinesTokens(fs[1..])
  }

  /** The value suits what the grammar expects and what the scanner has rules for. */
  predicate Fits(f: Field) { FitsArgument(WORDS, f.word, ArgumentOf(f.word), f.value) }

  predicate FitsArgument(words: seq<Rule>, w: Word, a: Argument, v: string) {
    v == ""
    || (UriText(v) && (a.AUri? || a.StringOrUri?) && WithUri(w) in words)
    || (PlainText(v) && WithBlank(w) in words && w != "timeout" && w != "userinterface"
        && if a.AString? then WithUri(w) !in words else a.StringOrUri? && UriStartLen(v) == 0)
  }

  lemma ScanArgument(w: World, word: Word, a: Argument, v: string, rest: string)
    requires Flexes(w) && FitsArgument(WORDS, word, a, v) && v != ""
    ensures Yields(w, Initial, LineAnd(word, v, rest), TokensFor(word, a, v), Initial, rest)
  {
    ByArgument(WORDS, word, a, v);
    if UriText(v) && !a.AString? {
      UriLine(w, word, v, rest);
    } else {
      StringLine(w, word, v, rest);
    }
  }

  lemma ByArgument(words: seq<Rule>, w: Word, a: Argument, v: string)
    requires FitsArgument(words, w, a, v) && v != ""
    ensures if UriText(v) && !a.AString? then WithUri(w) in words
            else WithBlank(w) in words && w != "timeout" && w != "userinterface" && PlainText(v)
                 && (WithUri(w) in words ==> UriStartLen(v) == 0)
  {
  }

  lemma ScanLineAs(w: World, f: Field, a: Argument, rest: string)
    requires Flexes(w) && FitsArgument(WORDS, f.word, a, f.value)
    ensures Yields(w, Initial, Line(f) + rest, TokensFor(f.word, a, f.value), Initial, rest)
  {
    if f.value == "" {
      assert "" + rest == rest;
      Here(w, Initial, rest);
    } else {
      ScanArgument(w, f.word, a, f.value, rest);
      LineThen(f, rest);
    }
  }

  lemma ScanLine(w: World, f: Field, rest: string)
    requires Flexes(w) && Fits(f)
    ensures Yields(w, Initial, Line(f) + rest, LineTokens(f), Initial, rest)
  {
    ScanLineAs(w, f, ArgumentOf(f.word), rest);
  }

  lemma LineThen(f: Field, rest: string)
    ensures f.value != "" ==> Line(f) + rest == LineAnd(f.word, f.value, rest)
  {
  }

  lemma Assoc2(a: string, b: string, c: string)
    ensures (a + b) + c == a + (b + c)
  {
  }

  predicate AllFit(fs: seq<Field>) { forall f :: f in fs ==> Fits(f) }

  lemma {:induction false} ScanLines(w: World, fs: seq<Field>, rest: string)
    requires Flexes(w) && AllFit(fs)
    ensures Yields(w, Initial, Lines(fs) + rest, LinesTokens(fs), Initial, rest)
    decreases |fs|
  {
    if fs == [] {
      assert "" + rest == rest;
      Here(w, Initial, rest);
    } else {
      var tail := Lines(fs[1..]) + rest;
      assert fs[0] in fs && forall f :: f in fs[1..] ==> f in fs;
      Assoc2(Line(fs[0]), Lines(fs[1..]), rest);
      ScanLine(w, fs[0], tail);
      ScanLines(w.Saw(LineTokens(fs[0])), fs[1..], rest);
      Chain(w, Initial, Lines(fs) + rest, LineTokens(fs[0]), Initial, tail, LinesTokens(fs[1..]), Initial, rest);
    }
  }
}
