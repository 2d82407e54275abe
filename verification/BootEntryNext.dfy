/**
 A printed entry that is read after other texts: the scanner is not reset in between.
 */
module BootEntryNext {
  import opened Config
  import opened ConfigLanguage
  import opened ScannerState
  import opened BootEntryScanner
  import opened ConfigGrammar
  import opened ScannerCarry
  import opened BootEntryText
  import opened BootEntryRoundTrip
  import opened BootEntryCut
  import opened BootEntrySplit
  import opened BootEntryIncludes

  // ---------- what no definition starts with ----------

  /** The keywords of definitions. */
  predicate StartsDefinition(u: string) {
    u in ["default", "timeout", "password", "exec", "userinterface", "setup", "boot_entry", "system"]
  }

  /** Nothing, or tokens that are rejected at once. */
  predicate Hopeless(ts: seq<Token>) { ts == [] || !ts[0].Keyword? || !StartsDefinition(ts[0].word) }

  lemma HopelessIsRejected(env: Env, files: Files, flex: Flex, text: string)
    requires Hopeless(Read(files, flex, text).tokens)
    ensures Parse(env, files, flex, text) == None
  {
    var ts := Read(files, flex, text).tokens;
    if ts != [] {
      assert ParseStatement(ts) == None;
    }
  }

  // ---------- the lines of an entry ----------

  /** The words of the lines of a printed entry. */
  predicate LineWord(w: string) {
    w in ["title", "label", "root", "kernel", "initrd", "cmdline", "parmfile", "insfile", "bootmap",
          "reboot", "halt", "exit", "shell"]
  }

  /** What comes behind the first line: a line, or the closing brace. */
  ghost predicate StartsLikeLine(s: string) { s != "" && (s[0] == '}' || exists w: Word :: WordAt(w, s)) }

  predicate WordAt(w: Word, s: string) {
    LineWord(w) && |w| < |s| && s[..|w|] == w && (s[|w|] == ' ' || s[|w|] == '\n')
  }

  lemma {:induction false} LinesStart(fs: seq<Field>, tail: string)
    requires (forall f :: f in fs ==> LineWord(f.word)) && StartsLikeLine(tail)
    ensures StartsLikeLine(Lines(fs) + tail)
    decreases |fs|
  {
    if fs == [] {
      assert "" + tail == tail;
    } else {
      assert fs[0] in fs && forall f :: f in fs[1..] ==> f in fs;
      LinesStart(fs[1..], tail);
      Assoc2(Line(fs[0]), Lines(fs[1..]), tail);
      LineStart(fs[0], Lines(fs[1..]) + tail);
    }
  }

  lemma LineStart(f: Field, rest: string)
    requires LineWord(f.word) && StartsLikeLine(rest)
    ensures StartsLikeLine(Line(f) + rest)
  {
    var w, s := f.word, Line(f) + rest;
    if f.value == "" {
      assert s == rest;
    } else {
      LineThen(f, rest);
      assert s[..|w|] == w && s[|w|] == ' ';
      assert WordAt(w, s);
    }
  }

  lemma OptionWords(e: Bentry)
    ensures forall f :: f in OptionFields(e) ==> LineWord(f.word)
  {
  }

  lemma ActionStart(w: Word)
    requires w == "reboot" || w == "halt" || w == "exit" || w == "shell"
    ensures StartsLikeLine(w + "\n" + "}\n")
  {
    var s := w + "\n" + "}\n";
    assert s[..|w|] == w && s[|w|] == '\n';
    assert WordAt(w, s);
  }

  lemma EntryStart(e: Bentry)
    ensures StartsLikeLine(Lines(Heading(e)) + (Body(e) + "}\n"))
  {
    if PrintsOptions(e.action) {
      OptionWords(e);
      LinesStart(OptionFields(e), "}\n");
    } else {
      ActionStart(ActionWord(e.action));
    }
    LinesStart(Heading(e), Body(e) + "}\n");
  }

  predicate SameStart(u: string, w: string) {
    |u| >= 4 && |w| >= 4 && u[0] == w[0] && u[1] == w[1] && u[2] == w[2] && u[3] == w[3]
  }

  lemma FourLetters(u: string, w: string)
    requires (StartsDefinition(u) || u == "include") && LineWord(w)
    ensures |u| >= 4 && |w| >= 4 && (SameStart(u, w) ==> u == "boot_entry" && w == "bootmap")
  {
  }

  /** No keyword of a definition, and no include statement, looks like a line of an entry. */
  lemma OtherWords(w: Word, u: string, p: string, s: string)
    requires WordAt(w, s) && (StartsDefinition(u) || u == "include") && p <= s
    ensures !(u <= p)
  {
    if u <= p {
      assert forall i :: 0 <= i < |u| ==> u[i] == s[i];
      assert forall i :: 0 <= i < |w| ==> w[i] == s[..|w|][i] == s[i];
      FourLetters(u, w);
      assert SameStart(u, w);
    }
  }

  /** The first token of a line, or of the beginning of one. */
  lemma LineToken(w: World, p: string, s: string)
    requires Flexes(w) && p <= s && StartsLikeLine(s)
    ensures Hopeless(Scan(w, Initial, p).tokens)
  {
    if p != "" {
      var r, m := Pick(RULES, p), InitialMatch(p);
      assert p[0] == s[0];
      AnythingMatches(p);
      TokenOfRule(r, p, s);
      ScanStep(w, Initial, p, m, p[m.consumed..]);
    }
  }

  lemma TokenOfRule(r: Rule, p: string, s: string)
    requires p != "" && p <= s && StartsLikeLine(s)
    requires MatchLen(r, p) > 0 && (r.CommentRule? ==> MatchLen(r, p) > 1)
    ensures var m := RuleMatch(r, p); m.token.Some? && 0 < m.consumed <= |p| && Hopeless([m.token.value])
  {
    if s[0] != '}' {
      var w: Word :| WordAt(w, s);
      assert p[0] == s[0] == w[0] && IsWordChar(w[0]);
      if IsWordRule(r) && (StartsDefinition(r.word) || r.word == "include") {
        OtherWords(w, r.word, p, s);
      }
    }
  }

  // ---------- in another condition ----------

  lemma NotKeyword(ts: seq<Token>)
    requires forall t :: t in ts ==> t.UriBracket?
    ensures Hopeless(ts)
  {
    if ts != [] {
      assert ts[0] in ts;
    }
  }

  lemma FirstWord(p: string, s: string)
    requires p <= FIRST_LINE + s && p != ""
    ensures p[0] == 'b' && IdLen(p) > 0 && UriStartLen(p) == 0
  {
    assert forall i :: 0 <= i < |p| ==> p[i] == (FIRST_LINE + s)[i];
    var n := if |p| < 10 then |p| else 10;
    assert forall i :: 0 <= i < n ==> p[..n][i] == FIRST_LINE[i] && IsIdChar(FIRST_LINE[i]);
    RunIs(IsIdChar, p, n);
    assert n + 3 <= |p| ==> p[n..n + 3][0] == FIRST_LINE[10] == ' ';
  }

  lemma FirstLineEnds(p: string, s: string)
    requires p <= FIRST_LINE + s && '\n' in p
    ensures |p| > 12 && p == "boot_entry {" + ("\n" + p[13..]) && p[13..] <= s
  {
    assert forall i :: 0 <= i < |p| ==> p[i] == (FIRST_LINE + s)[i];
    assert forall i :: 0 <= i < 12 ==> FIRST_LINE[i] != '\n';
    var i :| 0 <= i < |p| && p[i] == '\n';
    assert i >= 12;
    assert p[..13] == FIRST_LINE && p == p[..13] + p[13..] && FIRST_LINE == "boot_entry {" + "\n";
    Assoc2("boot_entry {", "\n", p[13..]);
    assert p[13..] == s[..|p| - 13];
  }

  lemma NoNewlineStays(w: World, p: string)
    requires '\n' !in p
    ensures Scan(w, IncludeMode, p) == Lexed([], IncludeMode)
    decreases |p|
  {
    if p != "" {
      RunToEnd(p);
      NoNewlineStays(w, p[1..]);
      ScanStep(w, IncludeMode, p, Match(None, IncludeMode, 1), p[1..]);
      NoTokens(w, Scan(w, IncludeMode, p[1..]));
    }
  }

  lemma NoSchemeThere(w: World)
    ensures w.Opened(SkipBlanks("boot_entry {")).None?
  {
    var s := "boot_entry {";
    assert s[..0] == "";
    RunIs(IsBlank, s, 0);
    assert SkipBlanks(s) == s && ':' !in s;
  }

  lemma FirstLineIgnored(w: World, rest: string)
    requires Flexes(w)
    ensures Yields(w, IncludeMode, "boot_entry {" + ("\n" + rest), [], Initial, rest)
  {
    var p := "boot_entry {" + ("\n" + rest);
    UriOfLine("boot_entry {", rest);
    NoSchemeThere(w);
    ScanStep(w, IncludeMode, p, Match(None, Initial, 12), "\n" + rest);
    FlexNewline(rest);
    ThenNewline(w, IncludeMode, p, [], rest);
  }

  /** The first line of an entry is taken for the URI of an include statement. */
  lemma AfterInclude(w: World, p: string, s: string)
    requires Flexes(w) && p <= FIRST_LINE + s && StartsLikeLine(s)
    ensures Hopeless(Scan(w, IncludeMode, p).tokens)
  {
    if '\n' !in p {
      NoNewlineStays(w, p);
    } else {
      var rest := p[13..];
      FirstLineEnds(p, s);
      FirstLineIgnored(w, rest);
      NoTokens(w, Scan(w, Initial, rest));
      LineToken(w, rest, s);
    }
  }

  lemma LineBefore(p: string, n: nat)
    requires 0 < n < |p| && p[n] == '\n'
    ensures Run(IsNotNewline, p) < |p| && 1 + Run(IsNotNewline, p[1..]) < |p|
  {
    RunStops(IsNotNewline, p, n);
    RunStops(IsNotNewline, p[1..], n - 1);
  }

  lemma InStrings(w: World, mode: Mode, p: string, s: string)
    requires (mode.StrMode? || mode.UriRestMode?) && p <= FIRST_LINE + s && p != ""
    ensures Hopeless(Scan(w, mode, p).tokens)
  {
    FirstWord(p, s);
    if '\n' !in p {
      NoNewlineNoString(w, mode, p);
      NotKeyword(Scan(w, mode, p).tokens);
    } else {
      FirstLineEnds(p, s);
      LineBefore(p, 12);
      assert NextMatch(w.initial, mode, p).token.Some?;
    }
  }

  lemma InNames(w: World, mode: Mode, p: string, s: string)
    requires (mode.UriMode? || mode.UiMode? || mode.ModMode?) && p <= FIRST_LINE + s && p != ""
    ensures Hopeless(Scan(w, mode, p).tokens)
  {
    FirstWord(p, s);
    assert p[..IdLen(p)][0] == 'b';
    assert NextMatch(w.initial, mode, p).token.Some?;
  }

  /** In any condition but INITIAL, no beginning of a printed entry is accepted: no wrong entry
      is booted. */
  lemma OtherModeRejects(env: Env, files: Files, mode: Mode, e: Bentry, p: string)
    requires !mode.Initial? && p <= Print(e)
    ensures Parse(env, files, Flex(mode, []), p) == None
  {
    var w, s := Start(files, []), Lines(Heading(e)) + (Body(e) + "}\n");
    EntryStart(e);
    ReadAlone(files, mode, p);
    if p != "" {
      if mode.IncludeMode? {
        AfterInclude(w, p, s);
      } else if mode.StrMode? || mode.UriRestMode? {
        InStrings(w, mode, p, s);
      } else {
        InNames(w, mode, p, s);
      }
    }
    HopelessIsRejected(env, files, Flex(mode, []), p);
  }

  // ---------- when the next entry is lost ----------

  /** Without a suspended file, a printed entry arrives if and only if the text before it left
      the INITIAL condition. */
  lemma NextEntryExactly(env: Env, files: Files, mode: Mode, e: Bentry)
    requires Scanned(e) && e.title != "" && HasOption(e)
    ensures Parse(env, files, Flex(mode, []), Print(e)) == if mode.Initial? then Some(Arrives(e)) else None
  {
    if mode.Initial? {
      PrintParseReset(env, files, e);
    } else {
      OtherModeRejects(env, files, mode, e, Print(e));
    }
  }

  lemma EntryIsViable(e: Bentry, ts: seq<Token>)
    requires Scanned(e) && e.title != "" && HasOption(e) && ts <= EntryTokens(e)
    ensures Viable(ts)
  {
    var env := Env(Host({}, {}, {}), None, NoCap);
    ParsePrinted(env, e, []);
    var all := EntryTokens(e);
    assert all + [] == all && all[0] == OPENING[0];
    DefsFromEntry(all);
    assert Accepted(all);
  }

  /** A printed entry that is accepted leaves nothing behind. */
  lemma EntryLeavesNothing(files: Files, e: Bentry)
    requires Scanned(e) && e.title != "" && HasOption(e)
    ensures FlexAfter(files, RESET, Print(e)) == RESET
  {
    ReadPrinted(files, RESET, e);
    EntryIsViable(e, EntryTokens(e));
    ViableIsRead(files, RESET, Print(e));
  }

  lemma HalfLine(w: World, u: string)
    requires Flexes(w) && u != "" && PlainText(u)
    ensures Yields(w, Initial, "title" + (" " + u), [Keyword("title")], StrMode, u)
    ensures Scan(w, StrMode, u) == Lexed([], StrMode)
  {
    TextRule("title");
    ToString(w, "title", u);
    NoNewlineIn(u);
    NoStringWithoutEnd(w, u);
  }

  lemma ScanHalfTitle(w: World, u: string)
    requires Flexes(w) && u != "" && PlainText(u)
    ensures Scan(w, Initial, FIRST_LINE + ("title" + (" " + u))) == Lexed(OPENING + [Keyword("title")], StrMode)
  {
    var s, ts := "title" + (" " + u), OPENING + [Keyword("title")];
    OpeningLine(w, s);
    HalfLine(w.Saw(OPENING), u);
    Chain(w, Initial, FIRST_LINE + s, OPENING, Initial, s, [Keyword("title")], StrMode, u);
    HalfLine(w.Saw(ts), u);
    assert ts + [] == ts;
  }

  lemma TitleIsViable()
    ensures Viable(OPENING + [Keyword("title")])
  {
    var e := KernelEntry("x");
    assert UriStartLen("x") == 0 && FileText("x");
    TitleFirst(e);
    EntryIsViable(e, OPENING + [Keyword("title")]);
  }

  lemma TitleFirst(e: Bentry)
    requires e.title != ""
    ensures OPENING + [Keyword("title")] <= EntryTokens(e)
  {
    HeadingTokens(e, BodyTokens(e) + CLOSING);
    assert TextTokens("title", e.title)[0] == Keyword("title");
  }

  /** A beginning of an entry that ends in its title. */
  lemma HalfTitleLeaves(files: Files, u: string)
    requires u != "" && PlainText(u)
    ensures FlexAfter(files, RESET, FIRST_LINE + ("title" + (" " + u))) == Flex(StrMode, [])
  {
    var p := FIRST_LINE + ("title" + (" " + u));
    ScanHalfTitle(Start(files, []), u);
    ReadAlone(files, Initial, p);
    TitleIsViable();
    ViableIsRead(files, RESET, p);
  }

  /** If a text ends in the title of an entry, then the next entry is lost, whatever it is. */
  lemma HalfTitleLosesNext(env: Env, files: Files, u: string, e: Bentry)
    requires u != "" && PlainText(u)
    ensures var flex := FlexAfter(files, RESET, FIRST_LINE + ("title" + (" " + u)));
            Parse(env, files, flex, Print(e)) == None
  {
    HalfTitleLeaves(files, u);
    OtherModeRejects(env, files, StrMode, e, Print(e));
  }

  // ---------- a file that stays suspended ----------

  lemma BraceIsNotViable()
    ensures !Viable([Punct('{')])
  {
    forall all | [Punct('{')] <= all ensures !Accepted(all) {
      assert all[0] == Punct('{');
    }
  }

  lemma StateInFile(w: World, line: string, rest: string, file: string)
    requires Flexes(w) && All(IsNotNewline, line) && line != "" && EndsWord(line[0])
    requires w.Opened(SkipBlanks(line)) == Some(file) && |Scan(w.Below(), Initial, file).tokens| > 0
    ensures StateAt(w, Initial, "include" + (line + ("\n" + rest)), [], 1)
         == StateAt(w.Below(), Initial, file, ["\n" + rest], 1)
  {
    var s := line + ("\n" + rest);
    UriOfLine(line, rest);
    IncludeMatch(s);
    assert ("include" + s)[7..] == s && [] + ["\n" + rest] == ["\n" + rest];
    NoTokens(w, Lexed([], Initial));
  }

  lemma StateAtBrace(w: World, below: seq<string>)
    requires Flexes(w)
    ensures StateAt(w, Initial, "{", below, 1) == Flex(Initial, below)
  {
    MatchBrace("{");
  }

  lemma ReadFile(w: World, rest: string)
    requires Flexes(w) && w.Opened("f:x") == Some("{")
    ensures Scan(w.Below(), Initial, "{") == Lexed([Punct('{')], Initial)
    ensures var ts := Scan(w, Initial, "include f:x\n" + rest).tokens; ts != [] && ts[0] == Punct('{')
    ensures StateAt(w, Initial, "include f:x\n" + rest, [], 1) == Flex(Initial, ["\n" + rest])
  {
    SkipOne("f:x");
    assert "include f:x\n" + rest == "include" + (" f:x" + ("\n" + rest));
    ScanBrace(w.Below(), '{', "");
    assert ['{'] + "" == "{";
    AtTheEnd(w.Below(), Initial, "{", [Punct('{')], Initial);
    IncludeOpened(w, " f:x", rest, "{");
    StateInFile(w, " f:x", rest, "{");
    StateAtBrace(w.Below(), ["\n" + rest]);
  }

  lemma ErrorFirst(ts: seq<Token>)
    requires ts != [] && !Viable([ts[0]])
    ensures ErrorAt(Viable, ts, 0) == 0
  {
    assert ts[..1] == [ts[0]];
  }

  lemma StopsAtOnce(files: Files, text: string)
    requires var ts := Scan(Start(files, []), Initial, text).tokens; ts != [] && !Viable([ts[0]])
    ensures FlexAfter(files, RESET, text) == StateAt(Start(files, []), Initial, text, [], 1)
  {
    ReadAlone(files, Initial, text);
    ErrorFirst(Read(files, RESET, text).tokens);
  }

  /** A syntax error in an included file: the rest of the text stays suspended. */
  lemma ErrorInFile(rest: string)
    ensures FlexAfter(AllOpen("{"), RESET, "include f:x\n" + rest) == Flex(Initial, ["\n" + rest])
  {
    var w, text := Start(AllOpen("{"), []), "include f:x\n" + rest;
    ColonScheme();
    ReadFile(w, rest);
    BraceIsNotViable();
    StopsAtOnce(AllOpen("{"), text);
  }

  lemma ScanSuspended(w: World, e: Bentry)
    requires Flexes(w) && Scanned(e)
    ensures Scan(w, Initial, "\n" + (Body(e) + "}\n")) == Lexed(BodyTokens(e) + CLOSING, Initial)
  {
    var s, ts := "\n" + (Body(e) + "}\n"), BodyTokens(e) + CLOSING;
    FlexNewline(Body(e) + "}\n");
    ScanNewline(w, Body(e) + "}\n");
    ScanBody(w, e, "}\n");
    ClosingLine(w.Saw(BodyTokens(e)));
    Chain(w, Initial, Body(e) + "}\n", BodyTokens(e), Initial, "}\n", CLOSING, Initial, "");
    Skip(w, Initial, s, Initial, Body(e) + "}\n", ts, Initial, "");
    AtTheEnd(w, Initial, s, ts, Initial);
  }

  lemma ScanHeadAlone(w: World, e: Bentry)
    requires Flexes(w) && Scanned(e)
    ensures Scan(w, Initial, FIRST_LINE + Lines(Heading(e))) == Lexed(OPENING + LinesTokens(Heading(e)), Initial)
  {
    var h := Lines(Heading(e));
    assert h + "" == h;
    ScanHead(w, e, "");
    AtTheEnd(w, Initial, FIRST_LINE + h, OPENING + LinesTokens(Heading(e)), Initial);
  }

  lemma UnwindLast(w: World, mode: Mode, t: string)
    ensures Unwind(w, mode, [t]) == Scan(w.Above(), mode, t)
  {
    var r := Scan(w.Above(), mode, t);
    assert [t][..0] == [] && r.tokens + [] == r.tokens;
  }

  lemma HeadThenBody(files: Files, e: Bentry)
    requires Scanned(e)
    ensures Read(files, Flex(Initial, ["\n" + (Body(e) + "}\n")]), FIRST_LINE + Lines(Heading(e))).tokens
         == EntryTokens(e)
  {
    var t := "\n" + (Body(e) + "}\n");
    var w, head := Start(files, [t]), OPENING + LinesTokens(Heading(e));
    ScanHeadAlone(w, e);
    UnwindLast(w.Saw(head), Initial, t);
    ScanSuspended(w.Saw(head).Above(), e);
    Assoc(head, BodyTokens(e), CLOSING);
    TokensInOrder(e);
  }

  lemma HeadIsPart(d: Bentry, e: Bentry)
    requires d.title == e.title && d.tag == e.tag
    ensures FIRST_LINE + Lines(Heading(e)) <= Print(d)
  {
    Assoc2(FIRST_LINE, Lines(Heading(d)), Body(d) + "}\n");
  }

  /** What is left of a text after a syntax error in an included file completes the beginning
      of a printed entry: it is read as any other entry with that title. */
  lemma SuspendedFileIsRead(env: Env, d: Bentry, e: Bentry)
    requires Scanned(e) && e.title != "" && HasOption(e) && d.title == e.title && d.tag == e.tag
    ensures var flex := FlexAfter(AllOpen("{"), RESET, "include f:x\n" + (Body(e) + "}\n"));
            var p := FIRST_LINE + Lines(Heading(e));
            p <= Print(d) && Parse(env, AllOpen("{"), flex, p) == Some(Arrives(e))
  {
    var files, p := AllOpen("{"), FIRST_LINE + Lines(Heading(e));
    var flex := Flex(Initial, ["\n" + (Body(e) + "}\n")]);
    ErrorInFile(Body(e) + "}\n");
    HeadThenBody(files, e);
    HeadIsPart(d, e);
    ParsePrinted(env, e, []);
    assert EntryTokens(e) + [] == EntryTokens(e) && EntryTokens(e)[0] == OPENING[0];
    ParseFirst(env, files, flex, p, EntryTokens(e));
    assert ParseDefs([]) == Some([]);
  }
}
