/**
 Include statements in the bracket of a URI, and whether a part of such an entry can be
 misread.
 */
module BootEntryIncludes {
  import opened Config
  import opened ConfigLanguage
  import opened ScannerState
  import opened BootEntryScanner
  import opened BootEntryText
  import opened BootEntryRoundTrip
  import opened BootEntryCut
  import opened BootEntrySplit
  import Uri

  // ---------- an include statement ----------

  lemma IncludeRule()
    ensures Plain("include") in WORDS && WithBlank("include") !in WORDS && WithUri("include") !in WORDS
  {
    assert WORDS_A[6] == Plain("include");
    NoIncludeRule(WithBlank("include"));
    NoIncludeRule(WithUri("include"));
  }

  lemma NoIncludeRule(r: Rule)
    requires r == WithBlank("include") || r == WithUri("include")
    ensures r !in WORDS
  {
    assert forall k :: 0 <= k < |WORDS_A| ==> WORDS_A[k] != r;
    assert forall k :: 0 <= k < |WORDS_B| ==> WORDS_B[k] != r;
    assert forall k :: 0 <= k < |WORDS_C| ==> WORDS_C[k] != r;
    assert forall k :: 0 <= k < |WORDS_D| ==> WORDS_D[k] != r;
  }

  lemma IncludeMatch(t: string)
    requires t != "" && EndsWord(t[0])
    ensures InitialMatch("include" + t) == Match(None, IncludeMode, 7)
  {
    var w: Word := "include";
    IncludeRule();
    PlainBeats(WORDS, w, t);
    PickWordRule(w, t, Plain(w));
    RuleBound(Plain(w), w, t);
  }

  lemma ToInclude(w: World, t: string)
    requires Flexes(w) && t != "" && EndsWord(t[0])
    ensures Yields(w, Initial, "include" + t, [], IncludeMode, t)
  {
    IncludeMatch(t);
    assert ("include" + t)[7..] == t;
    ScanStep(w, Initial, "include" + t, Match(None, IncludeMode, 7), t);
  }

  lemma UriOfLine(line: string, rest: string)
    requires All(IsNotNewline, line) && line != ""
    ensures var s := line + ("\n" + rest);
            && IncludeUri(IncludeMode, s) == Some(SkipBlanks(line)) && s[|line|..] == "\n" + rest
            && forall initial: string -> Match :: NextMatch(initial, IncludeMode, s) == Match(None, Initial, |line|)
  {
    var s := line + ("\n" + rest);
    assert s[..|line|] == line && s[|line|] == '\n';
    RunIs(IsNotNewline, s, |line|);
  }

  /** A file that is not opened leaves nothing. */
  lemma IncludeIgnored(w: World, line: string, rest: string)
    requires Flexes(w) && All(IsNotNewline, line) && line != "" && EndsWord(line[0])
    requires w.Opened(SkipBlanks(line)).None?
    ensures Yields(w, Initial, "include" + (line + ("\n" + rest)), [], Initial, rest)
  {
    var s := line + ("\n" + rest);
    UriOfLine(line, rest);
    ToInclude(w, s);
    ScanStep(w, IncludeMode, s, Match(None, Initial, |line|), "\n" + rest);
    FlexNewline(rest);
    ThenNewline(w, IncludeMode, s, [], rest);
    Skip(w, Initial, "include" + s, IncludeMode, s, [], Initial, rest);
  }

  /** The tokens of a file that is opened come first. */
  lemma IncludeOpened(w: World, line: string, rest: string, file: string)
    requires Flexes(w) && All(IsNotNewline, line) && line != "" && EndsWord(line[0])
    requires w.Opened(SkipBlanks(line)) == Some(file)
    ensures var inner := Scan(w.Below(), Initial, file);
            Yields(w, Initial, "include" + (line + ("\n" + rest)), inner.tokens, inner.mode, "\n" + rest)
  {
    var s, inner := line + ("\n" + rest), Scan(w.Below(), Initial, file);
    UriOfLine(line, rest);
    ToInclude(w, s);
    assert Yields(w, IncludeMode, s, inner.tokens, inner.mode, "\n" + rest);
    Skip(w, Initial, "include" + s, IncludeMode, s, inner.tokens, inner.mode, "\n" + rest);
  }

  // ---------- kernels with lines in a bracket ----------

  /** A kernel whose bracket has a first line and something behind it. */
  function LinesKernel(behind: string): string { "a://" + ("(" + ("b\n" + (behind + ")"))) }

  lemma LinesRest(behind: string)
    requires ')' !in behind
    ensures var r := "(" + ("b\n" + (behind + ")"));
            UriRest(r) && BracketLen(r) == |behind| + 4 && r[1..|behind| + 3] == "b\n" + behind
  {
    var r, x := "(" + ("b\n" + (behind + ")")), "b\n" + behind;
    assert r[1..] == x + ")" && r[1..][..|x|] == x && r[1..][|x|] == ')';
    assert forall k :: 0 <= k < |x| ==> x[k] in x;
    RunIs(IsNotClosing, r[1..], |x|);
    assert r[|behind| + 4..] == "";
  }

  lemma LinesBehind(behind: string)
    requires ')' !in behind
    ensures UriText(LinesKernel(behind)) && Behind(LinesKernel(behind)) == Some(behind)
  {
    var r, v := "(" + ("b\n" + (behind + ")")), LinesKernel(behind);
    ShortStart();
    UriStartKept("a://", r);
    assert v[4..] == r;
    LinesRest(behind);
    assert Bracket(v) == "b\n" + behind;
    FirstLineB(behind);
  }

  lemma FirstLineB(behind: string)
    ensures FirstLine("b\n" + behind) == Some(("b", behind))
  {
    var x := "b\n" + behind;
    assert x[1..] == "\n" + behind && x[1..][..0] == "";
    RunIs(IsNotNewline, x[1..], 0);
    assert x[..1] == "b" && x[2..] == behind;
  }

  lemma LinesPart(q: string, tail: string)
    requires ')' !in q && ')' !in tail
    ensures var e := KernelEntry(LinesKernel(q + tail)); Scanned(e) && PartOf(e, 1, q)
  {
    LinesBehind(q + tail);
    assert q <= q + tail;
  }

  /** If what is behind the first line of the bracket is scanned as the closing brace, then
      the entry can be misread. */
  lemma ClosesInBracket(env: Env, files: Files, q: string, tail: string)
    requires ')' !in q && ')' !in tail
    requires PartOf(KernelEntry(LinesKernel(q + tail)), 1, q)
    requires TokensBehind(files, KernelEntry(LinesKernel(q + tail)), 1, q) == CLOSING
    ensures Misread(env, files, KernelEntry(LinesKernel(q + tail)))
  {
    LinesPart(q, tail);
    ClosingEnds(env, files, KernelEntry(LinesKernel(q + tail)), 1, q);
  }

  /** A line end in a bracket matters: there are entries that can be misread, and the scanner
      accepts them. */
  lemma LineEndMatters(env: Env, files: Files)
    ensures var e := KernelEntry(LinesKernel("}\n" + "c")); Scanned(e) && Misread(env, files, e)
  {
    var e := KernelEntry(LinesKernel("}\n" + "c"));
    LinesPart("}\n", "c");
    var w := Start(files, []).Saw(TokensBefore(e, 1));
    ClosingLine(w);
    AtTheEnd(w, Initial, "}\n", CLOSING, Initial);
    ClosesInBracket(env, files, "}\n", "c");
  }

  lemma ScanIgnored(w: World)
    requires Flexes(w)
    ensures Scan(w, Initial, "include x\n}\n") == Lexed(CLOSING, Initial)
  {
    var q := "include x\n}\n";
    SkipOne("x");
    assert q == "include" + (" x" + ("\n" + "}\n"));
    IncludeIgnored(w, " x", "}\n");
    ClosingLine(w);
    Skip(w, Initial, q, Initial, "}\n", CLOSING, Initial, "");
    AtTheEnd(w, Initial, q, CLOSING, Initial);
  }

  /** So does one behind an include statement that is ignored, because its URI has no
      scheme. */
  lemma IgnoredIncludeMatters(env: Env, files: Files)
    ensures var e := KernelEntry(LinesKernel("include x\n}\n" + "c")); Scanned(e) && Misread(env, files, e)
  {
    LinesPart("include x\n}\n", "c");
    ScanIgnored(Start(files, []).Saw(TokensBefore(KernelEntry(LinesKernel("include x\n}\n" + "c")), 1)));
    ClosesInBracket(env, files, "include x\n}\n", "c");
  }

  lemma SkipOne(v: string)
    requires v != "" && !IsBlank(v[0])
    ensures SkipBlanks(" " + v) == v
  {
    OneBlank(v);
  }

  /** Every URI can be opened, and all files look like this. */
  function AllOpen(file: string): Files { (ts, uri) => Some(file) }

  lemma ColonScheme()
    ensures Uri.HasScheme("f:x")
  {
    assert "f:x"[1] == ':' && "f:x"[..1] == "f" && Uri.IsScheme("f");
  }

  lemma ScanOpened(w: World)
    requires Flexes(w) && w.Opened("f:x") == Some("}")
    ensures Scan(w, Initial, "include f:x\n") == Lexed(CLOSING, Initial)
  {
    var q := "include f:x\n";
    SkipOne("f:x");
    assert q == "include" + (" f:x" + ("\n" + ""));
    IncludeOpened(w, " f:x", "", "}");
    ScanBrace(w.Below(), '}', "");
    assert ['}'] + "" == "}";
    AtTheEnd(w.Below(), Initial, "}", CLOSING, Initial);
    FlexNewline("");
    ThenNewline(w, Initial, q, CLOSING, "");
    AtTheEnd(w, Initial, q, CLOSING, Initial);
  }

  /** And an include statement alone, without any brace in the value: but only if a file can
      be opened that has one. */
  lemma IncludeMatters(env: Env)
    ensures var e := KernelEntry(LinesKernel("include f:x\n" + "c")); Scanned(e) && Misread(env, AllOpen("}"), e)
    ensures forall files :: Braceless(files) ==>
              !Splittable(env, files, KernelEntry(LinesKernel("include f:x\n" + "c")))
  {
    var e, files := KernelEntry(LinesKernel("include f:x\n" + "c")), AllOpen("}");
    LinesPart("include f:x\n", "c");
    ColonScheme();
    ScanOpened(Start(files, []).Saw(TokensBefore(e, 1)));
    ClosesInBracket(env, files, "include f:x\n", "c");
    forall files' | Braceless(files') ensures !Splittable(env, files', e) {
      NoBraceInKernel(env, files', e);
    }
  }

  lemma NoBraceInKernel(env: Env, files: Files, e: Bentry)
    requires e == KernelEntry(LinesKernel("include f:x\n" + "c")) && Braceless(files)
    ensures !Splittable(env, files, e)
  {
    forall k, q ensures !EndsAt(env, files, e, k, q) {
      if k < 7 {
        OnlyKernel(e, k);
        HarmlessValue(env, files, e, k, q);
      }
    }
  }

  lemma OnlyKernel(e: Bentry, k: nat)
    requires e == KernelEntry(LinesKernel("include f:x\n" + "c")) && k < 7
    ensures '}' !in OptionFields(e)[k].value
  {
    NoBraceInLines();
    if k == 1 {
      assert OptionFields(e)[k].value == LinesKernel("include f:x\n" + "c");
    }
  }

  lemma NoBraceInLines()
    ensures '}' !in LinesKernel("include f:x\n" + "c")
  {
    var a, b, c := "a://", "(", "b\n";
    assert '}' !in a && '}' !in b && '}' !in c;
    assert '}' !in "include f:x\n" && '}' !in "c" && '}' !in ")";
  }
}
