/**
 Printing a boot entry and parsing the text gives the entry back, up to the
 fields that are not printed and the boot action, which is recomputed.
 */
module BootEntryRoundTrip {
  import opened Config
  import opened ConfigLanguage
  import opened ScannerState
  import opened BootEntryScanner
  import opened ConfigGrammar
  import opened BootEntryText

  /** At least one option line is printed. */
  predicate HasOption(e: Bentry) {
    PrintsOptions(e.action) ==>
      || e.root != "" || e.kernel != "" || e.initrd != "" || e.cmdline != ""
      || e.parmfile != "" || e.insfile != "" || e.bootmap != ""
  }

  /** The action of the last of kernel, insfile and bootmap that is set. */
  function LastAction(e: Bentry): BootAction {
    if e.bootmap != "" then BootmapBoot else if e.insfile != "" then InsfileBoot else KernelBoot
  }

  /** What arrives of an entry: `locked` and `pause` are not printed, and for an
      action without options nothing but title and label. */
  function Arrives(e: Bentry): Bentry {
    if PrintsOptions(e.action) then e.(locked := 0, pause := "", action := LastAction(e))
    else NEW_BENTRY.(title := e.title, tag := e.tag, action := e.action)
  }

  // ---------- scanning the printed text ----------

  function BodyTokens(e: Bentry): seq<Token> {
    if PrintsOptions(e.action) then LinesTokens(OptionFields(e)) else [Keyword(ActionWord(e.action))]
  }

  function EntryTokens(e: Bentry): seq<Token> {
    OPENING + (LinesTokens(Heading(e)) + (BodyTokens(e) + CLOSING))
  }

  lemma TextFits(w: Word, v: string)
    requires w == "title" || w == "label" || w == "cmdline"
    requires PlainText(v)
    ensures Fits(Field(w, v))
  {
    TextRule(w);
  }

  lemma FileFits(w: Word, v: string)
    requires w == "kernel" || w == "initrd" || w == "parmfile"
    requires FileText(v)
    ensures Fits(Field(w, v))
  {
    FileRule(w);
  }

  lemma UriFits(w: Word, v: string)
    requires w == "root" || w == "insfile" || w == "bootmap"
    requires v == "" || UriText(v)
    ensures Fits(Field(w, v))
  {
    UriRule(w);
  }

  lemma HeadingFits(e: Bentry)
    requires Scanned(e)
    ensures AllFit(Heading(e))
  {
    TextFits("title", e.title);
    TextFits("label", e.tag);
  }

  lemma OptionFits(e: Bentry, f: Field)
    requires Scanned(e) && f in OptionFields(e)
    ensures Fits(f)
  {
    var k :| 0 <= k < 7 && f == OptionFields(e)[k];
    if k == 3 {
      TextFits(f.word, f.value);
    } else if k == 0 || k > 4 {
      UriFits(f.word, f.value);
    } else {
      FileFits(f.word, f.value);
    }
  }

  lemma OptionsFit(e: Bentry)
    requires Scanned(e)
    ensures AllFit(OptionFields(e))
  {
    forall f | f in OptionFields(e) ensures Fits(f) {
      OptionFits(e, f);
    }
  }

  lemma ActionLine(w: World, word: Word, rest: string)
    requires Flexes(w) && (word == "reboot" || word == "halt" || word == "exit" || word == "shell")
    ensures Yields(w, Initial, word + "\n" + rest, [Keyword(word)], Initial, rest)
  {
    ActionRule(word);
    BareLine(w, word, rest);
    assert word + "\n" + rest == word + ("\n" + rest);
  }

  lemma ScanBody(w: World, e: Bentry, rest: string)
    requires Flexes(w) && Scanned(e)
    ensures Yields(w, Initial, Body(e) + rest, BodyTokens(e), Initial, rest)
  {
    if PrintsOptions(e.action) {
      OptionsFit(e);
      ScanLines(w, OptionFields(e), rest);
    } else {
      ActionLine(w, ActionWord(e.action), rest);
    }
  }

  /** The first lines of an entry, up to its body. */
  lemma ScanHead(w: World, e: Bentry, rest: string)
    requires Flexes(w) && Scanned(e)
    ensures Yields(w, Initial, FIRST_LINE + (Lines(Heading(e)) + rest), OPENING + LinesTokens(Heading(e)),
                   Initial, rest)
  {
    OpeningLine(w, Lines(Heading(e)) + rest);
    HeadingFits(e);
    ScanLines(w.Saw(OPENING), Heading(e), rest);
    Chain(w, Initial, FIRST_LINE + (Lines(Heading(e)) + rest), OPENING, Initial, Lines(Heading(e)) + rest,
          LinesTokens(Heading(e)), Initial, rest);
  }

  lemma ScanUpToEnd(w: World, e: Bentry, rest: string)
    requires Flexes(w) && Scanned(e)
    ensures Yields(w, Initial, FIRST_LINE + (Lines(Heading(e)) + (Body(e) + rest)),
                   OPENING + LinesTokens(Heading(e)) + BodyTokens(e), Initial, rest)
  {
    var head := OPENING + LinesTokens(Heading(e));
    ScanHead(w, e, Body(e) + rest);
    ScanBody(w.Saw(head), e, rest);
    Chain(w, Initial, FIRST_LINE + (Lines(Heading(e)) + (Body(e) + rest)), head, Initial, Body(e) + rest,
          BodyTokens(e), Initial, rest);
  }

  lemma TokensInOrder(e: Bentry)
    ensures OPENING + LinesTokens(Heading(e)) + BodyTokens(e) + CLOSING == EntryTokens(e)
  {
    var h, b := LinesTokens(Heading(e)), BodyTokens(e);
    Assoc(OPENING + h, b, CLOSING);
    Assoc(OPENING, h, b + CLOSING);
  }

  /** The printed text is scanned as the tokens of its lines, and leaves the scanner in its
      INITIAL condition. */
  lemma ScanPrinted(w: World, e: Bentry)
    requires Flexes(w) && Scanned(e)
    ensures Scan(w, Initial, Print(e)) == Lexed(EntryTokens(e), Initial)
  {
    var most := OPENING + LinesTokens(Heading(e)) + BodyTokens(e);
    ScanUpToEnd(w, e, "}\n");
    ClosingLine(w.Saw(most));
    Chain(w, Initial, Print(e), most, Initial, "}\n", CLOSING, Initial, "");
    TokensInOrder(e);
    AtTheEnd(w, Initial, Print(e), EntryTokens(e), Initial);
  }

  lemma AtTheEnd(w: World, mode: Mode, s: string, ts: seq<Token>, n: Mode)
    requires Yields(w, mode, s, ts, n, "")
    ensures Scan(w, mode, s) == Lexed(ts, n)
  {
    assert ts + [] == ts;
  }

  // ---------- parsing the tokens ----------

  function OptionOf(f: Field): seq<BootOption> {
    if f.value == "" || OptionFor(f.word, f.value).None? then [] else [OptionFor(f.word, f.value).value]
  }

  function OptionsOf(fs: seq<Field>): seq<BootOption> {
    if fs == [] then [] else OptionOf(fs[0]) + OptionsOf(fs[1..])
  }

  function OptionOfAction(a: BootAction): BootOption
    requires !PrintsOptions(a)
  {
    match a
    case Reboot => RebootOption
    case Halt => HaltOption
    case Shell => ShellOption
    case Exit => ExitOption
  }

  /** The options that are printed of an entry. */
  function Options(e: Bentry): seq<BootOption> {
    if PrintsOptions(e.action) then OptionsOf(OptionFields(e)) else [OptionOfAction(e.action)]
  }

  /** The split of a URI into tokens is rejoined unchanged. */
  lemma ParseUriTokens(v: string, rest: seq<Token>)
    requires UriText(v)
    ensures ParseUri(ValueTokens(v) + rest) == Some((v, rest)) && ParseString(ValueTokens(v) + rest) == None
  {
    var n := UriStartLen(v);
    var start, r := v[..n], v[n..];
    var ts := ValueTokens(v) + rest;
    assert start + r == v;
    if r[0] == '(' {
      var b := BracketLen(r);
      assert r[..b] + r[b..] == r;
      assert ts[3..] == rest;
      assert start + r[..b] + r[b..] == v;
    } else {
      assert ts[2..] == rest;
    }
  }

  lemma ParseStringTokens(v: string, rest: seq<Token>)
    ensures ParseString([Str(v)] + rest) == Some((v, rest))
  {
    assert ([Str(v)] + rest)[1..] == rest;
  }

  lemma ParseValueTokens(words: seq<Rule>, w: Word, a: Argument, v: string, rest: seq<Token>)
    requires FitsArgument(words, w, a, v) && v != ""
    ensures TokensFor(w, a, v) != [] && TokensFor(w, a, v)[0] == Keyword(w)
    ensures ParseArgument(a, TokensFor(w, a, v)[1..] + rest) == Some((v, rest))
  {
    if a.AString? || !UriText(v) {
      ParseStringTokens(v, rest);
      assert TokensFor(w, a, v)[1..] == [Str(v)];
    } else {
      ParseUriTokens(v, rest);
      assert TokensFor(w, a, v)[1..] == ValueTokens(v);
    }
  }

  /** The rule optionlist and the end of the entry. */
  function OptionBlock(ts: seq<Token>): Parsed<seq<Item<BootOption>>> { ParseBlock(ParseOption, false, ts) }

  /** Options without sections. */
  function Leaves(os: seq<BootOption>): seq<Item<BootOption>> {
    if os == [] then [] else [Leaf(os[0])] + Leaves(os[1..])
  }

  lemma {:induction false} LeavesConcat(a: seq<BootOption>, b: seq<BootOption>)
    ensures Leaves(a + b) == Leaves(a) + Leaves(b)
    decreases |a|
  {
    if a == [] {
      assert a + b == b;
    } else {
      assert (a + b)[1..] == a[1..] + b;
      LeavesConcat(a[1..], b);
    }
  }

  lemma {:induction false} SelectLeaves(env: Env, depth: nat, os: seq<BootOption>)
    ensures Select(env.host, env.cap, true, depth, Leaves(os)) == os
    decreases |os|
  {
    if os != [] {
      assert Leaves(os)[1..] == Leaves(os[1..]);
      SelectLeaves(env, depth, os[1..]);
    }
  }

  function Prepend(os: seq<BootOption>, r: Parsed<seq<Item<BootOption>>>): Parsed<seq<Item<BootOption>>> {
    if r.Some? then Some((Leaves(os) + r.value.0, r.value.1)) else None
  }

  lemma PrependNothing(r: Parsed<seq<Item<BootOption>>>)
    ensures Prepend([], r) == r
  {
    if r.Some? {
      assert [] + r.value.0 == r.value.0;
    }
  }

  lemma PrependTwice(a: seq<BootOption>, b: seq<BootOption>, r: Parsed<seq<Item<BootOption>>>)
    ensures Prepend(a, Prepend(b, r)) == Prepend(a + b, r)
  {
    LeavesConcat(a, b);
    if r.Some? {
      assert Leaves(a) + (Leaves(b) + r.value.0) == Leaves(a) + Leaves(b) + r.value.0;
    }
  }

  lemma ParseOneOption(ts: seq<Token>, o: BootOption, rest: seq<Token>)
    requires ts != [] && ts[0].Keyword? && ts[0].word != "system" && ParseOption(ts) == Some((o, rest))
    ensures OptionBlock(ts) == Prepend([o], OptionBlock(rest))
  {
    assert [o][1..] == [] && Leaves([o]) == [Leaf(o)];
    assert ParseItem(ParseOption, false, ts) == Some((Leaf(o), rest));
  }

  lemma ParseAs(ts: seq<Token>, w: Word, a: Argument, o: Option<BootOption>, v: string, rest: seq<Token>)
    requires a == ArgumentOf(w) && o == OptionFor(w, v) && o.Some?
    requires ts != [] && ts[0] == Keyword(w) && ParseArgument(a, ts[1..]) == Some((v, rest))
    ensures ParseOption(ts) == Some((o.value, rest))
  {
  }

  lemma NoSystemOption(w: string, v: string)
    requires OptionFor(w, v).Some?
    ensures w != "system"
  {
  }

  lemma ParseOptionLine(ts: seq<Token>, w: Word, a: Argument, o: Option<BootOption>, v: string, rest: seq<Token>)
    requires a == ArgumentOf(w) && o == OptionFor(w, v) && o.Some?
    requires ts != [] && ts[0] == Keyword(w) && ParseArgument(a, ts[1..]) == Some((v, rest))
    ensures OptionBlock(ts) == Prepend([o.value], OptionBlock(rest))
  {
    ParseAs(ts, w, a, o, v, rest);
    NoSystemOption(w, v);
    ParseOneOption(ts, o.value, rest);
  }

  lemma TokensThen(words: seq<Rule>, w: Word, a: Argument, v: string, rest: seq<Token>)
    requires FitsArgument(words, w, a, v) && v != ""
    ensures var ts := TokensFor(w, a, v) + rest;
            ts != [] && ts[0] == Keyword(w) && ParseArgument(a, ts[1..]) == Some((v, rest))
  {
    var line := TokensFor(w, a, v);
    ParseValueTokens(words, w, a, v, rest);
    FirstToken(line, rest);
  }

  lemma FirstToken(line: seq<Token>, rest: seq<Token>)
    requires line != []
    ensures (line + rest)[0] == line[0] && (line + rest)[1..] == line[1..] + rest
  {
  }

  lemma ParseTokens(words: seq<Rule>, w: Word, a: Argument, o: Option<BootOption>, v: string, rest: seq<Token>)
    requires a == ArgumentOf(w) && o == OptionFor(w, v)
    requires FitsArgument(words, w, a, v) && v != "" && o.Some?
    ensures OptionBlock(TokensFor(w, a, v) + rest) == Prepend([o.value], OptionBlock(rest))
  {
    TokensThen(words, w, a, v, rest);
    ParseOptionLine(TokensFor(w, a, v) + rest, w, a, o, v, rest);
  }

  lemma ParseLine(f: Field, rest: seq<Token>)
    requires Fits(f) && OptionFor(f.word, f.value).Some?
    ensures OptionBlock(LineTokens(f) + rest) == Prepend(OptionOf(f), OptionBlock(rest))
  {
    if f.value == "" {
      assert LineTokens(f) + rest == rest;
      PrependNothing(OptionBlock(rest));
    } else {
      ParseTokens(WORDS, f.word, ArgumentOf(f.word), OptionFor(f.word, f.value), f.value, rest);
    }
  }

  lemma {:induction false} ParseLines(fs: seq<Field>, rest: seq<Token>)
    requires forall f :: f in fs ==> Fits(f) && OptionFor(f.word, f.value).Some?
    ensures OptionBlock(LinesTokens(fs) + rest) == Prepend(OptionsOf(fs), OptionBlock(rest))
    decreases |fs|
  {
    if fs == [] {
      assert [] + rest == rest;
      PrependNothing(OptionBlock(rest));
    } else {
      assert fs[0] in fs && forall f :: f in fs[1..] ==> f in fs;
      ParseLine(fs[0], LinesTokens(fs[1..]) + rest);
      ParseLines(fs[1..], rest);
      Assoc(LineTokens(fs[0]), LinesTokens(fs[1..]), rest);
      PrependTwice(OptionOf(fs[0]), OptionsOf(fs[1..]), OptionBlock(rest));
    }
  }

  lemma FieldOption(e: Bentry, f: Field)
    requires f in OptionFields(e)
    ensures OptionFor(f.word, f.value).Some? && f.word != "title" && f.word != "label"
  {
  }

  lemma ActionOption(a: BootAction)
    requires !PrintsOptions(a)
    ensures OptionFor(ActionWord(a), "") == Some(OptionOfAction(a))
    ensures ActionWord(a) != "title" && ActionWord(a) != "label"
  {
  }

  lemma ParseFields(e: Bentry, rest: seq<Token>)
    requires Scanned(e)
    ensures OptionBlock(LinesTokens(OptionFields(e)) + (CLOSING + rest))
         == Some((Leaves(OptionsOf(OptionFields(e))), rest))
  {
    forall f | f in OptionFields(e) ensures Fits(f) && OptionFor(f.word, f.value).Some? {
      OptionFits(e, f);
      FieldOption(e, f);
    }
    ParseLines(OptionFields(e), CLOSING + rest);
    ParseClosing(rest);
    PrependToNone(OptionsOf(OptionFields(e)), rest);
  }

  lemma ParseClosing(rest: seq<Token>)
    ensures OptionBlock(CLOSING + rest) == Some(([], rest))
  {
    assert (CLOSING + rest)[1..] == rest;
  }

  lemma PrependToNone(os: seq<BootOption>, rest: seq<Token>)
    ensures Prepend(os, Some(([], rest))) == Some((Leaves(os), rest))
  {
    assert Leaves(os) + [] == Leaves(os);
  }

  lemma ParseBody(e: Bentry, rest: seq<Token>)
    requires Scanned(e)
    ensures OptionBlock(BodyTokens(e) + (CLOSING + rest)) == Some((Leaves(Options(e)), rest))
  {
    if PrintsOptions(e.action) {
      ParseFields(e, rest);
    } else {
      ActionOption(e.action);
      ParseActionWord(ActionWord(e.action), rest);
    }
  }

  lemma ParseActionWord(w: Word, rest: seq<Token>)
    requires w == "reboot" || w == "halt" || w == "exit" || w == "shell"
    ensures OptionFor(w, "").Some?
            && OptionBlock([Keyword(w)] + (CLOSING + rest)) == Some((Leaves([OptionFor(w, "").value]), rest))
  {
    var ts := [Keyword(w)] + (CLOSING + rest);
    assert ts[1..] == CLOSING + rest;
    ParseClosing(rest);
    ParseOptionLine(ts, w, Nothing, OptionFor(w, ""), "", CLOSING + rest);
    PrependToNone([OptionFor(w, "").value], rest);
  }

  /** No title or label comes next. */
  predicate HeadingDone(ts: seq<Token>) {
    ts != [] && ts[0] != Keyword("title") && ts[0] != Keyword("label")
  }

  lemma {:induction false} HeadingDoneBefore(fs: seq<Field>, rest: seq<Token>)
    requires HeadingDone(rest) && forall f :: f in fs ==> f.word != "title" && f.word != "label"
    ensures HeadingDone(LinesTokens(fs) + rest)
    decreases |fs|
  {
    if fs == [] {
      assert [] + rest == rest;
    } else {
      assert fs[0] in fs && forall f :: f in fs[1..] ==> f in fs;
      HeadingDoneBefore(fs[1..], rest);
      Assoc(LineTokens(fs[0]), LinesTokens(fs[1..]), rest);
    }
  }

  lemma HeadingDoneBody(e: Bentry, rest: seq<Token>)
    ensures HeadingDone(BodyTokens(e) + (CLOSING + rest))
  {
    if PrintsOptions(e.action) {
      forall f | f in OptionFields(e) ensures f.word != "title" && f.word != "label" {
        FieldOption(e, f);
      }
      HeadingDoneBefore(OptionFields(e), CLOSING + rest);
    } else {
      ActionOption(e.action);
    }
  }

  /** The boot entry with these options. */
  function Finish(title: string, tag: string, options: Parsed<seq<Item<BootOption>>>): Parsed<Statement> {
    if options.Some? && options.value.0 != [] then
      Some((BootEntry(title, if tag == "" then None else Some(tag), options.value.0), options.value.1))
    else None
  }

  function TextTokens(word: string, v: string): seq<Token> { if v == "" then [] else [Keyword(word), Str(v)] }

  lemma ParseUntitled(body: seq<Token>)
    requires body != [] && body[0] != Keyword("title")
    ensures ParseEntry(OPENING + body) == None
  {
    assert (OPENING + body)[2] == body[0];
  }

  lemma ParseTitled(title: string, rest: seq<Token>)
    ensures ParseEntry(OPENING + ([Keyword("title"), Str(title)] + rest)) == ParseContent(title, rest)
  {
    var ts := OPENING + ([Keyword("title"), Str(title)] + rest);
    assert ts[4..] == rest;
    assert ts[0] == OPENING[0] && ts[1] == OPENING[1] && ts[2] == Keyword("title") && ts[3] == Str(title);
  }

  lemma ParseLabel(title: string, tag: string, body: seq<Token>)
    requires HeadingDone(body)
    ensures ParseContent(title, TextTokens("label", tag) + body) == Finish(title, tag, OptionBlock(body))
  {
    var ts := TextTokens("label", tag) + body;
    if tag == "" {
      assert ts == body;
    } else {
      assert ts[0] == Keyword("label") && ts[1] == Str(tag) && ts[2..] == body;
    }
  }

  lemma ParseHeading(title: string, tag: string, body: seq<Token>)
    requires HeadingDone(body)
    ensures ParseEntry(OPENING + (TextTokens("title", title) + (TextTokens("label", tag) + body)))
         == if title == "" then None else Finish(title, tag, OptionBlock(body))
  {
    var labelled := TextTokens("label", tag) + body;
    if title == "" {
      assert [] + labelled == labelled;
      assert tag == "" ==> labelled == body;
      ParseUntitled(labelled);
    } else {
      ParseTitled(title, labelled);
      ParseLabel(title, tag, body);
    }
  }

  lemma HeadingTokens(e: Bentry, body: seq<Token>)
    ensures LinesTokens(Heading(e)) + body == TextTokens("title", e.title) + (TextTokens("label", e.tag) + body)
  {
    var h := Heading(e);
    TwoLines(h[0], h[1]);
    TextLine("title", e.title);
    TextLine("label", e.tag);
    Assoc(LineTokens(h[0]), LineTokens(h[1]), body);
  }

  lemma TwoLines(f: Field, g: Field)
    ensures LinesTokens([f, g]) == LineTokens(f) + LineTokens(g)
  {
    assert [f, g][1..] == [g] && [g][1..] == [];
    assert LinesTokens([g]) == LineTokens(g) + LinesTokens([]);
    assert LineTokens(g) + [] == LineTokens(g);
  }

  lemma TextLine(w: Word, v: string)
    requires w == "title" || w == "label"
    ensures LineTokens(Field(w, v)) == TextTokens(w, v)
  {
    assert ArgumentOf(w) == AString;
  }

  // ---------- the entry that arrives ----------

  lemma FoldOption(b: Bentry, f: Field, fs: seq<Field>)
    ensures Fold(SetOption, b, OptionsOf([f] + fs))
         == Fold(SetOption, Fold(SetOption, b, OptionOf(f)), OptionsOf(fs))
  {
    assert ([f] + fs)[1..] == fs;
    var o, os := OptionOf(f), OptionsOf(fs);
    if o != [] {
      assert (o + os)[1..] == os && o[1..] == [];
    } else {
      assert o + os == os;
    }
  }

  function SetField(b: Bentry, f: Field): Bentry {
    if f.value == "" || OptionFor(f.word, f.value).None? then b else SetOption(b, OptionFor(f.word, f.value).value)
  }

  function SetFields(b: Bentry, fs: seq<Field>): Bentry
    decreases |fs|
  {
    if fs == [] then b else SetFields(SetField(b, fs[0]), fs[1..])
  }

  lemma {:induction false} FoldFields(b: Bentry, fs: seq<Field>)
    ensures Fold(SetOption, b, OptionsOf(fs)) == SetFields(b, fs)
    decreases |fs|
  {
    if fs != [] {
      assert [fs[0]] + fs[1..] == fs;
      FoldOption(b, fs[0], fs[1..]);
      FoldOne(b, fs[0]);
      FoldFields(SetField(b, fs[0]), fs[1..]);
    }
  }

  lemma FoldOne(b: Bentry, f: Field)
    ensures Fold(SetOption, b, OptionOf(f)) == SetField(b, f)
  {
    var o := OptionOf(f);
    if o != [] {
      assert o[1..] == [];
    }
  }

  lemma SetNext(b: Bentry, w: Word, v: string, o: BootOption, fs: seq<Field>, b': Bentry)
    requires OptionFor(w, v) == Some(o)
    requires b' == if v == "" then b else SetOption(b, o)
    ensures SetFields(b, [Field(w, v)] + fs) == SetFields(b', fs)
  {
    assert ([Field(w, v)] + fs)[1..] == fs;
  }

  lemma OptionForWords(v: string)
    ensures OptionFor("root", v) == Some(Root(v)) && OptionFor("kernel", v) == Some(Kernel(v))
    ensures OptionFor("initrd", v) == Some(Initrd(v)) && OptionFor("cmdline", v) == Some(Cmdline(v))
    ensures OptionFor("parmfile", v) == Some(Parmfile(v)) && OptionFor("insfile", v) == Some(Insfile(v))
    ensures OptionFor("bootmap", v) == Some(Bootmap(v))
  {
  }

  lemma FirstFields(b: Bentry, e: Bentry, fs: seq<Field>)
    requires b == NEW_BENTRY.(title := e.title, tag := e.tag)
    ensures SetFields(b, [Field("root", e.root)] + ([Field("kernel", e.kernel)] + ([Field("initrd", e.initrd)] + fs)))
         == SetFields(b.(root := e.root, kernel := e.kernel, initrd := e.initrd), fs)
  {
    OptionForWords(e.root);
    OptionForWords(e.kernel);
    OptionForWords(e.initrd);
    var i := [Field("initrd", e.initrd)] + fs;
    SetNext(b, "root", e.root, Root(e.root), [Field("kernel", e.kernel)] + i, b.(root := e.root));
    SetNext(b.(root := e.root), "kernel", e.kernel, Kernel(e.kernel), i, b.(root := e.root, kernel := e.kernel));
    SetNext(b.(root := e.root, kernel := e.kernel), "initrd", e.initrd, Initrd(e.initrd), fs,
            b.(root := e.root, kernel := e.kernel, initrd := e.initrd));
  }

  lemma MiddleFields(b: Bentry, e: Bentry, fs: seq<Field>)
    requires b.cmdline == "" && b.parmfile == ""
    ensures SetFields(b, [Field("cmdline", e.cmdline)] + ([Field("parmfile", e.parmfile)] + fs))
         == SetFields(b.(cmdline := e.cmdline, parmfile := e.parmfile), fs)
  {
    OptionForWords(e.cmdline);
    OptionForWords(e.parmfile);
    var b1 := b.(cmdline := e.cmdline);
    SetNext(b, "cmdline", e.cmdline, Cmdline(e.cmdline), [Field("parmfile", e.parmfile)] + fs, b1);
    SetNext(b1, "parmfile", e.parmfile, Parmfile(e.parmfile), fs, b1.(parmfile := e.parmfile));
  }

  lemma LastFields(b: Bentry, e: Bentry)
    requires b.insfile == "" && b.bootmap == "" && b.action == KernelBoot
    ensures SetFields(b, [Field("insfile", e.insfile)] + ([Field("bootmap", e.bootmap)] + []))
         == b.(insfile := e.insfile, bootmap := e.bootmap, action := LastAction(e))
  {
    OptionForWords(e.insfile);
    OptionForWords(e.bootmap);
    var b1 := b.(insfile := e.insfile, action := if e.insfile == "" then KernelBoot else InsfileBoot);
    SetNext(b, "insfile", e.insfile, Insfile(e.insfile), [Field("bootmap", e.bootmap)] + [], b1);
    SetNext(b1, "bootmap", e.bootmap, Bootmap(e.bootmap), [], b1.(bootmap := e.bootmap, action := LastAction(e)));
  }

  lemma AllFields(e: Bentry)
    ensures OptionFields(e)
         == [Field("root", e.root)] + ([Field("kernel", e.kernel)] + ([Field("initrd", e.initrd)]
          + ([Field("cmdline", e.cmdline)] + ([Field("parmfile", e.parmfile)]
          + ([Field("insfile", e.insfile)] + ([Field("bootmap", e.bootmap)] + []))))))
  {
  }

  lemma FieldsArrive(e: Bentry)
    requires PrintsOptions(e.action)
    ensures SetFields(NEW_BENTRY.(title := e.title, tag := e.tag), OptionFields(e)) == Arrives(e)
  {
    var b := NEW_BENTRY.(title := e.title, tag := e.tag);
    var b1 := b.(root := e.root, kernel := e.kernel, initrd := e.initrd);
    var ins := [Field("insfile", e.insfile)] + ([Field("bootmap", e.bootmap)] + []);
    AllFields(e);
    FirstFields(b, e, [Field("cmdline", e.cmdline)] + ([Field("parmfile", e.parmfile)] + ins));
    MiddleFields(b1, e, ins);
    LastFields(b1.(cmdline := e.cmdline, parmfile := e.parmfile), e);
  }

  lemma OptionsArrive(e: Bentry)
    ensures Fold(SetOption, NEW_BENTRY.(title := e.title, tag := e.tag), Options(e)) == Arrives(e)
  {
    var b := NEW_BENTRY.(title := e.title, tag := e.tag);
    if PrintsOptions(e.action) {
      FoldFields(b, OptionFields(e));
      FieldsArrive(e);
    } else {
      assert [OptionOfAction(e.action)][1..] == [];
    }
  }

  lemma {:induction false} NoOptions(fs: seq<Field>)
    requires forall f :: f in fs ==> OptionFor(f.word, f.value).Some?
    ensures OptionsOf(fs) == [] <==> forall f :: f in fs ==> f.value == ""
    decreases |fs|
  {
    if fs != [] {
      assert fs[0] in fs && forall f :: f in fs[1..] ==> f in fs;
      assert forall f :: f in fs ==> f == fs[0] || f in fs[1..];
      NoOptions(fs[1..]);
    }
  }

  lemma AllEmpty(e: Bentry)
    requires PrintsOptions(e.action)
    ensures (forall f :: f in OptionFields(e) ==> f.value == "") <==> !HasOption(e)
  {
    var fs := OptionFields(e);
    assert fs[0] in fs && fs[1] in fs && fs[2] in fs && fs[3] in fs && fs[4] in fs && fs[5] in fs && fs[6] in fs;
  }

  lemma OptionPrinted(e: Bentry)
    ensures Options(e) != [] <==> HasOption(e)
  {
    if PrintsOptions(e.action) {
      forall f | f in OptionFields(e) ensures OptionFor(f.word, f.value).Some? {
        FieldOption(e, f);
      }
      NoOptions(OptionFields(e));
      AllEmpty(e);
    }
  }

  // ---------- the first entry of a text ----------

  lemma {:induction false} EntriesGrow(env: Env, on: bool, depth: nat, s: State, items: seq<Item<Statement>>)
    ensures s.top.bentries <= EvaluateAll(env, on, depth, s, items).top.bentries
    decreases items
  {
    if items != [] {
      match items[0]
      case Leaf(st) =>
        EntriesGrow(env, on, depth, if on then Evaluate(env, depth, s, st) else Drop(s, st), items[1..]);
      case Section(cond, body) =>
        var inside := Inside(env.host, env.cap, on, depth + 1, cond);
        EntriesGrow(env, inside, depth + 1, s, body);
        EntriesGrow(env, on, depth, EvaluateAll(env, inside, depth + 1, s, body), items[1..]);
    }
  }

  lemma FirstEntry(env: Env, st: Statement, items: seq<Item<Statement>>)
    requires st.BootEntry?
    ensures var bs := EntriesOf(env, [Leaf(st)] + items);
            bs != [] && bs[0] == EntryOf(st.title, st.tag, Select(env.host, env.cap, true, 0, st.options))
  {
    var all := [Leaf(st)] + items;
    assert all[1..] == items;
    EntriesGrow(env, true, 0, Evaluate(env, 0, INITIAL, st), items);
  }

  lemma DefsFromEntry(ts: seq<Token>)
    requires ts != [] && ts[0] == Keyword("boot_entry")
    ensures ParseDefs(ts)
         == var first := ParseEntry(ts);
            if first.None? || ParseDefs(first.value.1).None? then None
            else Some([Leaf(first.value.0)] + ParseDefs(first.value.1).value)
  {
    EntryIsSuffix(ts);
    EntryIsStatement(ts);
  }

  lemma EntryIsStatement(ts: seq<Token>)
    requires ts != [] && ts[0] == Keyword("boot_entry")
    ensures ParseStatement(ts) == ParseEntry(ts)
  {
  }

  /** The statements of a list and then others. */
  lemma FirstOfEntry(env: Env, st: Statement, items: seq<Item<Statement>>)
    requires st.BootEntry?
    ensures FirstOf(env, [Leaf(st)] + items)
         == if Crashes(env, true, 0, items) then None
            else Some(EntryOf(st.title, st.tag, Select(env.host, env.cap, true, 0, st.options)))
  {
    FirstEntry(env, st, items);
    assert ([Leaf(st)] + items)[1..] == items;
  }

  /** What may follow the first entry of a text. */
  predicate MayFollow(env: Env, ts: seq<Token>) {
    ParseDefs(ts).Some? && !Crashes(env, true, 0, ParseDefs(ts).value)
  }

  /** Tokens that start with a boot entry. */
  lemma ParseFirst(env: Env, files: Files, flex: Flex, text: string, ts: seq<Token>)
    requires ts == Read(files, flex, text).tokens && ts != [] && ts[0] == Keyword("boot_entry")
    ensures var first := ParseEntry(ts);
            Parse(env, files, flex, text)
            == if first.None? || !MayFollow(env, first.value.1) then None
               else Some(EntryOf(first.value.0.title, first.value.0.tag,
                                 Select(env.host, env.cap, true, 0, first.value.0.options)))
  {
    DefsFromEntry(ts);
    var first := ParseEntry(ts);
    if first.Some? && ParseDefs(first.value.1).Some? {
      FirstOfEntry(env, first.value.0, ParseDefs(first.value.1).value);
    }
  }

  // ---------- the round trip ----------

  /** The tokens of the files that are still suspended. */
  function Suspended(files: Files, flex: Flex, seen: seq<Token>): seq<Token> {
    Unwind(Start(files, flex.stack).Saw(seen), Initial, flex.stack).tokens
  }

  lemma ReadPrinted(files: Files, flex: Flex, e: Bentry)
    requires Scanned(e) && flex.mode.Initial?
    ensures Read(files, flex, Print(e)).tokens == EntryTokens(e) + Suspended(files, flex, EntryTokens(e))
    ensures flex.stack == [] ==> Read(files, flex, Print(e)) == Lexed(EntryTokens(e), Initial)
  {
    ScanPrinted(Start(files, flex.stack), e);
    assert EntryTokens(e) + [] == EntryTokens(e);
  }

  /** Parsing a printed entry in the INITIAL condition succeeds exactly if it has a title and
      an option line, and if what is left of files that are suspended can follow it; then it
      yields the entry up to what is not printed. */
  lemma PrintParse(env: Env, files: Files, flex: Flex, e: Bentry)
    requires Scanned(e) && flex.mode.Initial?
    ensures Parse(env, files, flex, Print(e))
         == if e.title != "" && HasOption(e) && MayFollow(env, Suspended(files, flex, EntryTokens(e)))
            then Some(Arrives(e)) else None
  {
    var rest := Suspended(files, flex, EntryTokens(e));
    ReadPrinted(files, flex, e);
    ParsePrinted(env, e, rest);
    assert EntryTokens(e)[0] == OPENING[0];
    ParseFirst(env, files, flex, Print(e), EntryTokens(e) + rest);
  }

  /** The state before anything was scanned. */
  lemma PrintParseReset(env: Env, files: Files, e: Bentry)
    requires Scanned(e)
    ensures Parse(env, files, RESET, Print(e)) == if e.title != "" && HasOption(e) then Some(Arrives(e)) else None
  {
    PrintParse(env, files, RESET, e);
    assert ParseDefs([]) == Some([]);
  }

  lemma ParsePrinted(env: Env, e: Bentry, rest: seq<Token>)
    requires Scanned(e)
    ensures var first := ParseEntry(EntryTokens(e) + rest);
            if e.title == "" || !HasOption(e) then first == None
            else first.Some? && first.value.1 == rest
                 && EntryOf(first.value.0.title, first.value.0.tag,
                            Select(env.host, env.cap, true, 0, first.value.0.options)) == Arrives(e)
  {
    var body := BodyTokens(e) + (CLOSING + rest);
    EntryThen(e, rest);
    HeadingTokens(e, body);
    HeadingDoneBody(e, rest);
    ParseHeading(e.title, e.tag, body);
    ParseBody(e, rest);
    OptionPrinted(e);
    OptionsArrive(e);
    SelectLeaves(env, 0, Options(e));
  }

  lemma EntryThen(e: Bentry, rest: seq<Token>)
    ensures EntryTokens(e) + rest == OPENING + (LinesTokens(Heading(e)) + (BodyTokens(e) + (CLOSING + rest)))
  {
    var h, b := LinesTokens(Heading(e)), BodyTokens(e);
    Assoc(OPENING, h + (b + CLOSING), rest);
    Assoc(h, b + CLOSING, rest);
    Assoc(b, CLOSING, rest);
  }

  /** Nothing is lost exactly for entries with a title and an option line, without
      `lock` and `pause`, whose action is that of the last of kernel, insfile and
      bootmap, or which consist of nothing but title, label and action. */
  lemma PrintParseExact(env: Env, files: Files, e: Bentry)
    requires Scanned(e)
    ensures Parse(env, files, RESET, Print(e)) == Some(e)
       <==> e.title != "" && e.locked == 0 && e.pause == ""
            && if PrintsOptions(e.action) then HasOption(e) && e.action == LastAction(e)
               else e == NEW_BENTRY.(title := e.title, tag := e.tag, action := e.action)
  {
    PrintParseReset(env, files, e);
  }

  lemma ArrivesScanned(e: Bentry)
    requires Scanned(e)
    ensures Scanned(Arrives(e))
  {
  }

  lemma ArrivesTwice(e: Bentry)
    ensures Arrives(Arrives(e)) == Arrives(e) && Arrives(e).title == e.title
            && (HasOption(Arrives(e)) <==> HasOption(e))
  {
  }

  /** A second round trip loses nothing more. */
  lemma SecondRoundTrip(env: Env, files: Files, e: Bentry)
    requires Scanned(e) && Parse(env, files, RESET, Print(e)).Some?
    ensures Scanned(Arrives(e))
    ensures Parse(env, files, RESET, Print(Arrives(e))) == Parse(env, files, RESET, Print(e))
  {
    PrintParseReset(env, files, e);
    ArrivesScanned(e);
    PrintParseReset(env, files, Arrives(e));
    ArrivesTwice(e);
  }

  // ---------- the programs ----------

  /** print_if_available(). */
  method PrintIfAvailable(out: string, word: Word, value: string) returns (r: string)
    ensures r == out + Line(Field(word, value))
  {
    if value == "" {
      return out;
    }
    r := out + word + " " + value + "\n";
    assert r == out + Line(Field(word, value));
  }

  /** The lines of a list of fields. */
  method PrintFields(out: string, fs: seq<Field>) returns (r: string)
    ensures r == out + Lines(fs)
  {
    r := out;
    var i := 0;
    while i < |fs|
      invariant i <= |fs| && out + Lines(fs) == r + Lines(fs[i..])
    {
      AppendLine(r, fs[i..]);
      r := PrintIfAvailable(r, fs[i].word, fs[i].value);
      assert fs[i..][1..] == fs[i + 1..];
      i := i + 1;
    }
    assert r + "" == r;
  }

  /** cfg_bentry_print(): what is written to standard output, and what is read of it. */
  method PrintEntry(e: Bentry) returns (out: string)
    ensures out == Print(e)
    ensures forall env: Env, files: Files :: Scanned(e) ==>
              Parse(env, files, RESET, out) == if e.title != "" && HasOption(e) then Some(Arrives(e)) else None
  {
    out := PrintFields("boot_entry {\n", Heading(e));
    if PrintsOptions(e.action) {
      out := PrintFields(out, OptionFields(e));
    } else {
      out := out + ActionWord(e.action) + "\n";
      Assoc2("boot_entry {\n" + Lines(Heading(e)), ActionWord(e.action), "\n");
    }
    out := out + "}\n";
    JoinEntry("boot_entry {\n", Lines(Heading(e)), Body(e), "}\n");
    forall env: Env, files: Files | Scanned(e)
      ensures Parse(env, files, RESET, out) == if e.title != "" && HasOption(e) then Some(Arrives(e)) else None
    {
      PrintParseReset(env, files, e);
    }
  }

  lemma JoinEntry(a: string, b: string, c: string, d: string)
    ensures a + b + c + d == a + (b + (c + d))
  {
  }

  lemma AppendLine(out: string, fs: seq<Field>)
    requires fs != []
    ensures out + Lines(fs) == out + Line(fs[0]) + Lines(fs[1..])
  {
    Assoc2(out, Line(fs[0]), Lines(fs[1..]));
  }

}
