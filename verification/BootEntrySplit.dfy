/**
 When a part of a printed boot entry is taken for a boot entry: exactly if the bracket
 of a URI contains, behind a line end, what can end an entry. The include statements in
 the bracket count with what they open.
 */
module BootEntrySplit {
  import opened Config
  import opened ConfigLanguage
  import opened ScannerState
  import opened BootEntryScanner
  import opened ConfigGrammar
  import opened BootEntryText
  import opened BootEntryRoundTrip
  import opened BootEntryCut

  /** What stands in the bracket of a URI behind its first complete line. */
  function Behind(v: string): Option<string> {
    if HasBracket(v) && FirstLine(Bracket(v)).Some? then Some(FirstLine(Bracket(v)).value.1) else None
  }

  /** The tokens up to there, of the line that is cut and of the lines before it. */
  function CutLineTokens(f: Field): seq<Token>
    requires Behind(f.value).Some?
  {
    [Keyword(f.word)] + [UriStart(f.value[..UriStartLen(f.value)])] + [Str(FirstLine(Bracket(f.value)).value.0)]
  }

  function TokensBefore(e: Bentry, k: nat): seq<Token>
    requires k < 7 && Behind(OptionFields(e)[k].value).Some?
  {
    OPENING + LinesTokens(Heading(e)) + LinesTokens(OptionFields(e)[..k]) + CutLineTokens(OptionFields(e)[k])
  }

  /** What the scanner makes of `q` at that place. */
  function TokensBehind(files: Files, e: Bentry, k: nat, q: string): seq<Token>
    requires k < 7 && Behind(OptionFields(e)[k].value).Some?
  {
    Scan(Start(files, []).Saw(TokensBefore(e, k)), Initial, q).tokens
  }

  /** Options and the closing brace of the entry, and possibly further definitions. */
  predicate EndsEntry(env: Env, ts: seq<Token>) {
    OptionBlock(ts).Some? && MayFollow(env, OptionBlock(ts).value.1)
  }

  /** A beginning of the text behind the first line of a bracket. */
  predicate PartOf(e: Bentry, k: nat, q: string) {
    k < 7 && Behind(OptionFields(e)[k].value).Some? && q <= Behind(OptionFields(e)[k].value).value
  }

  /** It can end the entry. */
  predicate EndsAt(env: Env, files: Files, e: Bentry, k: nat, q: string) {
    PartOf(e, k, q) && EndsEntry(env, TokensBehind(files, e, k, q))
  }

  /** An entry with the end of an entry in a bracket. */
  ghost predicate Splittable(env: Env, files: Files, e: Bentry) {
    e.title != "" && PrintsOptions(e.action) && exists k, q :: EndsAt(env, files, e, k, q)
  }

  // ---------- where an entry can be cut ----------

  /** The entry up to line `k` of its options, cut in the bracket behind `q`. */
  function CutText(e: Bentry, k: nat, q: string): string
    requires k < 7 && Behind(OptionFields(e)[k].value).Some?
  {
    FIRST_LINE + (Lines(Heading(e)) + (Lines(OptionFields(e)[..k]) + CutLineText(OptionFields(e)[k], q)))
  }

  function CutLineText(f: Field, q: string): string
    requires Behind(f.value).Some?
  {
    f.word + (" " + (f.value[..UriStartLen(f.value)] + ("(" + (Front(Bracket(f.value)) + q))))
  }

  lemma HeadingNotInside(e: Bentry, k: nat, p: string)
    requires k < 2
    ensures !CutInside(Heading(e)[k], p)
  {
  }

  lemma HeadingOpen(w: World, e: Bentry, p: string)
    requires Flexes(w) && Scanned(e) && p <= Lines(Heading(e))
    ensures Open(Scan(w, Initial, p).tokens)
  {
    HeadingFits(e);
    var k := CutLines(w, Heading(e), p);
    if !Open(Scan(w, Initial, p).tokens) {
      HeadingNotInside(e, k, p[|Lines(Heading(e)[..k])|..]);
    }
  }

  lemma BodyOpen(w: World, e: Bentry, p: string) returns (k: nat)
    requires Flexes(w) && Scanned(e) && p <= Body(e)
    ensures Open(Scan(w, Initial, p).tokens) || (PrintsOptions(e.action) && k < 7 && CutAt(OptionFields(e), k, p))
  {
    k := 0;
    if PrintsOptions(e.action) {
      OptionsFit(e);
      k := CutLines(w, OptionFields(e), p);
    } else {
      CutAction(w, ActionWord(e.action), p);
    }
  }

  /** What is left of an entry without its last line either has no closing brace for
      the scanner, or is cut in a bracket. */
  lemma CutEntry(w: World, e: Bentry, r: string) returns (k: nat, b: string)
    requires Flexes(w) && Scanned(e) && r <= Lines(Heading(e)) + Body(e)
    ensures Open(Scan(w, Initial, r).tokens)
         || (PrintsOptions(e.action) && k < 7 && CutAt(OptionFields(e), k, b) && r == Lines(Heading(e)) + b)
  {
    k, b := 0, "";
    var h, ts := Lines(Heading(e)), LinesTokens(Heading(e));
    CutPlace(h, Body(e), r);
    if |r| < |h| {
      HeadingOpen(w, e, r);
    } else {
      b := r[|h|..];
      k := BodyOpen(w.Saw(ts), e, b);
      HeadingFits(e);
      ScanLines(w, Heading(e), b);
      LinesOpen(Heading(e));
      if Open(Scan(w.Saw(ts), Initial, b).tokens) {
        OpenConcat(ts, Scan(w.Saw(ts), Initial, b).tokens);
      }
    }
  }

  lemma AfterFirstLine(w: World, p: string)
    requires Flexes(w) && Open(Scan(w.Saw(OPENING), Initial, p).tokens)
    ensures Open(Scan(w, Initial, FIRST_LINE + p).tokens)
  {
    OpeningLine(w, p);
    OpenConcat(OPENING, Scan(w.Saw(OPENING), Initial, p).tokens);
  }

  lemma CutLineIs(f: Field, p: string) returns (q: string)
    requires CutInside(f, p) && p <= f.word + (" " + f.value) && FirstLine(p[BracketPlace(f)..]).Some?
    ensures Behind(f.value).Some? && q <= Behind(f.value).value && p == CutLineText(f, q)
  {
    var x := p[BracketPlace(f)..];
    InsideText(f, p);
    FirstLineCut(Bracket(f.value), x);
    q := FirstLine(x).value.1;
  }

  /** A text that is cut in a bracket, from its front. */
  lemma CutTextIs(e: Bentry, k: nat, b: string) returns (q: string)
    requires k < 7 && CutAt(OptionFields(e), k, b)
    ensures Behind(OptionFields(e)[k].value).Some? && q <= Behind(OptionFields(e)[k].value).value
    ensures FIRST_LINE + (Lines(Heading(e)) + b) == CutText(e, k, q)
  {
    var fs := OptionFields(e);
    var a := |Lines(fs[..k])|;
    q := CutLineIs(fs[k], b[a..]);
    assert b == b[..a] + b[a..];
  }

  // ---------- what is read of an entry that is cut ----------

  /** The option of the line that is cut: the URI ends with the first line of its
      bracket. */
  function CutOption(f: Field): Option<BootOption>
    requires Behind(f.value).Some?
  {
    OptionFor(f.word, f.value[..UriStartLen(f.value)] + FirstLine(Bracket(f.value)).value.0)
  }

  /** The options that are read, if these tokens are behind the cut. */
  function CutOptions(e: Bentry, k: nat, ts: seq<Token>): Parsed<seq<Item<BootOption>>>
    requires k < 7 && Behind(OptionFields(e)[k].value).Some?
  {
    var f := OptionFields(e)[k];
    if CutOption(f).None? then None
    else Prepend(OptionsOf(OptionFields(e)[..k]), Prepend([CutOption(f).value], OptionBlock(ts)))
  }

  lemma FrontInside(v: string, q: string)
    requires Behind(v).Some? && q <= Behind(v).value
    ensures ')' !in Front(Bracket(v)) + q && Front(Bracket(v)) + q <= Bracket(v)
  {
    BracketSplits(v);
    FrontAndBehind(Bracket(v));
    var s := Front(Bracket(v)) + q;
    assert s <= Bracket(v);
    assert forall c :: c in s ==> c in Bracket(v);
  }

  lemma ScanCutLine(w: World, f: Field, q: string)
    requires Flexes(w) && Fits(f) && !ArgumentOf(f.word).AString? && Behind(f.value).Some? && q <= Behind(f.value).value
    ensures Yields(w, Initial, CutLineText(f, q), CutLineTokens(f), Initial, q)
  {
    var x := Bracket(f.value);
    ByArgument(WORDS, f.word, ArgumentOf(f.word), f.value);
    UriStartAlone(f.value);
    FrontInside(f.value, q);
    ScanInside(w, f.word, f.value[..UriStartLen(f.value)], Front(x) + q);
    FrontThen(x, q);
  }

  lemma StringOption(e: Bentry, k: nat)
    requires k < 7
    ensures ArgumentOf(OptionFields(e)[k].word).AString? ==> k == 3
  {
  }

  lemma OptionWord(e: Bentry, k: nat)
    requires k < 7 && Behind(OptionFields(e)[k].value).Some? && Scanned(e)
    ensures var f := OptionFields(e)[k]; Fits(f) && !ArgumentOf(f.word).AString? && CutOption(f).Some?
  {
    var f := OptionFields(e)[k];
    OptionFits(e, f);
    StringOption(e, k);
    if k == 3 {
      NoBracketInString(e.cmdline);
    }
    WordOption(e, k, f.value[..UriStartLen(f.value)] + FirstLine(Bracket(f.value)).value.0);
  }

  lemma WordOption(e: Bentry, k: nat, v: string)
    requires k < 7
    ensures var w := OptionFields(e)[k].word; OptionFor(w, v).Some? && w != "label" && w != "title"
  {
  }

  lemma NoBracketInString(v: string)
    requires PlainText(v)
    ensures Behind(v).None?
  {
    if Behind(v).Some? {
      NoNewlineIn(v);
      BracketSplits(v);
      assert forall c :: c in Bracket(v) ==> c in v;
      NoLine(Bracket(v));
    }
  }

  lemma {:induction false} NoLine(x: string)
    requires '\n' !in x
    ensures FirstLine(x).None?
    decreases |x|
  {
    if x != "" {
      if x[0] == '(' {
        NoLine(x[1..]);
      } else {
        RunToEnd(x[1..]);
      }
    }
  }

  lemma ScanCutOptions(w: World, fs: seq<Field>, k: nat, q: string)
    requires Flexes(w) && AllFit(fs) && k < |fs| && !ArgumentOf(fs[k].word).AString?
    requires Behind(fs[k].value).Some? && q <= Behind(fs[k].value).value
    ensures Yields(w, Initial, Lines(fs[..k]) + CutLineText(fs[k], q),
                   LinesTokens(fs[..k]) + CutLineTokens(fs[k]), Initial, q)
  {
    var ts, s := LinesTokens(fs[..k]), Lines(fs[..k]) + CutLineText(fs[k], q);
    assert fs[k] in fs && forall f :: f in fs[..k] ==> f in fs;
    ScanLines(w, fs[..k], CutLineText(fs[k], q));
    ScanCutLine(w.Saw(ts), fs[k], q);
    Chain(w, Initial, s, ts, Initial, CutLineText(fs[k], q), CutLineTokens(fs[k]), Initial, q);
  }

  lemma ScanCutText(w: World, e: Bentry, k: nat, q: string)
    requires Flexes(w) && Scanned(e) && PartOf(e, k, q)
    ensures Yields(w, Initial, CutText(e, k, q), TokensBefore(e, k), Initial, q)
  {
    var fs, head := OptionFields(e), OPENING + LinesTokens(Heading(e));
    var body, ts := Lines(fs[..k]) + CutLineText(fs[k], q), LinesTokens(fs[..k]) + CutLineTokens(fs[k]);
    OptionWord(e, k);
    OptionsFit(e);
    ScanHead(w, e, body);
    ScanCutOptions(w.Saw(head), fs, k, q);
    Chain(w, Initial, CutText(e, k, q), head, Initial, body, ts, Initial, q);
    Assoc(head, LinesTokens(fs[..k]), CutLineTokens(fs[k]));
  }

  lemma ReadCutText(files: Files, e: Bentry, k: nat, q: string)
    requires Scanned(e) && PartOf(e, k, q)
    ensures Read(files, RESET, CutText(e, k, q)).tokens == TokensBefore(e, k) + TokensBehind(files, e, k, q)
  {
    ScanCutText(Start(files, []), e, k, q);
    ReadAlone(files, Initial, CutText(e, k, q));
  }

  lemma ParseUriLine(w: Word, start: string, line: string, rest: seq<Token>)
    requires (ArgumentOf(w).AUri? || ArgumentOf(w).StringOrUri?) && OptionFor(w, start + line).Some?
    ensures OptionBlock([Keyword(w)] + [UriStart(start)] + [Str(line)] + rest)
         == Prepend([OptionFor(w, start + line).value], OptionBlock(rest))
  {
    var ts := [Keyword(w)] + [UriStart(start)] + [Str(line)] + rest;
    assert ts[1..][2..] == rest;
    ParseOptionLine(ts, w, ArgumentOf(w), OptionFor(w, start + line), start + line, rest);
  }

  lemma HasArgument(f: Field)
    requires Fits(f) && f.value != ""
    ensures !ArgumentOf(f.word).Nothing?
  {
  }

  lemma ParseCutLine(f: Field, rest: seq<Token>)
    requires Fits(f) && !ArgumentOf(f.word).AString? && Behind(f.value).Some? && CutOption(f).Some?
    ensures OptionBlock(CutLineTokens(f) + rest) == Prepend([CutOption(f).value], OptionBlock(rest))
  {
    HasArgument(f);
    ParseUriLine(f.word, f.value[..UriStartLen(f.value)], FirstLine(Bracket(f.value)).value.0, rest);
  }

  lemma ParseCutOptions(e: Bentry, k: nat, rest: seq<Token>)
    requires Scanned(e) && k < 7 && Behind(OptionFields(e)[k].value).Some?
    ensures var fs := OptionFields(e);
            OptionBlock(LinesTokens(fs[..k]) + (CutLineTokens(fs[k]) + rest)) == CutOptions(e, k, rest)
  {
    var fs := OptionFields(e);
    OptionWord(e, k);
    forall f | f in fs[..k] ensures Fits(f) && OptionFor(f.word, f.value).Some? {
      OptionFits(e, f);
      FieldOption(e, f);
    }
    ParseLines(fs[..k], CutLineTokens(fs[k]) + rest);
    ParseCutLine(fs[k], rest);
  }

  lemma BeforeThen(e: Bentry, k: nat, rest: seq<Token>)
    requires k < 7 && Behind(OptionFields(e)[k].value).Some?
    ensures TokensBefore(e, k) + rest
         == OPENING + (LinesTokens(Heading(e))
                       + (LinesTokens(OptionFields(e)[..k]) + (CutLineTokens(OptionFields(e)[k]) + rest)))
  {
    var h, l, c := LinesTokens(Heading(e)), LinesTokens(OptionFields(e)[..k]), CutLineTokens(OptionFields(e)[k]);
    Assoc(OPENING + h + l, c, rest);
    Assoc(OPENING + h, l, c + rest);
    Assoc(OPENING, h, l + (c + rest));
  }

  /** The entry that is read instead. */
  lemma ParseCutEntry(e: Bentry, k: nat, rest: seq<Token>)
    requires Scanned(e) && k < 7 && Behind(OptionFields(e)[k].value).Some?
    ensures var ts := TokensBefore(e, k) + rest;
            ts != [] && ts[0] == Keyword("boot_entry")
            && ParseEntry(ts) == if e.title == "" then None else Finish(e.title, e.tag, CutOptions(e, k, rest))
  {
    var fs := OptionFields(e);
    var body := LinesTokens(fs[..k]) + (CutLineTokens(fs[k]) + rest);
    OptionWord(e, k);
    BeforeThen(e, k, rest);
    HeadingTokens(e, body);
    forall f | f in fs[..k] ensures f.word != "title" && f.word != "label" {
      FieldOption(e, f);
    }
    WordOption(e, k, "");
    HeadingDoneBefore(fs[..k], CutLineTokens(fs[k]) + rest);
    ParseHeading(e.title, e.tag, body);
    ParseCutOptions(e, k, rest);
    assert OPENING[0] == Keyword("boot_entry");
  }

  lemma CutOptionsSome(e: Bentry, k: nat, ts: seq<Token>)
    requires Scanned(e) && k < 7 && Behind(OptionFields(e)[k].value).Some?
    ensures CutOptions(e, k, ts).Some? <==> OptionBlock(ts).Some?
    ensures CutOptions(e, k, ts).Some? ==>
              CutOptions(e, k, ts).value.0 != [] && CutOptions(e, k, ts).value.1 == OptionBlock(ts).value.1
  {
    OptionWord(e, k);
  }

  /** The options of the entry that is read. */
  function CutSelection(env: Env, e: Bentry, k: nat, ts: seq<Token>): seq<BootOption>
    requires k < 7 && Behind(OptionFields(e)[k].value).Some?
  {
    if CutOptions(e, k, ts).None? then [] else Select(env.host, env.cap, true, 0, CutOptions(e, k, ts).value.0)
  }

  /** The entry that is read: the printed options before the cut, the one that is cut, and
      those behind it. */
  function CutEntryOf(env: Env, e: Bentry, k: nat, ts: seq<Token>): Bentry
    requires k < 7 && Behind(OptionFields(e)[k].value).Some?
  {
    Fold(SetOption, NEW_BENTRY.(title := e.title, tag := e.tag), CutSelection(env, e, k, ts))
  }

  lemma ParseCutText(env: Env, files: Files, e: Bentry, k: nat, q: string)
    requires Scanned(e) && PartOf(e, k, q)
    ensures var ts := TokensBehind(files, e, k, q);
            Parse(env, files, RESET, CutText(e, k, q))
            == if e.title != "" && EndsEntry(env, ts) then Some(CutEntryOf(env, e, k, ts)) else None
  {
    var ts := TokensBehind(files, e, k, q);
    ReadCutText(files, e, k, q);
    ParseCutEntry(e, k, ts);
    CutOptionsSome(e, k, ts);
    ParseFirst(env, files, RESET, CutText(e, k, q), TokensBefore(e, k) + ts);
  }

  // ---------- the parts of a printed entry ----------

  lemma Rearrange(w: string, start: string, front: string, q: string, t: string, tail: string)
    ensures w + (" " + ((start + ("(" + ((front + (q + t)) + tail))) + "\n" + ""))
         == w + (" " + (start + ("(" + (front + q)))) + (t + tail + "\n")
  {
  }

  lemma LineParts(f: Field, q: string) returns (rest: string)
    requires Behind(f.value).Some? && q <= Behind(f.value).value
    ensures Line(f) == CutLineText(f, q) + rest && |rest| >= 2
  {
    var v := f.value;
    var r := v[UriStartLen(v)..];
    var t, tail := Behind(v).value[|q|..], ")" + r[BracketLen(r)..];
    BracketSplits(v);
    FrontAndBehind(Bracket(v));
    assert q + t == Behind(v).value;
    Rearrange(f.word, v[..UriStartLen(v)], Front(Bracket(v)), q, t, tail);
    rest := t + tail + "\n";
  }

  lemma SplitLines(fs: seq<Field>, k: nat)
    requires k < |fs|
    ensures Lines(fs) == Lines(fs[..k]) + (Line(fs[k]) + Lines(fs[k + 1..]))
  {
    assert fs == fs[..k] + fs[k..] && fs[k..][1..] == fs[k + 1..];
    LinesConcat(fs[..k], fs[k..]);
  }

  lemma Regroup(a: string, b: string, c: string, d: string, r: string, l: string, z: string)
    ensures a + (b + (c + ((d + r) + l))) + z == a + (b + (c + d)) + (r + l + z)
  {
  }

  lemma TextIsPart(e: Bentry, k: nat, q: string)
    requires PrintsOptions(e.action) && PartOf(e, k, q)
    ensures CutText(e, k, q) <= Print(e) && |CutText(e, k, q)| < |Print(e)| - 1
  {
    var fs := OptionFields(e);
    var rest := LineParts(fs[k], q);
    SplitLines(fs, k);
    TwoEnds(e);
    Regroup(FIRST_LINE, Lines(Heading(e)), Lines(fs[..k]), CutLineText(fs[k], q), rest, Lines(fs[k + 1..]), "}\n");
  }

  /** A part of a printed entry that is accepted was cut behind the end of an entry in
      a bracket. */
  lemma PartIsCut(env: Env, files: Files, e: Bentry, p: string) returns (k: nat, q: string)
    requires Scanned(e) && p <= Print(e) && |p| < |Print(e)| - 1 && Parse(env, files, RESET, p).Some?
    ensures EndsAt(env, files, e, k, q) && p == CutText(e, k, q) && PrintsOptions(e.action) && e.title != ""
  {
    var b, w := "", Start(files, []);
    TwoEnds(e);
    CutPlace(FIRST_LINE + (Lines(Heading(e)) + Body(e)), "}\n", p);
    CutPlace(FIRST_LINE, Lines(Heading(e)) + Body(e), p);
    if |p| < |FIRST_LINE| {
      FirstLineRejected(env, files, p);
    }
    var r := p[|FIRST_LINE|..];
    k, b := CutEntry(w.Saw(OPENING), e, r);
    if Open(Scan(w.Saw(OPENING), Initial, r).tokens) {
      NotAPart(env, files, p, r);
    }
    q := CutTextIs(e, k, b);
    ParseCutText(env, files, e, k, q);
  }

  lemma NotAPart(env: Env, files: Files, p: string, r: string)
    requires p == FIRST_LINE + r && Open(Scan(Start(files, []).Saw(OPENING), Initial, r).tokens)
    ensures Parse(env, files, RESET, p).None?
  {
    AfterFirstLine(Start(files, []), r);
    OpeningLine(Start(files, []), r);
    ReadAlone(files, Initial, p);
    assert OPENING[0] == Keyword("boot_entry");
    OpenIsRejected(env, files, p);
  }

  // ---------- another entry ----------

  /** The characters of the strings in a list of tokens. */
  function TextLen(ts: seq<Token>): nat {
    if ts == [] then 0
    else (if ts[0].Str? || ts[0].UriStart? || ts[0].UriBracket? then |ts[0].text| else 0) + TextLen(ts[1..])
  }

  /** The INITIAL condition delivers no strings. */
  ghost predicate NoStrings(initial: string -> Match) {
    forall s :: s != "" ==> TextLen(TokenOf(initial(s))) == 0
  }

  lemma InitialNoStrings()
    ensures NoStrings(InitialMatch)
  {
    forall s: string | s != "" ensures TextLen(TokenOf(InitialMatch(s))) == 0 {
      RuleNoString(Pick(RULES, s), s);
    }
  }

  lemma RuleNoString(r: Rule, s: string)
    requires s != ""
    ensures TextLen(TokenOf(RuleMatch(r, s))) == 0
  {
  }

  lemma MatchTextLen(initial: string -> Match, mode: Mode, s: string)
    requires NoStrings(initial) && s != ""
    ensures TextLen(TokenOf(NextMatch(initial, mode, s))) <= NextMatch(initial, mode, s).consumed
  {
    if !mode.Initial? {
      OneTextLen(NextMatch(initial, mode, s));
    }
  }

  lemma OneTextLen(m: Match)
    ensures var t := m.token;
            TextLen(TokenOf(m))
            == if t.Some? && (t.value.Str? || t.value.UriStart? || t.value.UriBracket?) then |t.value.text| else 0
  {
    if m.token.Some? {
      assert TokenOf(m)[1..] == [];
    }
  }

  lemma TextLenConcat(a: seq<Token>, b: seq<Token>)
    ensures TextLen(a + b) == TextLen(a) + TextLen(b)
    decreases |a|
  {
    if a == [] {
      assert a + b == b;
    } else {
      assert (a + b)[1..] == a[1..] + b;
      TextLenConcat(a[1..], b);
    }
  }

  /** No file can be opened. */
  ghost predicate NoFiles(files: Files) { forall ts, uri :: files(ts, uri).None? }

  /** Without include files the scanner makes nothing longer. */
  lemma {:induction false} ScanTextLen(w: World, mode: Mode, s: string)
    requires NoStrings(w.initial) && NoFiles(w.files)
    ensures TextLen(Scan(w, mode, s).tokens) <= |s|
    decreases |s|, if EndsLine(mode) then 1 else 0
  {
    if s != "" && Progress(mode, s, NextMatch(w.initial, mode, s)) {
      var m := NextMatch(w.initial, mode, s);
      MatchTextLen(w.initial, mode, s);
      ScanTextLen(w.Saw(TokenOf(m)), m.mode, s[m.consumed..]);
      TextLenConcat(TokenOf(m), Scan(w.Saw(TokenOf(m)), m.mode, s[m.consumed..]).tokens);
    }
  }

  lemma UriTextLen(ts: seq<Token>)
    requires ParseUri(ts).Some?
    ensures |ParseUri(ts).value.0| + TextLen(ParseUri(ts).value.1) <= TextLen(ts)
  {
    assert ts[1..][1..] == ts[2..];
    if !ts[1].Str? {
      assert ts[2..][1..] == ts[3..];
      assert TextLen(ts[1..]) == |ts[1].text| + TextLen(ts[2..]);
      assert TextLen(ts[2..]) == |ts[2].text| + TextLen(ts[3..]);
    }
  }

  lemma ArgumentTextLen(a: Argument, ts: seq<Token>)
    requires ParseArgument(a, ts).Some?
    ensures |ParseArgument(a, ts).value.0| + TextLen(ParseArgument(a, ts).value.1) <= TextLen(ts)
  {
    if a.AUri? || (a.StringOrUri? && ParseString(ts).None?) {
      UriTextLen(ts);
    }
  }

  /** The option says nothing about a setting, or less than `n` characters. */
  predicate IsShort(k: EntrySetting, n: nat, o: BootOption) {
    SaysText(k, o).Some? ==> |SaysText(k, o).value| < n
  }

  function Short(k: EntrySetting, n: nat): BootOption -> bool { o => IsShort(k, n, o) }

  predicate AllShort(os: seq<BootOption>, k: EntrySetting, n: nat) { forall o :: o in os ==> IsShort(k, n, o) }

  lemma OptionShort(w: string, v: string, k: EntrySetting)
    requires OptionFor(w, v).Some?
    ensures SaysText(k, OptionFor(w, v).value).Some? ==> SaysText(k, OptionFor(w, v).value).value == v
  {
  }

  lemma SuffixTextLen(rest: seq<Token>, ts: seq<Token>)
    requires Suffix(rest, ts)
    ensures TextLen(rest) <= TextLen(ts)
  {
    assert ts == ts[..|ts| - |rest|] + rest;
    TextLenConcat(ts[..|ts| - |rest|], rest);
  }

  lemma ParsedShort(ts: seq<Token>, k: EntrySetting, n: nat)
    requires ParseOption(ts).Some? && TextLen(ts) < n
    ensures IsShort(k, n, ParseOption(ts).value.0)
  {
    var w := ts[0].word;
    var v := ParseArgument(ArgumentOf(w), ts[1..]);
    ArgumentTextLen(ArgumentOf(w), ts[1..]);
    OptionShort(w, v.value.0, k);
  }

  lemma BlockShort(ts: seq<Token>, k: EntrySetting, n: nat)
    requires OptionBlock(ts).Some? && TextLen(ts) < n
    ensures Everywhere(Short(k, n), OptionBlock(ts).value.0)
  {
    var short := Short(k, n);
    forall rest | (rest == ts || Suffix(rest, ts)) && ParseOption(rest).Some? ensures short(ParseOption(rest).value.0) {
      if rest != ts {
        SuffixTextLen(rest, ts);
      }
      ParsedShort(rest, k, n);
    }
    BlockEverywhere(ParseOption, false, short, ts);
  }

  lemma {:induction false} LeavesEverywhere(p: BootOption -> bool, os: seq<BootOption>, items: seq<Item<BootOption>>)
    requires (forall o :: o in os ==> p(o)) && Everywhere(p, items)
    ensures Everywhere(p, Leaves(os) + items)
    decreases |os|
  {
    if os == [] {
      assert [] + items == items;
    } else {
      assert os[0] in os && forall o :: o in os[1..] ==> o in os;
      LeavesEverywhere(p, os[1..], items);
      EverywhereCons(p, Leaf(os[0]), Leaves(os[1..]) + items);
      assert [Leaf(os[0])] + (Leaves(os[1..]) + items) == Leaves(os) + items;
    }
  }

  lemma {:induction false} LastShort(k: EntrySetting, os: seq<BootOption>, before: string, n: nat)
    requires AllShort(os, k, n) && |before| < n
    ensures |LastSaid(TextSaid(k), os, before)| < n
    decreases |os|
  {
    if os != [] {
      assert os[|os| - 1] in os && forall o :: o in os[..|os| - 1] ==> o in os;
      LastShort(k, os[..|os| - 1], before, n);
    }
  }

  /** The setting of option line `k`. */
  function Setting(k: nat): EntrySetting
    requires k < 7
  {
    [RootText, KernelText, InitrdText, CmdlineText, ParmfileText, InsfileText, BootmapText][k]
  }

  lemma SettingValue(e: Bentry, k: nat)
    requires k < 7
    ensures EntryText(Setting(k), e) == OptionFields(e)[k].value
  {
  }

  lemma OtherSetting(e: Bentry, j: nat, k: nat)
    requires j < k < 7
    ensures AllShort(OptionOf(OptionFields(e)[j]), Setting(k), 0)
  {
  }

  lemma {:induction false} OtherSettings(e: Bentry, j: nat, k: nat)
    requires j <= k < 7
    ensures AllShort(OptionsOf(OptionFields(e)[..k][j..]), Setting(k), 0)
    decreases k - j
  {
    if j < k {
      var fs := OptionFields(e)[..k][j..];
      assert fs[0] == OptionFields(e)[j] && fs[1..] == OptionFields(e)[..k][j + 1..];
      OtherSetting(e, j, k);
      OtherSettings(e, j + 1, k);
    }
  }

  lemma CutOptionShort(e: Bentry, k: nat)
    requires k < 7 && Behind(OptionFields(e)[k].value).Some? && CutOption(OptionFields(e)[k]).Some?
    ensures AllShort([CutOption(OptionFields(e)[k]).value], Setting(k), |OptionFields(e)[k].value|)
  {
    var v := OptionFields(e)[k].value;
    LineShort(v);
    OptionShort(OptionFields(e)[k].word, v[..UriStartLen(v)] + FirstLine(Bracket(v)).value.0, Setting(k));
  }

  lemma LineShort(v: string)
    requires Behind(v).Some?
    ensures UriStartLen(v) + |FirstLine(Bracket(v)).value.0| < |v| && |Behind(v).value| < |v|
  {
    BracketSplits(v);
    FrontAndBehind(Bracket(v));
    LineFits(Bracket(v));
  }

  lemma {:induction false} LineFits(x: string)
    requires FirstLine(x).Some?
    ensures |FirstLine(x).value.0| <= |x|
    decreases |x|
  {
    if x[0] == '(' {
      LineFits(x[1..]);
    }
  }

  lemma AllCutShort(e: Bentry, k: nat, ts: seq<Token>)
    requires k < 7 && Behind(OptionFields(e)[k].value).Some?
    requires CutOptions(e, k, ts).Some? && TextLen(ts) < |OptionFields(e)[k].value|
    ensures Everywhere(Short(Setting(k), |OptionFields(e)[k].value|), CutOptions(e, k, ts).value.0)
  {
    var f := OptionFields(e)[k];
    var short := Short(Setting(k), |f.value|);
    var before, block := OptionsOf(OptionFields(e)[..k]), OptionBlock(ts).value.0;
    BlockShort(ts, Setting(k), |f.value|);
    CutOptionShort(e, k);
    LeavesEverywhere(short, [CutOption(f).value], block);
    OtherSettings(e, 0, k);
    assert OptionFields(e)[..k][0..] == OptionFields(e)[..k];
    forall o | o in before ensures short(o) {
      assert IsShort(Setting(k), 0, o);
    }
    LeavesEverywhere(short, before, Leaves([CutOption(f).value]) + block);
  }

  lemma FoldShort(b: Bentry, os: seq<BootOption>, k: EntrySetting, n: nat)
    requires AllShort(os, k, n) && |EntryText(k, b)| < n
    ensures |EntryText(k, Fold(SetOption, b, os))| < n
  {
    TextDecided(k, b, os);
    LastShort(k, os, EntryText(k, b), n);
  }

  lemma CutValueShort(env: Env, e: Bentry, k: nat, ts: seq<Token>)
    requires k < 7 && Behind(OptionFields(e)[k].value).Some?
    requires CutOptions(e, k, ts).Some? && TextLen(ts) < |OptionFields(e)[k].value|
    ensures |EntryText(Setting(k), CutEntryOf(env, e, k, ts))| < |OptionFields(e)[k].value|
  {
    var b, n := NEW_BENTRY.(title := e.title, tag := e.tag), |OptionFields(e)[k].value|;
    var os := CutSelection(env, e, k, ts);
    AllCutShort(e, k, ts);
    SelectEverywhere(Short(Setting(k), n), env.host, env.cap, true, 0, CutOptions(e, k, ts).value.0);
    forall o | o in os ensures IsShort(Setting(k), n, o) {
      assert Short(Setting(k), n)(o);
    }
    LineShort(OptionFields(e)[k].value);
    NewIsEmpty(Setting(k), e.title, e.tag);
    FoldShort(b, os, Setting(k), n);
  }

  lemma NewIsEmpty(k: EntrySetting, title: string, tag: string)
    ensures EntryText(k, NEW_BENTRY.(title := title, tag := tag)) == ""
  {
  }

  lemma ArrivesValue(e: Bentry, k: nat)
    requires k < 7 && PrintsOptions(e.action)
    ensures EntryText(Setting(k), Arrives(e)) == OptionFields(e)[k].value
  {
    SettingValue(Arrives(e), k);
  }

  /** If no file is included, the entry that is read differs from the one that was printed:
      the value that is cut is shorter. */
  lemma AnotherEntry(env: Env, files: Files, e: Bentry, k: nat, q: string)
    requires Scanned(e) && PrintsOptions(e.action) && e.title != "" && EndsAt(env, files, e, k, q) && NoFiles(files)
    ensures var r := Parse(env, files, RESET, CutText(e, k, q));
            r.Some? && |EntryText(Setting(k), r.value)| < |EntryText(Setting(k), Arrives(e))|
  {
    var ts := TokensBehind(files, e, k, q);
    ParseCutText(env, files, e, k, q);
    CutOptionsSome(e, k, ts);
    LineShort(OptionFields(e)[k].value);
    InitialNoStrings();
    ScanTextLen(Start(files, []).Saw(TokensBefore(e, k)), Initial, q);
    CutValueShort(env, e, k, ts);
    ArrivesValue(e, k);
  }

  // ---------- the exact conditions ----------

  lemma WholeEntry(env: Env, files: Files, e: Bentry, p: string)
    requires Scanned(e) && p <= Print(e) && |p| >= |Print(e)| - 1
    ensures Parse(env, files, RESET, p) == Parse(env, files, RESET, Print(e))
  {
    EndsAlike(e, p);
    LastBrace(Start(files, []), e);
    ScanPrinted(Start(files, []), e);
    ReadAlone(files, Initial, p);
    ReadAlone(files, Initial, Print(e));
  }

  /** However little of a printed entry was read, it is not accepted unless nothing but
      the last line end is missing: this holds for exactly the entries that have no
      end of an entry in a bracket. */
  lemma PartsRejectedExactly(env: Env, files: Files, e: Bentry)
    requires Scanned(e)
    ensures (forall p :: p <= Print(e) ==>
               Parse(env, files, RESET, p)
               == if |p| >= |Print(e)| - 1 then Parse(env, files, RESET, Print(e)) else None)
       <==> !Splittable(env, files, e)
  {
    if Splittable(env, files, e) {
      var k, q :| EndsAt(env, files, e, k, q);
      TextIsPart(e, k, q);
      ParseCutText(env, files, e, k, q);
    } else {
      forall p | p <= Print(e)
        ensures Parse(env, files, RESET, p)
             == if |p| >= |Print(e)| - 1 then Parse(env, files, RESET, Print(e)) else None
      {
        if |p| >= |Print(e)| - 1 {
          WholeEntry(env, files, e, p);
        } else if Parse(env, files, RESET, p).Some? {
          var k, q := PartIsCut(env, files, e, p);
        }
      }
    }
  }

  lemma CutHasOption(e: Bentry, k: nat, q: string)
    requires PartOf(e, k, q) && PrintsOptions(e.action)
    ensures HasOption(e)
  {
    var f := OptionFields(e)[k];
    BehindNotEmpty(f.value);
    assert f in OptionFields(e);
    AllEmpty(e);
  }

  lemma BehindNotEmpty(v: string)
    requires Behind(v).Some?
    ensures v != ""
  {
  }

  /** There is an end of an entry in a bracket, and what is read then is not the entry that
      was printed. (It is always another one unless a file is included that completes
      the entry.) */
  ghost predicate Misread(env: Env, files: Files, e: Bentry) {
    && e.title != "" && PrintsOptions(e.action)
    && exists k, q :: EndsAt(env, files, e, k, q) && CutEntryOf(env, e, k, TokensBehind(files, e, k, q)) != Arrives(e)
  }

  lemma MisreadWithoutFiles(env: Env, files: Files, e: Bentry)
    requires Scanned(e) && NoFiles(files)
    ensures Misread(env, files, e) <==> Splittable(env, files, e)
  {
    if Splittable(env, files, e) {
      var k, q :| EndsAt(env, files, e, k, q);
      AnotherEntry(env, files, e, k, q);
      ParseCutText(env, files, e, k, q);
    }
  }

  /** A part that is read as another entry. */
  lemma OtherEntryRead(env: Env, files: Files, e: Bentry) returns (p: string)
    requires Scanned(e) && Misread(env, files, e)
    ensures p <= Print(e) && Parse(env, files, RESET, p).Some? && Parse(env, files, RESET, p).value != Arrives(e)
    ensures Parse(env, files, RESET, Print(e)) == Some(Arrives(e))
  {
    var k, q :| EndsAt(env, files, e, k, q) && CutEntryOf(env, e, k, TokensBehind(files, e, k, q)) != Arrives(e);
    p := CutText(e, k, q);
    TextIsPart(e, k, q);
    ParseCutText(env, files, e, k, q);
    CutHasOption(e, k, q);
    PrintParseReset(env, files, e);
  }

  lemma PartIsWhole(env: Env, files: Files, e: Bentry, p: string)
    requires Scanned(e) && !Misread(env, files, e) && p <= Print(e) && Parse(env, files, RESET, p).Some?
    ensures Parse(env, files, RESET, p) == Parse(env, files, RESET, Print(e))
  {
    if |p| >= |Print(e)| - 1 {
      WholeEntry(env, files, e, p);
    } else {
      var k, q := PartIsCut(env, files, e, p);
      ParseCutText(env, files, e, k, q);
      CutHasOption(e, k, q);
      PrintParseReset(env, files, e);
    }
  }

  /** No part of a printed entry is taken for another entry: exactly if it cannot be
      misread. */
  lemma NoOtherEntryExactly(env: Env, files: Files, e: Bentry)
    requires Scanned(e)
    ensures (forall p :: p <= Print(e) && Parse(env, files, RESET, p).Some? ==>
               Parse(env, files, RESET, p) == Parse(env, files, RESET, Print(e)))
       <==> !Misread(env, files, e)
  {
    if Misread(env, files, e) {
      var p := OtherEntryRead(env, files, e);
    } else {
      forall p | p <= Print(e) && Parse(env, files, RESET, p).Some?
        ensures Parse(env, files, RESET, p) == Parse(env, files, RESET, Print(e))
      {
        PartIsWhole(env, files, e, p);
      }
    }
  }

  /** A value that has no end of an entry in its bracket: one without a line end, or one
      without a closing brace if no file that can be opened has one. */
  lemma HarmlessValue(env: Env, files: Files, e: Bentry, k: nat, q: string)
    requires k < 7 && ('\n' !in OptionFields(e)[k].value || ('}' !in OptionFields(e)[k].value && Braceless(files)))
    ensures !EndsAt(env, files, e, k, q)
  {
    if EndsAt(env, files, e, k, q) {
      var v := OptionFields(e)[k].value;
      BracketSplits(v);
      FrontAndBehind(Bracket(v));
      assert forall c :: c in Bracket(v) ==> c in v;
      if '\n' !in v {
        NoLine(Bracket(v));
      } else {
        assert forall c :: c in q ==> c in Behind(v).value;
        assert forall c :: c in Behind(v).value ==> c in Bracket(v);
        FlexBrace();
        NoBraceNoToken(Start(files, []).Saw(TokensBefore(e, k)), Initial, q);
        OpenIsNoBlock(ParseOption, false, TokensBehind(files, e, k, q));
      }
    }
  }

  // ---------- an entry that is split ----------

  lemma ShortStart()
    ensures UriStartLen("a://") == 4
  {
    var s := "a://";
    assert s[..1] == "a" && s[1..4] == [s[1], s[2], s[3]] == "://";
    RunIs(IsIdChar, s, 1);
  }

  /** A part that is scanned as the closing brace ends the entry, and another one is read. */
  lemma ClosingEnds(env: Env, files: Files, e: Bentry, k: nat, q: string)
    requires Scanned(e) && PartOf(e, k, q) && TokensBehind(files, e, k, q) == CLOSING
    ensures EndsAt(env, files, e, k, q)
    ensures PrintsOptions(e.action) ==> CutEntryOf(env, e, k, CLOSING) != Arrives(e)
  {
    ParseClosing([]);
    assert CLOSING + [] == CLOSING && ParseDefs([]) == Some([]) && CLOSING[1..] == [];
    CutOptionsSome(e, k, CLOSING);
    LineShort(OptionFields(e)[k].value);
    CutValueShort(env, e, k, CLOSING);
    if PrintsOptions(e.action) {
      ArrivesValue(e, k);
    }
  }

  /** An entry that boots a kernel and nothing else. */
  function KernelEntry(v: string): (e: Bentry)
    ensures Scanned(e) <==> FileText(v)
    ensures OptionFields(e)[1].value == v && OptionFields(e)[1].word == "kernel"
  {
    NEW_BENTRY.(title := "t", kernel := v)
  }
}
