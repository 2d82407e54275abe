/**
 Every boot entry of the configuration that is read from a text, and every entry that
 is read from a user interface, has values the scanner produces: the round trip holds
 for all of them.
 */
module BootEntryClosure {
  import opened Config
  import opened ConfigLanguage
  import opened ScannerState
  import opened BootEntryScanner
  import opened ConfigGrammar
  import opened ScannerCarry
  import opened BootEntryText
  import opened BootEntryRoundTrip

  /** What was scanned just before. */
  datatype Context =
    | Free | AfterKeyword(word: string) | AfterStart(start: string) | AfterBracket(bracket: string) | AfterIdent

  function Then(t: Token): Context {
    match t
    case Keyword(w) => AfterKeyword(w)
    case UriStart(s) => AfterStart(s)
    case UriBracket(b) => AfterBracket(b)
    case Ident(_) => AfterIdent
    case _ => Free
  }

  /** A string a keyword can take: its scanner rule saw no URI. */
  predicate StringAfter(words: seq<Rule>, w: string, v: string) {
    PlainText(v) && exists r: Word :: r == w && WithBlank(r) in words && (WithUri(r) in words ==> UriStartLen(v) == 0)
  }

  predicate IsBracket(b: string) {
    |b| >= 3 && b[0] == '(' && b[|b| - 1] == ')' && All(IsNotClosing, b[1..|b| - 1])
  }

  /** Where a token with a value can stand, and what its value looks like. */
  predicate SoundToken(words: seq<Rule>, c: Context, t: Token) {
    match t
    case Str(v) =>
      (match c
       case Free => false
       case AfterKeyword(w) => StringAfter(words, w, v)
       case AfterStart(_) => UriRest(v) && v[0] != '('
       case AfterBracket(_) | AfterIdent => PlainText(v))
    case UriStart(s) => s != "" && UriStartLen(s) == |s|
    case UriBracket(b) => c.AfterStart? && IsBracket(b)
    case _ => true
  }

  predicate Sound(words: seq<Rule>, c: Context, ts: seq<Token>)
    decreases |ts|
  {
    ts == [] || (SoundToken(words, c, ts[0]) && Sound(words, Then(ts[0]), ts[1..]))
  }

  /** What was scanned last. */
  function Last(c: Context, ts: seq<Token>): Context { if ts == [] then c else Then(ts[|ts| - 1]) }

  lemma {:induction false} SoundConcat(words: seq<Rule>, c: Context, a: seq<Token>, b: seq<Token>)
    requires Sound(words, c, a) && Sound(words, Last(c, a), b)
    ensures Sound(words, c, a + b) && Last(c, a + b) == Last(Last(c, a), b)
    decreases |a|
  {
    if a == [] {
      assert a + b == b;
    } else {
      assert (a + b)[1..] == a[1..] + b;
      SoundConcat(words, Then(a[0]), a[1..], b);
    }
  }

  // ---------- the scanner produces sound tokens ----------

  /** The start condition suits what was scanned before, and what comes next. */
  predicate Agrees(words: seq<Rule>, mode: Mode, c: Context, s: string) {
    match mode
    case StrMode =>
      c.AfterBracket? || c.AfterIdent?
      || (c.AfterKeyword?
          && exists r: Word :: r == c.word && WithBlank(r) in words
                && (WithUri(r) in words ==> (s != "" ==> !IsBlank(s[0])) && UriStartLen(s) == 0))
    case UriRestMode => c.AfterStart?
    case _ => true
  }

  /** The start condition suits what was scanned before, at the end of a file. */
  predicate Resumable(words: seq<Rule>, mode: Mode, c: Context) {
    match mode
    case StrMode =>
      c.AfterBracket? || c.AfterIdent? || (c.AfterKeyword? && exists r: Word :: r == c.word && WithBlank(r) in words)
    case UriRestMode => c.AfterStart?
    case _ => true
  }

  lemma AgreesResumable(words: seq<Rule>, mode: Mode, c: Context, s: string)
    requires Agrees(words, mode, c, s)
    ensures Resumable(words, mode, c)
  {
  }

  lemma ResumableAgrees(words: seq<Rule>, mode: Mode, c: Context, s: string)
    requires Resumable(words, mode, c) && StartsLine(s)
    ensures Agrees(words, mode, c, s)
  {
    assert UriStartLen(s) == 0 && !IsBlank(s[0]);
  }

  lemma PlainPrefix(s: string)
    ensures var n := Run(IsNotNewline, s); PlainText(SkipBlanks(s[..n]))
  {
    var t := s[..Run(IsNotNewline, s)];
    var b := Run(IsBlank, t);
    assert forall k :: 0 <= k < |t[b..]| ==> t[b..][k] == t[b + k];
  }

  lemma StartOfPrefix(s: string, n: nat)
    requires n <= |s|
    ensures UriStartLen(s[..n]) > 0 ==> UriStartLen(s) == UriStartLen(s[..n])
  {
    if UriStartLen(s[..n]) > 0 {
      UriStartKept(s[..n], s[n..]);
      assert s[..n] + s[n..] == s;
    }
  }

  lemma StringSound(words: seq<Rule>, c: Context, s: string)
    requires s != "" && Agrees(words, StrMode, c, s)
    ensures SoundToken(words, c, Str(SkipBlanks(s[..Run(IsNotNewline, s)])))
  {
    var n := Run(IsNotNewline, s);
    PlainPrefix(s);
    if c.AfterKeyword? {
      var r: Word :| r == c.word && WithBlank(r) in words
                     && (WithUri(r) in words ==> (s != "" ==> !IsBlank(s[0])) && UriStartLen(s) == 0);
      if WithUri(r) in words {
        var t := s[..n];
        assert t[..0] == "" && (t != "" ==> t[0] == s[0]);
        RunIs(IsBlank, t, 0);
        assert SkipBlanks(t) == t;
        StartOfPrefix(s, n);
      }
    }
  }

  /** The result of one match. */
  predicate SoundMatch(words: seq<Rule>, c: Context, s: string, m: Match) {
    && (m.token.Some? ==> SoundToken(words, c, m.token.value))
    && (m.consumed <= |s| ==> Agrees(words, m.mode, if m.token.Some? then Then(m.token.value) else c, s[m.consumed..]))
  }

  lemma BracketSound(s: string)
    requires s != "" && s[0] == '('
    ensures var n := 1 + Run(IsNotClosing, s[1..]); n > 1 && n < |s| ==> IsBracket(s[..n + 1])
  {
    var n := 1 + Run(IsNotClosing, s[1..]);
    if n > 1 && n < |s| {
      assert s[n] == s[1..][n - 1];
      assert s[..n + 1][1..n] == s[1..][..n - 1];
    }
  }

  lemma RestSound(initial: string -> Match, words: seq<Rule>, c: Context, s: string)
    requires s != "" && c.AfterStart?
    ensures SoundMatch(words, c, s, NextMatch(initial, UriRestMode, s))
  {
    if s[0] == '(' {
      BracketSound(s);
    } else {
      var n := 1 + Run(IsNotNewline, s[1..]);
      assert s[..n][1..] == s[1..][..n - 1];
    }
  }

  lemma UriSound(initial: string -> Match, words: seq<Rule>, c: Context, s: string)
    requires s != ""
    ensures SoundMatch(words, c, s, NextMatch(initial, UriMode, s))
  {
    if UriStartLen(s) > 0 {
      UriStartAlone(s);
    }
  }

  lemma NamesSound(initial: string -> Match, words: seq<Rule>, mode: Mode, c: Context, s: string)
    requires s != "" && (mode.UiMode? || mode.ModMode? || mode.IncludeMode?)
    ensures SoundMatch(words, c, s, NextMatch(initial, mode, s))
  {
  }

  /** The INITIAL condition is sound in every context. */
  ghost predicate InitialIsSound(initial: string -> Match, words: seq<Rule>) {
    forall s: string, c: Context :: s != [] ==> SoundMatch(words, c, s, initial(s))
  }

  /** What holds of a text that was scanned. */
  predicate SoundLexed(words: seq<Rule>, c: Context, r: Lexed) {
    Sound(words, c, r.tokens) && Resumable(words, r.mode, Last(c, r.tokens))
  }

  lemma SoundAfter(words: seq<Rule>, c: Context, ts: seq<Token>, r: Lexed)
    requires Sound(words, c, ts) && SoundLexed(words, Last(c, ts), r)
    ensures SoundLexed(words, c, r.After(ts))
  {
    SoundConcat(words, c, ts, r.tokens);
  }

  lemma {:induction false} SoundScan(w: World, words: seq<Rule>, mode: Mode, c: Context, s: string)
    requires InitialIsSound(w.initial, words) && Agrees(words, mode, c, s)
    ensures SoundLexed(words, c, Scan(w, mode, s))
    decreases w.room, |s|, if EndsLine(mode) then 1 else 0
  {
    AgreesResumable(words, mode, c, s);
    if s != [] && Progress(mode, s, NextMatch(w.initial, mode, s)) {
      var m := NextMatch(w.initial, mode, s);
      if FileAt(w, mode, s).Some? {
        SoundFile(w, words, mode, c, s, m);
      } else if mode.StrMode? && Run(IsNotNewline, s) == |s| {
        forall x | x in s ensures x != '\n' {
          var k :| 0 <= k < |s| && s[k] == x;
          assert s[..|s|][k] == x;
        }
        NoStringWithoutEnd(w, s);
      } else {
        StepSound(w.initial, words, mode, c, s);
        var c' := if m.token.Some? then Then(m.token.value) else c;
        SoundScan(w.Saw(TokenOf(m)), words, m.mode, c', s[m.consumed..]);
        SoundCons(words, c, m, Scan(w.Saw(TokenOf(m)), m.mode, s[m.consumed..]));
      }
    }
  }

  lemma {:induction false} SoundFile(w: World, words: seq<Rule>, mode: Mode, c: Context, s: string, m: Match)
    requires InitialIsSound(w.initial, words) && s != [] && m == NextMatch(w.initial, mode, s)
    requires Progress(mode, s, m) && FileAt(w, mode, s).Some?
    ensures SoundLexed(words, c, Scan(w, mode, s))
    decreases w.room, |s|, 0
  {
    var inner, rest := Scan(w.Below(), Initial, FileAt(w, mode, s).value), s[m.consumed..];
    assert StartsLine(rest);
    SoundScan(w.Below(), words, Initial, c, FileAt(w, mode, s).value);
    ResumableAgrees(words, inner.mode, Last(c, inner.tokens), rest);
    SoundScan(w.Saw(inner.tokens), words, inner.mode, Last(c, inner.tokens), rest);
    SoundAfter(words, c, inner.tokens, Scan(w.Saw(inner.tokens), inner.mode, rest));
  }

  lemma SoundCons(words: seq<Rule>, c: Context, m: Match, tail: Lexed)
    requires m.token.Some? ==> SoundToken(words, c, m.token.value)
    requires SoundLexed(words, if m.token.Some? then Then(m.token.value) else c, tail)
    ensures SoundLexed(words, c, tail.After(TokenOf(m)))
  {
    SoundAfter(words, c, TokenOf(m), tail);
  }

  lemma StepSound(initial: string -> Match, words: seq<Rule>, mode: Mode, c: Context, s: string)
    requires InitialIsSound(initial, words) && Agrees(words, mode, c, s) && s != []
    requires mode.StrMode? ==> Run(IsNotNewline, s) < |s|
    ensures SoundMatch(words, c, s, NextMatch(initial, mode, s))
  {
    match mode
    case StrMode => StringSound(words, c, s);
    case UriMode => UriSound(initial, words, c, s);
    case UriRestMode => RestSound(initial, words, c, s);
    case Initial =>
    case _ => NamesSound(initial, words, mode, c, s);
  }

  predicate NoWordRules(rules: seq<Rule>) { forall k :: 0 <= k < |rules| ==> !IsWordRule(rules[k]) }

  lemma InMiddle(a: seq<Rule>, b: seq<Rule>, c: seq<Rule>, r: Rule)
    requires r in a + b + c && IsWordRule(r) && NoWordRules(a) && NoWordRules(c)
    ensures r in b
  {
  }

  lemma OnlyWordsInside()
    ensures NoWordRules(NUMBERS) && NoWordRules(OTHERS)
  {
  }

  lemma InWords(r: Rule)
    requires r in RULES && IsWordRule(r)
    ensures r in WORDS
  {
    OnlyWordsInside();
    InMiddle(NUMBERS, WORDS, OTHERS, r);
  }

  lemma AfterBlanks(w: Word, s: string)
    requires s != [] && MatchLen(WithBlank(w), s) > 0
    ensures var rest := s[MatchLen(WithBlank(w), s)..];
            (rest != "" ==> !IsBlank(rest[0]))
            && (UriStartLen(rest) > 0 ==> MatchLen(WithUri(w), s) > MatchLen(WithBlank(w), s))
  {
    var t := s[|w|..];
    var b := BlankLen(t);
    assert s[|w| + b..] == t[b..];
  }

  lemma BlankRuleSound(rules: seq<Rule>, words: seq<Rule>, w: Word, s: string)
    requires s != [] && rules != [] && Pick(rules, s) == WithBlank(w) && MatchLen(WithBlank(w), s) > 0
    requires WithBlank(w) in words && forall r :: r in words ==> r in rules
    ensures Agrees(words, StrMode, AfterKeyword(w), s[MatchLen(WithBlank(w), s)..])
  {
    AfterBlanks(w, s);
    if WithUri(w) in words {
      PickLongest(rules, s, WithUri(w));
    }
  }

  lemma RuleSound(rules: seq<Rule>, words: seq<Rule>, r: Rule, c: Context, s: string)
    requires s != [] && rules != [] && Pick(rules, s) == r && MatchLen(r, s) > 0
    requires (forall x :: x in words ==> x in rules) && (r.WithBlank? ==> r in words)
    ensures SoundMatch(words, c, s, RuleMatch(r, s))
  {
    if r.WithBlank? {
      BlankRuleSound(rules, words, r.word, s);
    }
  }

  lemma FlexSound()
    ensures InitialIsSound(InitialMatch, WORDS)
  {
    forall s: string, c: Context | s != [] ensures SoundMatch(WORDS, c, s, InitialMatch(s)) {
      InitialSound(s, c);
    }
  }

  lemma InitialSound(s: string, c: Context)
    requires s != []
    ensures SoundMatch(WORDS, c, s, InitialMatch(s))
  {
    var r := Pick(RULES, s);
    AnythingMatches(s);
    if r.WithBlank? {
      InWords(r);
    }
    RuleSound(RULES, WORDS, r, c, s);
  }

  lemma {:induction false} SoundUnwind(w: World, words: seq<Rule>, mode: Mode, c: Context, stack: seq<string>)
    requires InitialIsSound(w.initial, words) && Resumable(words, mode, c) && GoodStack(stack)
    ensures SoundLexed(words, c, Unwind(w, mode, stack))
    decreases |stack|
  {
    if stack != [] {
      var top, v := stack[|stack| - 1], w.Above();
      var r := Scan(v, mode, top);
      assert top in stack && forall t :: t in stack[..|stack| - 1] ==> t in stack;
      ResumableAgrees(words, mode, c, top);
      SoundScan(v, words, mode, c, top);
      SoundUnwind(v.Saw(r.tokens), words, r.mode, Last(c, r.tokens), stack[..|stack| - 1]);
      SoundAfter(words, c, r.tokens, Unwind(v.Saw(r.tokens), r.mode, stack[..|stack| - 1]));
    }
  }

  /** A context that suits a start condition, whatever was scanned before. */
  function ContextOf(mode: Mode): Context { if mode.UriRestMode? then AfterStart("") else AfterIdent }

  /** In every text, with the files it includes, and whatever an earlier text left. */
  lemma TokensSound(files: Files, flex: Flex, text: string)
    requires GoodStack(flex.stack)
    ensures SoundLexed(WORDS, ContextOf(flex.mode), Read(files, flex, text))
  {
    var w, c := Start(files, flex.stack), ContextOf(flex.mode);
    var r := Scan(w, flex.mode, text);
    FlexSound();
    SoundScan(w, WORDS, flex.mode, c, text);
    SoundUnwind(w.Saw(r.tokens), WORDS, r.mode, Last(c, r.tokens), flex.stack);
    SoundAfter(WORDS, c, r.tokens, Unwind(w.Saw(r.tokens), r.mode, flex.stack));
  }

  // ---------- the parser keeps them ----------

  lemma StartAndRest(start: string, r: string)
    requires start != "" && UriStartLen(start) == |start| && UriRest(r)
    ensures UriText(start + r)
  {
    UriStartKept(start, r);
    assert (start + r)[|start|..] == r;
  }

  lemma BracketAndRest(b: string, r: string)
    requires IsBracket(b) && PlainText(r)
    ensures UriRest(b + r)
  {
    var s := b + r;
    assert s[1..][..|b| - 2] == b[1..|b| - 1] && s[1..][|b| - 2] == ')';
    RunIs(IsNotClosing, s[1..], |b| - 2);
    assert s[|b|..] == r;
  }

  lemma SoundTail(words: seq<Rule>, c: Context, ts: seq<Token>)
    requires Sound(words, c, ts) && ts != []
    ensures SoundToken(words, c, ts[0]) && Sound(words, Then(ts[0]), ts[1..])
  {
  }

  lemma SoundPlainUri(words: seq<Rule>, c: Context, ts: seq<Token>)
    requires Sound(words, c, ts) && |ts| >= 2 && ts[0].UriStart? && ts[1].Str?
    ensures UriText(ts[0].text + ts[1].text) && Sound(words, Free, ts[2..])
  {
    SoundTail(words, c, ts);
    SoundTail(words, Then(ts[0]), ts[1..]);
    assert ts[1..][1..] == ts[2..];
    StartAndRest(ts[0].text, ts[1].text);
  }

  lemma SoundBracketUri(words: seq<Rule>, c: Context, ts: seq<Token>)
    requires Sound(words, c, ts) && |ts| >= 3 && ts[0].UriStart? && ts[1].UriBracket? && ts[2].Str?
    ensures UriText(ts[0].text + ts[1].text + ts[2].text) && Sound(words, Free, ts[3..])
  {
    SoundTail(words, c, ts);
    SoundTail(words, Then(ts[0]), ts[1..]);
    assert ts[1..][1..] == ts[2..];
    SoundTail(words, Then(ts[1]), ts[2..]);
    assert ts[2..][1..] == ts[3..];
    BracketAndRest(ts[1].text, ts[2].text);
    StartAndRest(ts[0].text, ts[1].text + ts[2].text);
    Assoc2(ts[0].text, ts[1].text, ts[2].text);
  }

  lemma SoundUri(words: seq<Rule>, c: Context, ts: seq<Token>)
    requires Sound(words, c, ts) && ParseUri(ts).Some?
    ensures UriText(ParseUri(ts).value.0) && Sound(words, Free, ParseUri(ts).value.1)
  {
    if ts[1].Str? {
      SoundPlainUri(words, c, ts);
    } else {
      SoundBracketUri(words, c, ts);
    }
  }

  /** What an argument of a keyword looks like. */
  predicate SoundArgument(words: seq<Rule>, w: string, a: Argument, v: string) {
    match a
    case Nothing => true
    case AString => StringAfter(words, w, v)
    case AUri => UriText(v)
    case StringOrUri => UriText(v) || StringAfter(words, w, v)
  }

  lemma ArgumentSound(words: seq<Rule>, w: string, a: Argument, ts: seq<Token>)
    requires Sound(words, AfterKeyword(w), ts) && ParseArgument(a, ts).Some?
    ensures SoundArgument(words, w, a, ParseArgument(a, ts).value.0)
    ensures exists c :: Sound(words, c, ParseArgument(a, ts).value.1)
  {
    if a.AUri? || (a.StringOrUri? && ParseString(ts).None?) {
      SoundUri(words, AfterKeyword(w), ts);
    } else if !a.Nothing? {
      assert Sound(words, Free, ts[1..]);
    }
  }

  predicate OptionScanned(o: BootOption) {
    match o
    case Root(s) => UriText(s)
    case Insfile(s) => UriText(s)
    case Bootmap(s) => UriText(s)
    case Kernel(s) => FileText(s)
    case Initrd(s) => FileText(s)
    case Parmfile(s) => FileText(s)
    case Cmdline(s) => PlainText(s)
    case _ => true
  }

  lemma NoStringRule(w: Word)
    requires w == "insfile" || w == "bootmap"
    ensures WithBlank(w) !in WORDS
  {
    var r := WithBlank(w);
    assert forall k :: 0 <= k < |WORDS_A| ==> WORDS_A[k] != r;
    assert forall k :: 0 <= k < |WORDS_B| ==> WORDS_B[k] != r;
    assert forall k :: 0 <= k < |WORDS_C| ==> WORDS_C[k] != r;
    assert forall k :: 0 <= k < |WORDS_D| ==> WORDS_D[k] != r;
  }

  lemma FileSound(w: Word, v: string)
    requires w == "kernel" || w == "initrd" || w == "parmfile"
    requires UriText(v) || StringAfter(WORDS, w, v)
    ensures FileText(v)
  {
    FileRule(w);
  }

  lemma OnlyUriSound(w: Word, v: string)
    requires w == "insfile" || w == "bootmap"
    requires UriText(v) || StringAfter(WORDS, w, v)
    ensures UriText(v)
  {
    NoStringRule(w);
  }

  /** The keyword of an option, and where its value comes from. */
  predicate Comes(w: string, a: Argument, o: BootOption, v: string) {
    match o
    case Root(s) => a.AUri? && s == v
    case Insfile(s) => w == "insfile" && a.StringOrUri? && s == v
    case Bootmap(s) => w == "bootmap" && a.StringOrUri? && s == v
    case Kernel(s) => w == "kernel" && a.StringOrUri? && s == v
    case Initrd(s) => w == "initrd" && a.StringOrUri? && s == v
    case Parmfile(s) => w == "parmfile" && a.StringOrUri? && s == v
    case Cmdline(s) => a.AString? && s == v
    case _ => true
  }

  lemma OptionComes(w: string, v: string)
    requires OptionFor(w, v).Some?
    ensures Comes(w, ArgumentOf(w), OptionFor(w, v).value, v)
  {
  }

  lemma ComesSound(w: string, a: Argument, o: BootOption, v: string)
    requires Comes(w, a, o, v) && SoundArgument(WORDS, w, a, v)
    ensures OptionScanned(o)
  {
    match o
    case Insfile(_) => OnlyUriSound(w, v);
    case Bootmap(_) => OnlyUriSound(w, v);
    case Kernel(_) => FileSound(w, v);
    case Initrd(_) => FileSound(w, v);
    case Parmfile(_) => FileSound(w, v);
    case _ =>
  }

  lemma OptionSound(w: string, v: string)
    requires SoundArgument(WORDS, w, ArgumentOf(w), v) && OptionFor(w, v).Some?
    ensures OptionScanned(OptionFor(w, v).value)
  {
    OptionComes(w, v);
    ComesSound(w, ArgumentOf(w), OptionFor(w, v).value, v);
  }

  lemma {:induction false} SuffixSound(words: seq<Rule>, c: Context, ts: seq<Token>, rest: seq<Token>)
    requires Sound(words, c, ts) && (rest == ts || Suffix(rest, ts))
    ensures exists c' :: Sound(words, c', rest)
    decreases |ts|
  {
    if rest != ts {
      SoundTail(words, c, ts);
      assert rest == ts[1..][|ts[1..]| - |rest|..];
      SuffixSound(words, Then(ts[0]), ts[1..], rest);
    }
  }

  lemma OptionIsScanned(c: Context, ts: seq<Token>)
    requires Sound(WORDS, c, ts) && ParseOption(ts).Some?
    ensures OptionScanned(ParseOption(ts).value.0)
  {
    var w := ts[0].word;
    SoundTail(WORDS, c, ts);
    ArgumentSound(WORDS, w, ArgumentOf(w), ts[1..]);
    OptionSound(w, ParseArgument(ArgumentOf(w), ts[1..]).value.0);
  }

  lemma OptionsSound(c: Context, ts: seq<Token>)
    requires Sound(WORDS, c, ts) && OptionBlock(ts).Some?
    ensures Everywhere(OptionScanned, OptionBlock(ts).value.0)
  {
    forall rest | (rest == ts || Suffix(rest, ts)) && ParseOption(rest).Some?
      ensures OptionScanned(ParseOption(rest).value.0)
    {
      SuffixSound(WORDS, c, ts, rest);
      var c' :| Sound(WORDS, c', rest);
      OptionIsScanned(c', rest);
    }
    BlockEverywhere(ParseOption, false, OptionScanned, ts);
  }

  /** The values of a boot entry statement come from the scanner. */
  predicate StatementScanned(st: Statement) {
    st.BootEntry? ==>
      && PlainText(st.title) && (st.tag.Some? ==> PlainText(st.tag.value))
      && Everywhere(OptionScanned, st.options)
  }

  lemma ContentScanned(title: string, ts: seq<Token>)
    requires PlainText(title) && Sound(WORDS, Free, ts) && ParseContent(title, ts).Some?
    ensures StatementScanned(ParseContent(title, ts).value.0)
  {
    if StartsLabel(ts) {
      assert Sound(WORDS, AfterKeyword("label"), ts[1..]);
      assert SoundToken(WORDS, AfterKeyword("label"), ts[1..][0]);
      assert Sound(WORDS, Free, ts[1..][1..]) && ts[1..][1..] == ts[2..];
    }
    OptionsSound(Free, if StartsLabel(ts) then ts[2..] else ts);
  }

  lemma SoundStart(c: Context, ts: seq<Token>)
    requires Sound(WORDS, c, ts) && StartsEntry(ts)
    ensures PlainText(ts[3].text) && Sound(WORDS, Free, ts[4..])
  {
    SoundTail(WORDS, c, ts);
    SoundTail(WORDS, Then(ts[0]), ts[1..]);
    assert ts[1..][1..] == ts[2..];
    SoundTail(WORDS, Then(ts[1]), ts[2..]);
    assert ts[2..][1..] == ts[3..];
    SoundTail(WORDS, Then(ts[2]), ts[3..]);
    assert ts[3..][1..] == ts[4..];
  }

  lemma OnlyEntriesAreEntries(ts: seq<Token>)
    requires ParseStatement(ts).Some? && ParseStatement(ts).value.0.BootEntry?
    ensures ParseEntry(ts) == ParseStatement(ts) && StartsEntry(ts)
  {
  }

  lemma StatementIsScanned(c: Context, ts: seq<Token>)
    requires Sound(WORDS, c, ts) && ParseStatement(ts).Some?
    ensures StatementScanned(ParseStatement(ts).value.0)
  {
    if ParseStatement(ts).value.0.BootEntry? {
      OnlyEntriesAreEntries(ts);
      SoundStart(c, ts);
      ContentScanned(ts[3].text, ts[4..]);
    }
  }

  /** Whatever the text, its boot entries have values the scanner produces. */
  lemma DefinitionsScanned(files: Files, flex: Flex, text: string)
    requires GoodStack(flex.stack) && Definitions(files, flex, text).Some?
    ensures Everywhere(StatementScanned, Definitions(files, flex, text).value)
  {
    var ts := Read(files, flex, text).tokens;
    TokensSound(files, flex, text);
    forall rest | (rest == ts || Suffix(rest, ts)) && ParseStatement(rest).Some?
      ensures StatementScanned(ParseStatement(rest).value.0)
    {
      SuffixSound(WORDS, ContextOf(flex.mode), ts, rest);
      var c :| Sound(WORDS, c, rest);
      StatementIsScanned(c, rest);
    }
    DefsEverywhere(StatementScanned, ts);
  }

  // ---------- the evaluation keeps them ----------

  predicate AllScanned(bs: seq<Bentry>) { forall b :: b in bs ==> Scanned(b) }

  lemma {:induction false} FoldScanned(b: Bentry, options: seq<BootOption>)
    requires Scanned(b) && forall o :: o in options ==> OptionScanned(o)
    ensures Scanned(Fold(SetOption, b, options))
    decreases |options|
  {
    if options != [] {
      assert options[0] in options && OptionScanned(options[0]);
      assert forall o :: o in options[1..] ==> o in options;
      FoldScanned(SetOption(b, options[0]), options[1..]);
    }
  }

  lemma OneEntryScanned(env: Env, depth: nat, s: State, st: Statement)
    requires AllScanned(s.top.bentries) && StatementScanned(st)
    ensures AllScanned(Evaluate(env, depth, s, st).top.bentries)
  {
    if st.BootEntry? {
      SelectEverywhere(OptionScanned, env.host, env.cap, true, depth, st.options);
      FoldScanned(NEW_BENTRY.(title := st.title, tag := if st.tag.Some? then st.tag.value else ""),
                  Select(env.host, env.cap, true, depth, st.options));
    }
  }

  lemma {:induction false} EvaluateScanned(env: Env, on: bool, depth: nat, s: State, items: seq<Item<Statement>>)
    requires AllScanned(s.top.bentries) && Everywhere(StatementScanned, items)
    ensures AllScanned(EvaluateAll(env, on, depth, s, items).top.bentries)
    decreases items
  {
    if items != [] {
      match items[0]
      case Leaf(st) =>
        OneEntryScanned(env, depth, s, st);
        EvaluateScanned(env, on, depth, if on then Evaluate(env, depth, s, st) else Drop(s, st), items[1..]);
      case Section(cond, body) =>
        var inside := Inside(env.host, env.cap, on, depth + 1, cond);
        EvaluateScanned(env, inside, depth + 1, s, body);
        EvaluateScanned(env, on, depth, EvaluateAll(env, inside, depth + 1, s, body), items[1..]);
    }
  }

  /** All entries of the configuration a text describes, on whatever machine. */
  lemma EntriesScanned(env: Env, files: Files, flex: Flex, text: string)
    requires GoodStack(flex.stack) && Definitions(files, flex, text).Some?
    ensures AllScanned(EntriesOf(env, Definitions(files, flex, text).value))
  {
    DefinitionsScanned(files, flex, text);
    EvaluateScanned(env, true, 0, INITIAL, Definitions(files, flex, text).value);
  }

  /** The entry that is read from a user interface. */
  lemma ParsedIsScanned(env: Env, files: Files, flex: Flex, text: string)
    requires GoodStack(flex.stack) && Parse(env, files, flex, text).Some?
    ensures Scanned(Parse(env, files, flex, text).value)
  {
    EntriesScanned(env, files, flex, text);
  }

  /** The round trip, for every entry of every configuration text: it can be printed on
      one machine and parsed on another one, with other files. */
  lemma ParsePrintParse(env: Env, files: Files, flex: Flex, text: string, i: nat, other: Env, files': Files)
    requires GoodStack(flex.stack) && Definitions(files, flex, text).Some?
    requires i < |EntriesOf(env, Definitions(files, flex, text).value)|
    ensures var e := EntriesOf(env, Definitions(files, flex, text).value)[i];
            Parse(other, files', RESET, Print(e)) == if e.title != "" && HasOption(e) then Some(Arrives(e)) else None
  {
    EntriesScanned(env, files, flex, text);
    PrintParseReset(other, files', EntriesOf(env, Definitions(files, flex, text).value)[i]);
  }
}
