/**
 The scanner for configuration text: start conditions, longest match, the order of the
 rules, and include files (core/sysload.conf.l).
 */
module BootEntryScanner {
  import opened Config
  import opened ScannerState
  import Decimal
  import Uri

  datatype Token =
    | Keyword(word: string) | Punct(c: char)
    | Str(text: string) | UriStart(text: string) | UriBracket(text: string)
    | Ident(text: string) | Number(text: string) | HexNum(text: string)
    | BusIdVal(text: string) | MacVal(text: string) | IpAddr(text: string)
    | Unrecognized(c: char)

  // ---------- character classes ----------

  predicate IsBlank(c: char) { c == ' ' || c == '\t' }
  predicate IsHex(c: char) { Decimal.IsDigit(c) || 'a' <= c <= 'f' || 'A' <= c <= 'F' }
  predicate IsIdStart(c: char) { 'a' <= c <= 'z' || 'A' <= c <= 'Z' || c == '_' }
  predicate IsIdChar(c: char) { IsIdStart(c) || Decimal.IsDigit(c) || c == '.' || c == '-' }
  predicate IsWordChar(c: char) { 'a' <= c <= 'z' || c == '_' }
  predicate IsNotNewline(c: char) { c != '\n' }
  predicate IsNotClosing(c: char) { c != ')' }
  predicate IsPunct(c: char) { c in "(,/{}=)" }

  predicate All(p: char -> bool, s: string) { forall k :: 0 <= k < |s| ==> p(s[k]) }

  /** All keywords are made of lower case letters and underscores. */
  type Word = w: string | w != [] && All(IsWordChar, w) witness "mod"

  /** The length of the longest prefix of characters of a class. */
  function Run(p: char -> bool, s: string): (n: nat)
    ensures n <= |s| && All(p, s[..n]) && (n < |s| ==> !p(s[n]))
  {
    if s == [] || !p(s[0]) then 0 else
      var n := 1 + Run(p, s[1..]);
      assert s[..n] == [s[0]] + s[1..][..n - 1];
      n
  }

  lemma {:induction false} RunIs(p: char -> bool, s: string, n: nat)
    requires n <= |s| && All(p, s[..n]) && (n < |s| ==> !p(s[n]))
    ensures Run(p, s) == n
  {
    if n > 0 {
      assert p(s[..n][0]);
      var tail := s[1..][..n - 1];
      forall k | 0 <= k < |tail| ensures p(tail[k]) {
        assert tail[k] == s[..n][k + 1];
      }
      RunIs(p, s[1..], n - 1);
    }
  }

  /** `n` non-empty runs of a class, separated by `sep`. */
  function Separated(p: char -> bool, sep: char, n: nat, s: string): (len: nat)
    requires n > 0
    ensures len <= |s|
    decreases n
  {
    var run := Run(p, s);
    if run == 0 || n == 1 then run
    else if run < |s| && s[run] == sep then
      var rest := Separated(p, sep, n - 1, s[run + 1..]);
      if rest == 0 then 0 else run + 1 + rest
    else 0
  }

  function IdLen(s: string): (n: nat)
    ensures n <= |s|
  {
    if s != [] && IsIdStart(s[0]) then Run(IsIdChar, s) else 0
  }

  /** `{ID}"://"` */
  function UriStartLen(s: string): (n: nat)
    ensures n <= |s|
  {
    var id := IdLen(s);
    if id > 0 && id + 3 <= |s| && s[id..id + 3] == "://" then id + 3 else 0
  }

  function BlankLen(t: string): (n: nat)
    ensures n <= |t|
  {
    Run(IsBlank, t)
  }

  /** `{WHITESPACE}+{ID}"://"` */
  function BlankUriLen(t: string): (n: nat)
    ensures n <= |t|
  {
    var b := BlankLen(t);
    if b > 0 && UriStartLen(t[b..]) > 0 then b + UriStartLen(t[b..]) else 0
  }

  // ---------- rules of the INITIAL condition ----------

  datatype Rule =
    | NumberRule | HexNumRule | BusIdRule | MacRule | IpRule | CommentRule
    | Plain(word: Word)            // word
    | WithBlank(word: Word)        // word{WHITESPACE}+
    | WithUri(word: Word)          // word{WHITESPACE}+{ID}"://", of which only the word is consumed
    | IdRule | BlankRule | NewlineRule | PunctRule | AnyRule

  const NUMBERS: seq<Rule> := [NumberRule, HexNumRule, BusIdRule, MacRule, IpRule, CommentRule]

  const WORDS_A: seq<Rule> := [
    WithBlank("default"), WithBlank("timeout"), WithBlank("password"), WithBlank("exec"), WithBlank("userinterface"),
    WithBlank("pause"), Plain("include"), Plain("mod")]

  const WORDS_B: seq<Rule> := [
    Plain("boot_entry"), Plain("lock"), Plain("reboot"), Plain("halt"), Plain("exit"), Plain("shell"), Plain("network"),
    Plain("knet"), Plain("mode"), Plain("dhcp"), Plain("static"), Plain("address"), Plain("mask"), Plain("gateway"),
    Plain("nameserver"), Plain("interface"), Plain("setup"), Plain("kset"), Plain("qeth"), Plain("zfcp")]

  const WORDS_C: seq<Rule> := [
    Plain("dasd"), Plain("busid"), Plain("wwpn"), Plain("lun"), Plain("system"), Plain("uuid"), Plain("mac"),
    Plain("vmguest"), Plain("lpar"), Plain("module"), Plain("true"), Plain("false"), Plain("not")]

  const WORDS_D: seq<Rule> := [
    WithBlank("name"), WithBlank("param"), WithBlank("kernelversion"), WithBlank("title"), WithBlank("label"),
    WithBlank("cmdline"), WithBlank("kernel"), WithUri("kernel"), WithBlank("initrd"), WithUri("initrd"),
    WithUri("root"), WithBlank("parmfile"), WithUri("parmfile"), WithUri("insfile"), WithUri("bootmap")]

  const WORDS: seq<Rule> := WORDS_A + WORDS_B + WORDS_C + WORDS_D

  const OTHERS: seq<Rule> := [IdRule, BlankRule, NewlineRule, PunctRule, AnyRule]

  const RULES: seq<Rule> := NUMBERS + WORDS + OTHERS

  /** The length a rule matches, trailing context included; 0 for no match. */
  function MatchLen(r: Rule, s: string): (n: nat)
    requires s != []
    ensures n <= |s|
  {
    match r
    case NumberRule => Run(Decimal.IsDigit, s)
    case HexNumRule =>
      if |s| > 2 && s[0] == '0' && s[1] in "xX" && Run(IsHex, s[2..]) > 0 then 2 + Run(IsHex, s[2..]) else 0
    case BusIdRule => Separated(IsHex, '.', 3, s)
    case MacRule => Separated(IsHex, ':', 6, s)
    case IpRule => Separated(Decimal.IsDigit, '.', 4, s)
    case CommentRule => if s[0] == '#' && Run(IsNotNewline, s) < |s| then Run(IsNotNewline, s) + 1 else 0
    case Plain(w) => if w <= s then |w| else 0
    case WithBlank(w) => if w <= s && BlankLen(s[|w|..]) > 0 then |w| + BlankLen(s[|w|..]) else 0
    case WithUri(w) => if w <= s && BlankUriLen(s[|w|..]) > 0 then |w| + BlankUriLen(s[|w|..]) else 0
    case IdRule => IdLen(s)
    case BlankRule => Run(IsBlank, s)
    case NewlineRule => if s[0] == '\n' then 1 else 0
    case PunctRule => if IsPunct(s[0]) then 1 else 0
    case AnyRule => if s[0] != '\n' then 1 else 0
  }

  /** The rule with the longest match; of several the first. */
  function Pick(rules: seq<Rule>, s: string): (r: Rule)
    requires s != [] && rules != []
    ensures r in rules
  {
    if |rules| == 1 then rules[0]
    else
      var later := Pick(rules[1..], s);
      if MatchLen(rules[0], s) >= MatchLen(later, s) then rules[0] else later
  }

  // ---------- scanning ----------

  /** One match: a token or nothing, the next condition, the characters consumed. */
  datatype Match = Match(token: Option<Token>, mode: Mode, consumed: nat)

  function SkipBlanks(s: string): string { s[Run(IsBlank, s)..] }

  /** The INITIAL condition: longest match, then the action of the rule. */
  function InitialMatch(s: string): (m: Match)
    ensures s != [] ==> 0 < m.consumed <= |s|
  {
    if s == [] then Match(None, Initial, 0)
    else
      AnythingMatches(s);
      RuleMatch(Pick(RULES, s), s)
  }

  function RuleMatch(r: Rule, s: string): (m: Match)
    requires s != []
    ensures MatchLen(r, s) > (if r.CommentRule? then 1 else 0) ==> 0 < m.consumed <= |s|
  {
    var n := MatchLen(r, s);
    var text := s[..n];
    match r
    case NumberRule => Match(Some(Number(text)), Initial, n)
    case HexNumRule => Match(Some(HexNum(text)), Initial, n)
    case BusIdRule => Match(Some(BusIdVal(text)), Initial, n)
    case MacRule => Match(Some(MacVal(text)), Initial, n)
    case IpRule => Match(Some(IpAddr(text)), Initial, n)
    case CommentRule => Match(None, Initial, if n > 0 then n - 1 else 0)
    case Plain(w) =>
      if w == "include" then Match(None, IncludeMode, n)
      else Match(Some(Keyword(w)), if w == "mod" then ModMode else Initial, n)
    case WithBlank(w) =>
      Match(Some(Keyword(w)), if w == "timeout" then Initial else if w == "userinterface" then UiMode else StrMode, n)
    case WithUri(w) => Match(Some(Keyword(w)), UriMode, |w|)
    case IdRule => Match(Some(Ident(text)), Initial, n)
    case BlankRule => Match(None, Initial, n)
    case NewlineRule => Match(None, Initial, n)
    case PunctRule => Match(Some(Punct(s[0])), Initial, n)
    case AnyRule => Match(Some(Unrecognized(s[0])), Initial, n)
  }

  /** One match in any condition; `initial` is the matcher of the INITIAL one. */
  function NextMatch(initial: string -> Match, mode: Mode, s: string): (m: Match)
    requires s != []
  {
    match mode
    case Initial => initial(s)
    case StrMode =>
      var n := Run(IsNotNewline, s);
      if n < |s| then Match(Some(Str(SkipBlanks(s[..n]))), Initial, n) else Match(None, StrMode, 1)
    case UriMode =>
      var n := UriStartLen(s);
      if n > 1 then Match(Some(UriStart(s[..n])), UriRestMode, n)
      else if IsBlank(s[0]) then Match(None, UriMode, Run(IsBlank, s))
      else if s[0] == '\n' then Match(None, UriMode, 1)
      else Match(Some(Unrecognized(s[0])), UriMode, 1)
    case UriRestMode =>
      if s[0] == '(' then
        var n := 1 + Run(IsNotClosing, s[1..]);
        if n > 1 && n < |s| then Match(Some(UriBracket(s[..n + 1])), StrMode, n + 1) else Match(None, UriRestMode, 1)
      else
        var n := 1 + Run(IsNotNewline, s[1..]);
        if n < |s| then Match(Some(Str(s[..n])), Initial, n) else Match(None, UriRestMode, 1)
    case UiMode =>
      var n := IdLen(s);
      if n == 0 then Match(None, UiMode, 1)
      else if s[..n] == "ssh" then Match(Some(Keyword("ssh")), UiMode, n)
      else Match(Some(Ident(s[..n])), StrMode, n)
    case ModMode =>
      var n := IdLen(s);
      if n > 0 then Match(Some(Ident(s[..n])), ModMode, n)
      else if s[0] == ')' then Match(Some(Punct(s[0])), Initial, 1)
      else Match(if IsPunct(s[0]) then Some(Punct(s[0])) else None, ModMode, 1)
    case IncludeMode =>
      var n := Run(IsNotNewline, s);
      if n < |s| then Match(None, Initial, n) else Match(None, IncludeMode, 1)
  }

  /** The match consumes something of the text, or leaves for INITIAL at a line end. */
  predicate Progress(mode: Mode, s: string, m: Match) {
    m.consumed <= |s| && (m.consumed == 0 ==> EndsLine(mode) && m.mode.Initial?)
  }

  /** Conditions with a rule that can match nothing in front of a line end. */
  predicate EndsLine(mode: Mode) { mode.StrMode? || mode.IncludeMode? }

  function TokenOf(m: Match): seq<Token> {
    if m.token.Some? then [m.token.value] else []
  }

  lemma AlwaysProgress(mode: Mode, s: string)
    requires s != []
    ensures Progress(mode, s, NextMatch(InitialMatch, mode, s))
  {
  }

  // ---------- include files ----------

  /** What an include statement with a URI opens, when these tokens were delivered: nothing
      if the file cannot be opened, or the parser is inactive. */
  type Files = (seq<Token>, string) -> Option<string>

  /** The INITIAL condition, the files, how many includes may be nested, and the tokens that
      were delivered. */
  datatype World = World(initial: string -> Match, files: Files, room: nat, seen: seq<Token>) {
    function Saw(ts: seq<Token>): World { World(initial, files, room, seen + ts) }

    function Below(): World { World(initial, files, if room > 0 then room - 1 else 0, seen) }

    function Above(): World { World(initial, files, room + 1, seen) }

    /** The file that is opened: its URI must have a scheme. */
    function Opened(uri: string): Option<string> {
      if room > 0 && Uri.HasScheme(uri) then files(seen, uri) else None
    }
  }

  /** The URI of an include statement that ends here. */
  function IncludeUri(mode: Mode, s: string): Option<string> {
    var n := Run(IsNotNewline, s);
    if mode.IncludeMode? && 0 < n < |s| then Some(SkipBlanks(s[..n])) else None
  }

  function FileAt(w: World, mode: Mode, s: string): Option<string> {
    if IncludeUri(mode, s).Some? then w.Opened(IncludeUri(mode, s).value) else None
  }

  /** The tokens of a text, and the condition at its end. */
  datatype Lexed = Lexed(tokens: seq<Token>, mode: Mode) {
    function After(ts: seq<Token>): Lexed { Lexed(ts + tokens, mode) }
  }

  /** Scan a text; an included file is scanned in its place. The condition is neither
      restored nor reset at the end of a file. */
  function Scan(w: World, mode: Mode, s: string): Lexed
    decreases w.room, |s|, if EndsLine(mode) then 1 else 0
  {
    if s == [] || !Progress(mode, s, NextMatch(w.initial, mode, s)) then Lexed([], mode)
    else
      var m := NextMatch(w.initial, mode, s);
      var file := FileAt(w, mode, s);
      if file.Some? then
        var inner := Scan(w.Below(), Initial, file.value);
        Scan(w.Saw(inner.tokens), inner.mode, s[m.consumed..]).After(inner.tokens)
      else Scan(w.Saw(TokenOf(m)), m.mode, s[m.consumed..]).After(TokenOf(m))
  }

  /** Go on with the files that are suspended. */
  function Unwind(w: World, mode: Mode, stack: seq<string>): Lexed
    decreases |stack|
  {
    if stack == [] then Lexed([], mode)
    else
      var r := Scan(w.Above(), mode, stack[|stack| - 1]);
      Unwind(w.Above().Saw(r.tokens), r.mode, stack[..|stack| - 1]).After(r.tokens)
  }

  function Start(files: Files, stack: seq<string>): World {
    World(InitialMatch, files, if |stack| < MAX_INCL_DEPTH then MAX_INCL_DEPTH - |stack| else 0, [])
  }

  /** All that is scanned from a text on to the end, in the state that an earlier text
      left. */
  function Read(files: Files, flex: Flex, text: string): Lexed {
    ScanOn(Start(files, flex.stack), flex.mode, text, flex.stack)
  }

  function ScanOn(w: World, mode: Mode, s: string, stack: seq<string>): Lexed {
    var r := Scan(w, mode, s);
    Unwind(w.Saw(r.tokens), r.mode, stack).After(r.tokens)
  }

  // ---------- from a place in a text to another one ----------

  /** Scanning goes on at `t` in condition `n`, and has delivered `ts` up to there. */
  predicate Yields(w: World, mode: Mode, s: string, ts: seq<Token>, n: Mode, t: string) {
    Scan(w, mode, s) == Scan(w.Saw(ts), n, t).After(ts)
  }

  lemma SawTwice(w: World, a: seq<Token>, b: seq<Token>)
    ensures w.Saw(a).Saw(b) == w.Saw(a + b)
  {
    assert w.seen + a + b == w.seen + (a + b);
  }

  lemma AfterTwice(r: Lexed, a: seq<Token>, b: seq<Token>)
    ensures r.After(b).After(a) == r.After(a + b)
  {
    assert a + (b + r.tokens) == a + b + r.tokens;
  }

  lemma NoTokens(w: World, r: Lexed)
    ensures w.Saw([]) == w && r.After([]) == r
  {
    assert w.seen + [] == w.seen && [] + r.tokens == r.tokens;
  }

  lemma Chain(w: World, mode: Mode, s: string, a: seq<Token>, n: Mode, t: string, b: seq<Token>, o: Mode, u: string)
    requires Yields(w, mode, s, a, n, t) && Yields(w.Saw(a), n, t, b, o, u)
    ensures Yields(w, mode, s, a + b, o, u)
  {
    SawTwice(w, a, b);
    AfterTwice(Scan(w.Saw(a).Saw(b), o, u), a, b);
  }

  /** Something without a token comes first. */
  lemma Skip(w: World, mode: Mode, s: string, n: Mode, t: string, b: seq<Token>, o: Mode, u: string)
    requires Yields(w, mode, s, [], n, t) && Yields(w, n, t, b, o, u)
    ensures Yields(w, mode, s, b, o, u)
  {
    NoTokens(w, Scan(w, n, t));
  }

  lemma Here(w: World, mode: Mode, s: string)
    ensures Yields(w, mode, s, [], mode, s)
  {
    NoTokens(w, Scan(w, mode, s));
  }

  /** One match. */
  lemma ScanStep(w: World, mode: Mode, s: string, m: Match, tail: string)
    requires s != [] && NextMatch(w.initial, mode, s) == m && m.consumed <= |s| && s[m.consumed..] == tail
    requires m.consumed > 0 || (EndsLine(mode) && m.mode.Initial?)
    requires FileAt(w, mode, s).None?
    ensures Yields(w, mode, s, TokenOf(m), m.mode, tail)
  {
  }

  // ---------- the scanner as a program ----------

  /** How many matches and ends of files there are. */
  ghost function Steps(w: World, mode: Mode, s: string): nat
    decreases w.room, |s|, if EndsLine(mode) then 1 else 0
  {
    if s == [] || !Progress(mode, s, NextMatch(w.initial, mode, s)) then 0
    else
      var m := NextMatch(w.initial, mode, s);
      var file := FileAt(w, mode, s);
      if file.Some? then
        var inner := Scan(w.Below(), Initial, file.value);
        2 + Steps(w.Below(), Initial, file.value) + Steps(w.Saw(inner.tokens), inner.mode, s[m.consumed..])
      else 1 + Steps(w.Saw(TokenOf(m)), m.mode, s[m.consumed..])
  }

  ghost function StepsOn(w: World, mode: Mode, s: string, stack: seq<string>): nat
    decreases |stack|
  {
    var r := Scan(w, mode, s);
    Steps(w, mode, s)
    + if stack == [] then 0
      else 1 + StepsOn(w.Saw(r.tokens).Above(), r.mode, stack[|stack| - 1], stack[..|stack| - 1])
  }

  /** One step of the scanner, which delivers `ts`. */
  ghost predicate Goes(w: World, mode: Mode, s: string, stack: seq<string>, ts: seq<Token>,
                       v: World, n: Mode, t: string, stack': seq<string>) {
    && ScanOn(w, mode, s, stack) == ScanOn(v, n, t, stack').After(ts)
    && StepsOn(w, mode, s, stack) > StepsOn(v, n, t, stack')
  }

  lemma UnwindOne(w: World, mode: Mode, stack: seq<string>, top: string)
    ensures Unwind(w, mode, stack + [top]) == ScanOn(w.Above(), mode, top, stack)
  {
    var deeper := stack + [top];
    assert deeper[|deeper| - 1] == top && deeper[..|deeper| - 1] == stack;
  }

  /** At the end of a file the one below goes on. */
  lemma GoUp(w: World, mode: Mode, stack: seq<string>)
    requires stack != []
    ensures Goes(w, mode, "", stack, [], w.Above(), mode, stack[|stack| - 1], stack[..|stack| - 1])
  {
    var below, top := stack[..|stack| - 1], stack[|stack| - 1];
    assert stack == below + [top];
    UnwindOne(w, mode, below, top);
    NoTokens(w, Unwind(w, mode, stack));
    NoTokens(w, ScanOn(w.Above(), mode, top, below));
  }

  lemma GoUpSame(w: World, mode: Mode, stack: seq<string>)
    requires stack != []
    ensures var top, below := stack[|stack| - 1], stack[..|stack| - 1];
            && ScanOn(w.Above(), mode, top, below) == ScanOn(w, mode, "", stack)
            && StepsOn(w.Above(), mode, top, below) < StepsOn(w, mode, "", stack)
  {
    GoUp(w, mode, stack);
    NoTokens(w, ScanOn(w.Above(), mode, stack[|stack| - 1], stack[..|stack| - 1]));
  }

  /** An include file comes first. */
  lemma GoDown(w: World, mode: Mode, s: string, stack: seq<string>, m: Match, file: string)
    requires s != [] && m == NextMatch(w.initial, mode, s) && Progress(mode, s, m) && FileAt(w, mode, s) == Some(file)
    ensures Goes(w, mode, s, stack, [], w.Below(), Initial, file, stack + [s[m.consumed..]])
  {
    var outer := s[m.consumed..];
    var inner := Scan(w.Below(), Initial, file);
    var r := Scan(w.Saw(inner.tokens), inner.mode, outer);
    UnwindOne(w.Below().Saw(inner.tokens), inner.mode, stack, outer);
    assert w.Below().Saw(inner.tokens).Above() == w.Saw(inner.tokens);
    SawTwice(w, inner.tokens, r.tokens);
    AfterTwice(Unwind(w.Saw(inner.tokens + r.tokens), r.mode, stack), inner.tokens, r.tokens);
    NoTokens(w, ScanOn(w.Below(), Initial, file, stack + [outer]));
    var deeper := stack + [outer];
    assert deeper[|deeper| - 1] == outer && deeper[..|deeper| - 1] == stack;
  }

  lemma GoOn(w: World, mode: Mode, s: string, stack: seq<string>, m: Match)
    requires s != [] && m == NextMatch(w.initial, mode, s) && Progress(mode, s, m) && FileAt(w, mode, s).None?
    ensures Goes(w, mode, s, stack, TokenOf(m), w.Saw(TokenOf(m)), m.mode, s[m.consumed..], stack)
  {
    var ts := TokenOf(m);
    var r := Scan(w.Saw(ts), m.mode, s[m.consumed..]);
    SawTwice(w, ts, r.tokens);
    AfterTwice(Unwind(w.Saw(ts + r.tokens), r.mode, stack), ts, r.tokens);
  }

  /** The scanner with its stack of suspended files. */
  class Scanner {
    const files: Files
    var mode: Mode
    var rest: string
    var stack: seq<string>
    var seen: seq<Token>

    ghost predicate Valid()
      reads this
    {
      |stack| <= MAX_INCL_DEPTH
    }

    ghost function Place(): World
      reads this
      requires Valid()
    {
      World(InitialMatch, files, MAX_INCL_DEPTH - |stack|, seen)
    }

    /** What is still delivered, and the condition at the end. */
    ghost function Ahead(): Lexed
      reads this
      requires Valid()
    {
      ScanOn(Place(), mode, rest, stack)
    }

    /** How many steps that takes. */
    ghost function Work(): nat
      reads this
      requires Valid()
    {
      StepsOn(Place(), mode, rest, stack)
    }

    /** yy_scan_string() */
    constructor (files: Files, flex: Flex, text: string)
      requires |flex.stack| <= MAX_INCL_DEPTH
      ensures Valid() && this.files == files && Ahead() == Read(files, flex, text)
    {
      this.files := files;
      mode, rest, stack, seen := flex.mode, text, flex.stack, [];
    }

    /** The action of the rule for an include statement: the file is opened, or the statement
        is ignored. */
    method Include(uri: string) returns (file: Option<string>)
      requires Valid()
      ensures file == Place().Opened(uri)
    {
      if |stack| >= MAX_INCL_DEPTH {
        return None;
      }
      var ok := Uri.VerifyUriScheme(uri);
      file := if ok == 0 then files(seen, uri) else None;
    }

    /** The rule for the end of a file: the file below goes on, in the same condition. */
    method EndOfFile()
      requires Valid() && rest == [] && stack != []
      modifies this`rest, this`stack
      ensures Valid() && Ahead() == old(Ahead()) && Work() < old(Work())
    {
      ghost var above := Place().Above();
      GoUpSame(Place(), mode, stack);
      rest, stack := stack[|stack| - 1], stack[..|stack| - 1];
      assert Place() == above;
    }

    /** yy_switch_to_buffer() to an included file. */
    method Enter(file: string)
      requires Valid() && rest != [] && FileAt(Place(), mode, rest) == Some(file)
      modifies this`mode, this`rest, this`stack
      ensures Valid() && Ahead() == old(Ahead()) && Work() < old(Work())
    {
      var m := NextMatch(InitialMatch, mode, rest);
      AlwaysProgress(mode, rest);
      GoDown(Place(), mode, rest, stack, m, file);
      mode, rest, stack := Initial, file, stack + [rest[m.consumed..]];
      NoTokens(Place(), Ahead());
    }

    /** The action of any other rule. */
    method Take() returns (token: Option<Token>)
      requires Valid() && rest != [] && FileAt(Place(), mode, rest).None?
      modifies this`mode, this`rest, this`seen
      ensures Valid() && Work() < old(Work())
      ensures old(Ahead()) == if token.Some? then Ahead().After([token.value]) else Ahead()
    {
      var m := NextMatch(InitialMatch, mode, rest);
      AlwaysProgress(mode, rest);
      GoOn(Place(), mode, rest, stack, m);
      mode, rest, seen, token := m.mode, rest[m.consumed..], seen + TokenOf(m), m.token;
      NoTokens(Place(), Ahead());
    }

    /** yylex(): the next token, or nothing at the end of everything. */
    method Lex() returns (token: Option<Token>)
      requires Valid()
      modifies this`mode, this`rest, this`stack, this`seen
      ensures Valid()
      ensures old(Ahead()) == if token.Some? then Ahead().After([token.value]) else Lexed([], mode)
      ensures if token.Some? then Work() < old(Work()) else stack == []
    {
      while rest != [] || stack != []
        invariant Valid() && Ahead() == old(Ahead()) && Work() <= old(Work())
        decreases Work()
      {
        if rest == [] {
          EndOfFile();
        } else {
          var uri, file := IncludeUri(mode, rest), None;
          if uri.Some? {
            file := Include(uri.value);
          }
          if file.Some? {
            Enter(file.value);
          } else {
            token := Take();
            if token.Some? {
              return;
            }
          }
        }
      }
      AtEnd(Place(), mode);
      return None;
    }
  }

  lemma AtEnd(w: World, mode: Mode)
    ensures ScanOn(w, mode, [], []) == Lexed([], mode)
  {
  }

  lemma AnythingMatches(s: string)
    requires s != []
    ensures MatchLen(Pick(RULES, s), s) > 0
    ensures Pick(RULES, s).CommentRule? ==> MatchLen(Pick(RULES, s), s) > 1
  {
    var r := if s[0] == '\n' then NewlineRule else AnyRule;
    assert RULES[|NUMBERS + WORDS| + (if s[0] == '\n' then 2 else 4)] == r;
    PickLongest(RULES, s, r);
  }

  lemma {:induction false} PickLongest(rules: seq<Rule>, s: string, r: Rule)
    requires s != [] && r in rules
    ensures MatchLen(Pick(rules, s), s) >= MatchLen(r, s)
  {
    if |rules| > 1 && r != rules[0] {
      PickLongest(rules[1..], s, r);
    }
  }

  // ---------- which rule wins ----------

  lemma {:induction false} PickFirst(a: seq<Rule>, r: Rule, b: seq<Rule>, s: string)
    requires s != [] && forall k :: 0 <= k < |a| ==> MatchLen(a[k], s) < MatchLen(r, s)
    requires forall k :: 0 <= k < |b| ==> MatchLen(b[k], s) <= MatchLen(r, s)
    ensures Pick(a + [r] + b, s) == r
  {
    var rules := a + [r] + b;
    if a != [] {
      assert rules[0] == a[0] && rules[1..] == a[1..] + [r] + b;
      PickFirst(a[1..], r, b, s);
    } else if b != [] {
      assert rules[1..] == b;
      var later := Pick(b, s);
      assert later in b;
    }
  }

  /** Characters that end a word. */
  predicate EndsWord(c: char) { c in " \t\n{" }

  predicate IsWordRule(r: Rule) { r.Plain? || r.WithBlank? || r.WithUri? }

  lemma {:induction false} RunStops(p: char -> bool, s: string, i: nat)
    requires i < |s| && !p(s[i])
    ensures Run(p, s) <= i
  {
    if i > 0 && p(s[0]) {
      RunStops(p, s[1..], i - 1);
    }
  }

  lemma {:induction false} RunAtLeast(p: char -> bool, s: string, n: nat)
    requires n <= |s| && All(p, s[..n])
    ensures Run(p, s) >= n
  {
    if n > 0 {
      assert p(s[..n][0]);
      var tail := s[1..][..n - 1];
      forall k | 0 <= k < |tail| ensures p(tail[k]) {
        assert tail[k] == s[..n][k + 1];
      }
      RunAtLeast(p, s[1..], n - 1);
    }
  }

  lemma WordRun(w: Word, t: string, p: char -> bool)
    requires t != [] && !p(t[0]) && All(p, w)
    ensures Run(p, w + t) == |w|
  {
    assert (w + t)[..|w|] == w;
    RunIs(p, w + t, |w|);
  }

  lemma HexRunInWord(w: Word, t: string)
    requires t != [] && EndsWord(t[0])
    ensures var n := Run(IsHex, w + t); n <= |w| && (w + t)[n] != '.' && (w + t)[n] != ':'
  {
    var s := w + t;
    var n := Run(IsHex, s);
    assert s[|w|] == t[0] && !IsHex(t[0]);
    RunStops(IsHex, s, |w|);
    if n < |w| {
      assert s[n] == w[n] && IsWordChar(w[n]);
    }
  }

  lemma PrefixWord(u: Word, w: Word, t: string)
    requires t != [] && EndsWord(t[0])
    ensures u <= w + t ==> |u| <= |w| && (|u| == |w| ==> u == w) && (|u| < |w| ==> !IsBlank((w + t)[|u|]))
    ensures w <= w + t && (w + t)[|w|..] == t
  {
    var s := w + t;
    WordRun(w, t, IsWordChar);
    if u <= s {
      assert s[..|u|] == u;
      RunAtLeast(IsWordChar, s, |u|);
      assert |u| == |w| ==> s[..|u|] == w;
      if |u| < |w| {
        assert s[|u|] == w[|u|] && IsWordChar(w[|u|]);
      }
    }
  }

  /** How long the rules match a text that starts with the word `w`. */
  function Bound(r: Rule, w: Word, t: string): nat
    requires t != []
  {
    match r
    case NumberRule | HexNumRule | BusIdRule | MacRule | IpRule | CommentRule => 0
    case BlankRule | NewlineRule | PunctRule => 0
    case AnyRule => 1
    case IdRule => |w|
    case Plain(u) => if u <= w then |u| else 0
    case WithBlank(u) => if u == w && BlankLen(t) > 0 then |w| + BlankLen(t) else 0
    case WithUri(u) => if u == w && BlankUriLen(t) > 0 then |w| + BlankUriLen(t) else 0
  }

  lemma RuleBound(r: Rule, w: Word, t: string)
    requires t != [] && EndsWord(t[0])
    ensures MatchLen(r, w + t) == Bound(r, w, t)
  {
    assert (w + t)[0] == w[0] && IsWordChar(w[0]);
    if r.BusIdRule? || r.MacRule? {
      HexRunInWord(w, t);
    } else if r.IdRule? {
      IdWord(w, t);
    } else if IsWordRule(r) {
      WordRuleBound(r, w, t);
    }
  }

  lemma IdWord(w: Word, t: string)
    requires t != [] && EndsWord(t[0])
    ensures IdLen(w + t) == |w|
  {
    assert (w + t)[0] == w[0] && IsWordChar(w[0]);
    assert forall k :: 0 <= k < |w| ==> IsWordChar(w[k]);
    WordRun(w, t, IsIdChar);
  }

  lemma WordRuleBound(r: Rule, w: Word, t: string)
    requires t != [] && EndsWord(t[0]) && IsWordRule(r)
    ensures MatchLen(r, w + t) == Bound(r, w, t)
  {
    var s, u := w + t, r.word;
    PrefixWord(u, w, t);
    if u <= s {
      assert u == s[..|u|] == w[..|u|];
      if |u| < |w| {
        assert s[|u|..][0] == s[|u|];
        assert BlankLen(s[|u|..]) == 0;
      }
    } else {
      assert u <= w ==> u <= s;
    }
  }

  lemma WordRules()
    ensures forall r :: r in WORDS ==> IsWordRule(r)
  {
    assert forall k :: 0 <= k < |WORDS_A| ==> IsWordRule(WORDS_A[k]);
    assert forall k :: 0 <= k < |WORDS_B| ==> IsWordRule(WORDS_B[k]);
    assert forall k :: 0 <= k < |WORDS_C| ==> IsWordRule(WORDS_C[k]);
    assert forall k :: 0 <= k < |WORDS_D| ==> IsWordRule(WORDS_D[k]);
  }

  lemma FirstIndex(rules: seq<Rule>, r: Rule) returns (k: nat)
    requires r in rules
    ensures k < |rules| && rules[k] == r && r !in rules[..k]
  {
    k := 0;
    while rules[k] != r
      invariant k < |rules| && r !in rules[..k] && r in rules
      decreases |rules| - k
    {
      k := k + 1;
    }
  }

  /** Of the rules for the same word, the others match less. */
  predicate OnlyRival(words: seq<Rule>, r: Rule, w: Word, t: string)
    requires t != []
  {
    && (WithBlank(w) in words && r != WithBlank(w) ==> Bound(WithBlank(w), w, t) < Bound(r, w, t))
    && (WithUri(w) in words && r != WithUri(w) ==> Bound(WithUri(w), w, t) < Bound(r, w, t))
    && (Plain(w) in words && r != Plain(w) ==> |w| < Bound(r, w, t))
  }

  lemma Rivals(words: seq<Rule>, r: Rule, w: Word, t: string)
    requires t != [] && Bound(r, w, t) >= |w| && OnlyRival(words, r, w, t)
    requires forall x :: x in words ==> IsWordRule(x)
    ensures forall x :: x in words && x != r ==> Bound(x, w, t) < Bound(r, w, t)
  {
    forall x | x in words && x != r ensures Bound(x, w, t) < Bound(r, w, t) {
      if x.Plain? && x.word <= w && |x.word| == |w| {
        assert x.word == w;
      }
    }
  }

  lemma NumbersBound(w: Word, t: string)
    requires t != []
    ensures forall x :: x in NUMBERS ==> Bound(x, w, t) == 0
  {
    assert forall k :: 0 <= k < |NUMBERS| ==> Bound(NUMBERS[k], w, t) == 0;
  }

  lemma OthersBound(w: Word, t: string)
    requires t != []
    ensures forall x :: x in OTHERS ==> Bound(x, w, t) <= |w|
  {
    assert forall k :: 0 <= k < |OTHERS| ==> Bound(OTHERS[k], w, t) <= |w|;
  }

  /** A rule for the word at the start of the text wins if it beats the other
      rules for the same word. */
  lemma PickWordRule(w: Word, t: string, r: Rule)
    requires t != [] && EndsWord(t[0]) && r in WORDS && Bound(r, w, t) >= |w| && OnlyRival(WORDS, r, w, t)
    ensures Pick(RULES, w + t) == r
  {
    WordRules();
    NumbersBound(w, t);
    OthersBound(w, t);
    Rivals(WORDS, r, w, t);
    forall x ensures MatchLen(x, w + t) == Bound(x, w, t) {
      RuleBound(x, w, t);
    }
    PickAmong(NUMBERS, WORDS, OTHERS, w + t, r);
  }

  lemma PickAmong(numbers: seq<Rule>, words: seq<Rule>, others: seq<Rule>, s: string, r: Rule)
    requires s != [] && r in words
    requires forall x :: x in numbers ==> MatchLen(x, s) < MatchLen(r, s)
    requires forall x :: x in words && x != r ==> MatchLen(x, s) < MatchLen(r, s)
    requires forall x :: x in others ==> MatchLen(x, s) <= MatchLen(r, s)
    ensures Pick(numbers + words + others, s) == r
  {
    var k := FirstIndex(words, r);
    var a, b := numbers + words[..k], words[k + 1..] + others;
    forall x | x in a ensures MatchLen(x, s) < MatchLen(r, s) {
      assert x in numbers || x in words[..k];
    }
    forall x | x in b ensures MatchLen(x, s) <= MatchLen(r, s) {
      assert x in words[k + 1..] || x in others;
    }
    Around(numbers, words, k, others);
    PickFirst(a, r, b, s);
  }

  lemma Around(numbers: seq<Rule>, words: seq<Rule>, k: nat, others: seq<Rule>)
    requires k < |words|
    ensures (numbers + words[..k]) + [words[k]] + (words[k + 1..] + others) == numbers + words + others
  {
    assert words == words[..k] + [words[k]] + words[k + 1..];
  }

  /** A character with which no word, number or identifier starts. */
  predicate IsOther(c: char) { c == '\n' || c == '{' || c == '}' || c == ' ' }

  lemma NoWordMatches(words: seq<Rule>, s: string)
    requires s != [] && IsOther(s[0]) && forall r :: r in words ==> IsWordRule(r)
    ensures forall r :: r in words ==> MatchLen(r, s) == 0
  {
    forall r | r in words ensures MatchLen(r, s) == 0 {
      assert IsWordChar(r.word[0]);
    }
  }

  lemma NoNumberMatches(s: string)
    requires s != [] && IsOther(s[0])
    ensures forall r :: r in NUMBERS ==> MatchLen(r, s) == 0
  {
    assert forall k :: 0 <= k < |NUMBERS| ==> MatchLen(NUMBERS[k], s) == 0;
  }

  /** Of the last rules the first that matches a single character. */
  function OtherRule(c: char): nat { if c == '\n' then 2 else if c == ' ' then 1 else 3 }

  lemma OthersMatch(s: string)
    requires s != [] && IsOther(s[0])
    ensures var n := OtherRule(s[0]);
            && (forall k :: 0 <= k < n ==> MatchLen(OTHERS[k], s) == 0) && MatchLen(OTHERS[n], s) > 0
            && (forall k :: n < k < |OTHERS| ==> MatchLen(OTHERS[k], s) <= MatchLen(OTHERS[n], s))
  {
  }

  lemma PickLate(numbers: seq<Rule>, words: seq<Rule>, others: seq<Rule>, n: nat, s: string)
    requires s != [] && n < |others| && MatchLen(others[n], s) > 0
    requires (forall r :: r in numbers ==> MatchLen(r, s) == 0) && (forall r :: r in words ==> MatchLen(r, s) == 0)
    requires forall k :: 0 <= k < n ==> MatchLen(others[k], s) == 0
    requires forall k :: n < k < |others| ==> MatchLen(others[k], s) <= MatchLen(others[n], s)
    ensures Pick(numbers + words + others, s) == others[n]
  {
    var a, r, b := numbers + words + others[..n], others[n], others[n + 1..];
    forall i | 0 <= i < |a| ensures MatchLen(a[i], s) < MatchLen(r, s) {
      assert a[i] in numbers || a[i] in words || a[i] in others[..n];
    }
    assert a + [r] + b == numbers + words + others;
    PickFirst(a, r, b, s);
  }

  /** Where no word starts, only the rules for single characters and blanks match. */
  lemma PickOther(s: string)
    requires s != [] && IsOther(s[0])
    ensures Pick(RULES, s) == if s[0] == '\n' then NewlineRule else if s[0] == ' ' then BlankRule else PunctRule
  {
    WordRules();
    NoWordMatches(WORDS, s);
    NoNumberMatches(s);
    OthersMatch(s);
    PickLate(NUMBERS, WORDS, OTHERS, OtherRule(s[0]), s);
  }

  // ---------- single matches ----------

  lemma PlainBeats(words: seq<Rule>, w: Word, t: string)
    requires t != [] && (BlankLen(t) > 0 ==> WithBlank(w) !in words && WithUri(w) !in words)
    ensures Bound(Plain(w), w, t) == |w| && OnlyRival(words, Plain(w), w, t)
  {
  }

  lemma BlankBeats(words: seq<Rule>, w: Word, v: string)
    requires v != "" && !IsBlank(v[0]) && (WithUri(w) in words ==> UriStartLen(v) == 0)
    ensures Bound(WithBlank(w), w, " " + v) == |w| + 1 && OnlyRival(words, WithBlank(w), w, " " + v)
  {
    OneBlank(v);
  }

  lemma UriBeats(words: seq<Rule>, w: Word, v: string)
    requires UriStartLen(v) > 0
    ensures Bound(WithUri(w), w, " " + v) == |w| + 1 + UriStartLen(v) && OnlyRival(words, WithUri(w), w, " " + v)
  {
    OneBlank(v);
  }

  lemma MatchBare(w: Word, t: string)
    requires t != [] && EndsWord(t[0]) && Plain(w) in WORDS && w != "include" && w != "mod"
    requires BlankLen(t) > 0 ==> WithBlank(w) !in WORDS && WithUri(w) !in WORDS
    ensures InitialMatch(w + t) == Match(Some(Keyword(w)), Initial, |w|)
  {
    PlainBeats(WORDS, w, t);
    PickWordRule(w, t, Plain(w));
    RuleBound(Plain(w), w, t);
  }

  lemma MatchWithBlank(w: Word, v: string)
    requires WithBlank(w) in WORDS && w != "timeout" && w != "userinterface"
    requires v != "" && !IsBlank(v[0]) && (WithUri(w) in WORDS ==> UriStartLen(v) == 0)
    ensures InitialMatch(w + (" " + v)) == Match(Some(Keyword(w)), StrMode, |w| + 1)
  {
    BlankBeats(WORDS, w, v);
    PickWordRule(w, " " + v, WithBlank(w));
    RuleBound(WithBlank(w), w, " " + v);
  }

  lemma MatchWithUri(w: Word, v: string)
    requires WithUri(w) in WORDS && UriStartLen(v) > 0
    ensures InitialMatch(w + (" " + v)) == Match(Some(Keyword(w)), UriMode, |w|)
  {
    UriBeats(WORDS, w, v);
    PickWordRule(w, " " + v, WithUri(w));
  }

  lemma OneBlank(v: string)
    requires v != "" && !IsBlank(v[0])
    ensures BlankLen(" " + v) == 1 && (" " + v)[1..] == v
    ensures BlankUriLen(" " + v) == if UriStartLen(v) > 0 then 1 + UriStartLen(v) else 0
  {
    var s := " " + v;
    assert s[..1] == " " && s[1] == v[0];
    RunIs(IsBlank, s, 1);
  }

  lemma MatchNewline(s: string)
    requires s != [] && s[0] == '\n'
    ensures InitialMatch(s) == Match(None, Initial, 1)
  {
    PickOther(s);
    NewlineAction(s);
  }

  lemma NewlineAction(s: string)
    requires s != [] && s[0] == '\n'
    ensures RuleMatch(NewlineRule, s) == Match(None, Initial, 1)
  {
  }

  lemma MatchBrace(s: string)
    requires s != [] && (s[0] == '{' || s[0] == '}')
    ensures InitialMatch(s) == Match(Some(Punct(s[0])), Initial, 1)
  {
    PickOther(s);
    BraceAction(s);
  }

  lemma BraceAction(s: string)
    requires s != [] && (s[0] == '{' || s[0] == '}')
    ensures RuleMatch(PunctRule, s) == Match(Some(Punct(s[0])), Initial, 1)
  {
  }

  lemma MatchOneBlank(v: string)
    requires v != "" && !IsBlank(v[0])
    ensures InitialMatch(" " + v) == Match(None, Initial, 1)
  {
    PickOther(" " + v);
    BlankAction(v);
  }

  lemma BlankAction(v: string)
    requires v != "" && !IsBlank(v[0])
    ensures RuleMatch(BlankRule, " " + v) == Match(None, Initial, 1)
  {
    OneBlank(v);
  }

  // ---------- the rules for the words of a printed entry ----------

  lemma PartOfWords(r: Rule)
    requires r in WORDS_B || r in WORDS_D
    ensures r in WORDS
  {
  }

  lemma BootEntryRules()
    ensures Plain("boot_entry") in WORDS && WithBlank("boot_entry") !in WORDS && WithUri("boot_entry") !in WORDS
  {
    assert WORDS_B[0] == Plain("boot_entry");
    PartOfWords(Plain("boot_entry"));
    NotARule(WithBlank("boot_entry"));
    NotARule(WithUri("boot_entry"));
  }

  lemma ActionRule(w: Word)
    requires w == "reboot" || w == "halt" || w == "exit" || w == "shell"
    ensures Plain(w) in WORDS
  {
    assert WORDS_B[2] == Plain("reboot") && WORDS_B[3] == Plain("halt");
    assert WORDS_B[4] == Plain("exit") && WORDS_B[5] == Plain("shell");
    PartOfWords(Plain(w));
  }

  lemma TextRule(w: Word)
    requires w == "title" || w == "label" || w == "cmdline"
    ensures WithBlank(w) in WORDS && WithUri(w) !in WORDS
  {
    assert WORDS_D[3] == WithBlank("title") && WORDS_D[4] == WithBlank("label") && WORDS_D[5] == WithBlank("cmdline");
    PartOfWords(WithBlank(w));
    NotARule(WithUri(w));
  }

  lemma FileRule(w: Word)
    requires w == "kernel" || w == "initrd" || w == "parmfile"
    ensures WithBlank(w) in WORDS && WithUri(w) in WORDS
  {
    assert WORDS_D[6] == WithBlank("kernel") && WORDS_D[7] == WithUri("kernel");
    assert WORDS_D[8] == WithBlank("initrd") && WORDS_D[9] == WithUri("initrd");
    assert WORDS_D[11] == WithBlank("parmfile") && WORDS_D[12] == WithUri("parmfile");
    PartOfWords(WithBlank(w));
    PartOfWords(WithUri(w));
  }

  lemma UriRule(w: Word)
    requires w == "root" || w == "insfile" || w == "bootmap"
    ensures WithUri(w) in WORDS
  {
    assert WORDS_D[10] == WithUri("root") && WORDS_D[13] == WithUri("insfile") && WORDS_D[14] == WithUri("bootmap");
    PartOfWords(WithUri(w));
  }

  lemma NotARule(r: Rule)
    requires r == WithBlank("boot_entry") || (r.WithUri? && r.word in ["boot_entry", "title", "label", "cmdline"])
    ensures r !in WORDS
  {
    assert forall k :: 0 <= k < |WORDS_A| ==> WORDS_A[k] != r;
    assert forall k :: 0 <= k < |WORDS_B| ==> WORDS_B[k] != r;
    assert forall k :: 0 <= k < |WORDS_C| ==> WORDS_C[k] != r;
    assert forall k :: 0 <= k < |WORDS_D| ==> WORDS_D[k] != r;
  }
}
