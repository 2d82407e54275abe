/**
 What one text leaves in the scanner for the next one: where the parser stops reading,
 and the state of the scanner at that place (core/sysload.conf.y, core/sysload.conf.l).
 */
module ScannerCarry {
  import opened Config
  import opened ScannerState
  import opened BootEntryScanner
  import opened ConfigGrammar

  // ---------- what the grammar accepts ----------

  /** Addresses behind commas, at most `max` of them. */
  function SkipAddresses(max: nat, ts: seq<Token>): seq<Token> {
    if max > 0 && |ts| >= 2 && ts[0] == Punct(',') && ts[1].IpAddr? then SkipAddresses(max - 1, ts[2..]) else ts
  }

  /** The rule knet_params. */
  predicate KnetParams(ts: seq<Token>) {
    |ts| >= 3 && ts[1] == Punct(',') && ts[2].Ident?
    && if ts[0] == Keyword("dhcp") then |ts| == 3
       else ts[0] == Keyword("static") && |ts| >= 5 && ts[3] == Punct(',') && ts[4].IpAddr?
            && SkipAddresses(3, ts[5..]) == []
  }

  /** Three values in parentheses. */
  predicate ThreeValues(ts: seq<Token>) {
    |ts| >= 8 && ts[2].BusIdVal? && ts[3] == Punct(',') && ts[5] == Punct(',') && ts[7] == Punct(')')
  }

  /** The rule kset_param: the tokens behind it. */
  function KsetParam(ts: seq<Token>): (rest: Option<seq<Token>>)
    ensures rest.Some? ==> |rest.value| < |ts|
  {
    if |ts| < 4 || !ts[0].Keyword? || ts[1] != Punct('(') then None
    else
      match ts[0].word
      case "dasd" => if ts[2].BusIdVal? && ts[3] == Punct(')') then Some(ts[4..]) else None
      case "qeth" => if ThreeValues(ts) && ts[4].BusIdVal? && ts[6].BusIdVal? then Some(ts[8..]) else None
      case "zfcp" => if ThreeValues(ts) && ts[4].HexNum? && ts[6].HexNum? then Some(ts[8..]) else None
      case "dhcp" | "static" =>
        var rest := SkipAddresses(4, ts[3..]);
        SkippedIsShort(4, ts[3..]);
        if ts[2].Ident? && rest != [] && rest[0] == Punct(')') then Some(rest[1..]) else None
      case "mod" => if ts[2].Ident? && ts[3] == Punct(')') then Some(ts[4..]) else None
      case _ => None
  }

  lemma {:induction false} SkippedIsShort(max: nat, ts: seq<Token>)
    ensures |SkipAddresses(max, ts)| <= |ts|
  {
    if max > 0 && |ts| >= 2 {
      SkippedIsShort(max - 1, ts[2..]);
    }
  }

  /** The rule kset_paramlist. */
  predicate KsetParams(ts: seq<Token>)
    decreases |ts|
  {
    var rest := KsetParam(ts);
    rest.Some? && (rest.value == [] || (rest.value[0] == Punct(',') && KsetParams(rest.value[1..])))
  }

  /** The rule input. */
  predicate Accepted(ts: seq<Token>) {
    || (ts != [] && ParseDefs(ts).Some?)
    || (|ts| >= 2 && ts[0] == Keyword("knet") && ts[1] == Punct('=') && KnetParams(ts[2..]))
    || (|ts| >= 2 && ts[0] == Keyword("kset") && ts[1] == Punct('=') && KsetParams(ts[2..]))
  }

  // ---------- where the parser stops ----------

  /** Something that is accepted starts with these tokens. */
  ghost predicate Viable(ts: seq<Token>) { exists all :: ts <= all && Accepted(all) }

  /** The first token after which nothing can be accepted: the parser stops behind it. Without
      such a token it reads everything. */
  ghost function ErrorAt(viable: seq<Token> -> bool, ts: seq<Token>, k: nat): (n: nat)
    requires k <= |ts|
    ensures k <= n <= |ts|
    decreases |ts| - k
  {
    if k == |ts| || !viable(ts[..k + 1]) then k else ErrorAt(viable, ts, k + 1)
  }

  /** The state of the scanner when it has delivered `k` tokens of a text; `below` are the
      files that are suspended. */
  ghost function StateAt(w: World, mode: Mode, s: string, below: seq<string>, k: nat): Flex
    decreases w.room, |s|, if EndsLine(mode) then 1 else 0
  {
    if k == 0 || s == [] || !Progress(mode, s, NextMatch(w.initial, mode, s)) then Flex(mode, below)
    else
      var m := NextMatch(w.initial, mode, s);
      var file := FileAt(w, mode, s);
      if file.Some? then
        var inner := Scan(w.Below(), Initial, file.value);
        if k <= |inner.tokens| then StateAt(w.Below(), Initial, file.value, below + [s[m.consumed..]], k)
        else StateAt(w.Saw(inner.tokens), inner.mode, s[m.consumed..], below, k - |inner.tokens|)
      else StateAt(w.Saw(TokenOf(m)), m.mode, s[m.consumed..], below, if m.token.Some? then k - 1 else k)
  }

  ghost function UnwindAt(w: World, mode: Mode, stack: seq<string>, k: nat): Flex
    decreases |stack|
  {
    if k == 0 || stack == [] then Flex(mode, stack)
    else
      var top, rest := stack[|stack| - 1], stack[..|stack| - 1];
      var r := Scan(w.Above(), mode, top);
      if k <= |r.tokens| then StateAt(w.Above(), mode, top, rest, k)
      else UnwindAt(w.Above().Saw(r.tokens), r.mode, rest, k - |r.tokens|)
  }

  ghost function ReadAt(files: Files, flex: Flex, text: string, k: nat): Flex {
    var w := Start(files, flex.stack);
    var r := Scan(w, flex.mode, text);
    if k <= |r.tokens| then StateAt(w, flex.mode, text, flex.stack, k)
    else UnwindAt(w.Saw(r.tokens), r.mode, flex.stack, k - |r.tokens|)
  }

  /** The state in which the next text is scanned. */
  ghost function FlexAfter(files: Files, flex: Flex, text: string): Flex {
    var r := Read(files, flex, text);
    var k := ErrorAt(Viable, r.tokens, 0);
    if k == |r.tokens| then Flex(r.mode, []) else ReadAt(files, flex, text, k + 1)
  }

  // ---------- what every text keeps ----------

  /** The rest of a file behind an include statement starts with a line end. */
  predicate StartsLine(s: string) { s != "" && s[0] == '\n' }

  /** All files that are suspended were left behind an include statement. */
  predicate GoodStack(stack: seq<string>) {
    |stack| <= MAX_INCL_DEPTH && forall t :: t in stack ==> StartsLine(t)
  }

  lemma BehindInclude(mode: Mode, s: string, m: Match, initial: string -> Match)
    requires s != [] && IncludeUri(mode, s).Some? && m == NextMatch(initial, mode, s)
    ensures m.consumed < |s| && StartsLine(s[m.consumed..])
  {
  }

  lemma {:induction false} StateIsGood(w: World, mode: Mode, s: string, below: seq<string>, k: nat)
    requires GoodStack(below) && |below| + w.room <= MAX_INCL_DEPTH
    ensures GoodStack(StateAt(w, mode, s, below, k).stack)
    decreases w.room, |s|, if EndsLine(mode) then 1 else 0
  {
    if k > 0 && s != [] && Progress(mode, s, NextMatch(w.initial, mode, s)) {
      var m := NextMatch(w.initial, mode, s);
      if FileAt(w, mode, s).Some? {
        var inner := Scan(w.Below(), Initial, FileAt(w, mode, s).value);
        BehindInclude(mode, s, m, w.initial);
        if k <= |inner.tokens| {
          StateIsGood(w.Below(), Initial, FileAt(w, mode, s).value, below + [s[m.consumed..]], k);
        } else {
          StateIsGood(w.Saw(inner.tokens), inner.mode, s[m.consumed..], below, k - |inner.tokens|);
        }
      } else {
        StateIsGood(w.Saw(TokenOf(m)), m.mode, s[m.consumed..], below, if m.token.Some? then k - 1 else k);
      }
    }
  }

  lemma {:induction false} UnwindIsGood(w: World, mode: Mode, stack: seq<string>, k: nat)
    requires GoodStack(stack) && |stack| + w.room <= MAX_INCL_DEPTH
    ensures GoodStack(UnwindAt(w, mode, stack, k).stack)
    decreases |stack|
  {
    if k > 0 && stack != [] {
      var top, rest := stack[|stack| - 1], stack[..|stack| - 1];
      var r := Scan(w.Above(), mode, top);
      assert forall t :: t in rest ==> t in stack;
      if k <= |r.tokens| {
        StateIsGood(w.Above(), mode, top, rest, k);
      } else {
        UnwindIsGood(w.Above().Saw(r.tokens), r.mode, rest, k - |r.tokens|);
      }
    }
  }

  lemma ReadIsGood(files: Files, flex: Flex, text: string, k: nat)
    requires GoodStack(flex.stack)
    ensures GoodStack(ReadAt(files, flex, text, k).stack)
  {
    var w := Start(files, flex.stack);
    var r := Scan(w, flex.mode, text);
    if k <= |r.tokens| {
      StateIsGood(w, flex.mode, text, flex.stack, k);
    } else {
      UnwindIsGood(w.Saw(r.tokens), r.mode, flex.stack, k - |r.tokens|);
    }
  }

  /** However a text ends, what it leaves in suspension starts with line ends. */
  lemma FlexStaysGood(files: Files, flex: Flex, text: string)
    requires GoodStack(flex.stack)
    ensures GoodStack(FlexAfter(files, flex, text).stack)
  {
    ReadIsGood(files, flex, text, ErrorAt(Viable, Read(files, flex, text).tokens, 0) + 1);
  }

  // ---------- texts that are accepted ----------

  lemma ViableBeginning(ts: seq<Token>, k: nat)
    requires Viable(ts) && k <= |ts|
    ensures Viable(ts[..k])
  {
    var all :| ts <= all && Accepted(all);
    assert ts[..k] <= all;
  }

  lemma {:induction false} NoError(viable: seq<Token> -> bool, ts: seq<Token>, k: nat)
    requires (forall n :: 0 <= n <= |ts| ==> viable(ts[..n])) && k <= |ts|
    ensures ErrorAt(viable, ts, k) == |ts|
    decreases |ts| - k
  {
    if k < |ts| {
      NoError(viable, ts, k + 1);
    }
  }

  /** A text that is accepted, or that could be continued to one, is read to its end. */
  lemma ViableIsRead(files: Files, flex: Flex, text: string)
    requires Viable(Read(files, flex, text).tokens)
    ensures FlexAfter(files, flex, text) == Flex(Read(files, flex, text).mode, [])
  {
    var ts := Read(files, flex, text).tokens;
    forall n | 0 <= n <= |ts| ensures Viable(ts[..n]) {
      ViableBeginning(ts, n);
    }
    NoError(Viable, ts, 0);
  }
}
