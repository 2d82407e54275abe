/**
 The whole way of a boot entry: from the text of the configuration through the
 environment to a user interface, back through a pipe, and to the loader.
 */
module MenuChoice {
  import opened Config
  import opened CText
  import opened UiControl
  import opened UiRuns
  import opened UiChances
  import opened UiChanceRuns
  import opened UiChanceTexts
  import opened UiTexts
  import BootEntryClosure
  import BootEntryCut
  import BootEntryNext
  import BootEntryRoundTrip
  import BootEntryScanner
  import BootEntrySplit
  import BootEntryText
  import ConfigGrammar
  import ConfigLanguage
  import ConfigText
  import Decimal
  import Environment
  import ScannerCarry
  import ScannerState

  type Env = ConfigLanguage.Env
  type Files = BootEntryScanner.Files

  /** How the controller reads the text of a client. */
  ghost function EntryParser(env: Env, files: Files): Parser {
    (flex, text) => (ConfigGrammar.Parse(env, files, flex, text), ScannerCarry.FlexAfter(files, flex, text))
  }

  // ---------- a printed entry is booted ----------

  /** A client wrote nothing but a printed entry, or the beginning of one, and gave the
      answer; no file was suspended when its text was scanned. */
  predicate PrintedGave(s: State, e: Bentry) {
    Answered(s) && Source(s) <= BootEntryText.Print(e) && ScannedIn(s).stack == []
  }

  lemma PrefixNulFree(p: string, s: string)
    requires p <= s && NulFree(s)
    ensures NulFree(p)
  {
    assert p == s[..|p|];
  }

  /** What was accepted is a beginning of the entry, and the scanner was in the INITIAL
      condition. */
  lemma AnswerOfPrinted(env: Env, files: Files, init: State, actions: seq<Action>, e: Bentry)
    requires Initial(init) && BootEntryText.Scanned(e) && NulFree(BootEntryText.Print(e))
             && !BootEntrySplit.Misread(env, files, e)
    requires PrintedGave(Run(EntryParser(env, files), init, actions), e)
    ensures var s := Run(EntryParser(env, files), init, actions);
            Answer(s) == BootEntryRoundTrip.Arrives(e) && ScannedIn(s) == ScannerState.RESET
    ensures e.title != "" && BootEntryRoundTrip.HasOption(e)
  {
    var s, printed := Run(EntryParser(env, files), init, actions), BootEntryText.Print(e);
    PrefixNulFree(Source(s), printed);
    AnswerIsPrefix(EntryParser(env, files), init, actions);
    var p :| p <= Source(s) && EntryParser(env, files)(ScannedIn(s), p).0 == Some(Answer(s));
    assert p <= printed;
    if !ScannedIn(s).mode.Initial? {
      BootEntryNext.OtherModeRejects(env, files, ScannedIn(s).mode, e, p);
    }
    BootEntrySplit.NoOtherEntryExactly(env, files, e);
    var reset := ScannerState.RESET;
    assert ConfigGrammar.Parse(env, files, reset, p) == ConfigGrammar.Parse(env, files, reset, printed);
    BootEntryRoundTrip.PrintParseReset(env, files, e);
  }

  /** A client that writes all of an entry that can be misread, and is read only in part. */
  lemma AnotherIsBooted(env: Env, files: Files, init: State, e: Bentry) returns (actions: seq<Action>)
    requires Initial(init) && init.scanner == ScannerState.RESET && |init.config.uis| > 0
    requires BootEntryText.Scanned(e) && NulFree(BootEntryText.Print(e)) && BootEntrySplit.Misread(env, files, e)
    ensures var s := Run(EntryParser(env, files), init, actions);
            && PrintedGave(s, e) && ScannedIn(s) == ScannerState.RESET && Source(s) == BootEntryText.Print(e)
            && Answer(s) != BootEntryRoundTrip.Arrives(e)
  {
    var p := BootEntrySplit.OtherEntryRead(env, files, e);
    actions := AnswerFromPart(EntryParser(env, files), init, BootEntryText.Print(e), p);
  }

  /** The answer is the entry as it arrives. */
  ghost predicate BootedAsPrinted(env: Env, files: Files, init: State, e: Bentry) {
    forall actions :: var s := Run(EntryParser(env, files), init, actions);
      PrintedGave(s, e) ==> Answer(s) == BootEntryRoundTrip.Arrives(e)
  }

  lemma UnlessMisread(env: Env, files: Files, init: State, e: Bentry)
    requires Initial(init) && BootEntryText.Scanned(e) && NulFree(BootEntryText.Print(e))
    requires !BootEntrySplit.Misread(env, files, e)
    ensures BootedAsPrinted(env, files, init, e)
  {
    forall actions | PrintedGave(Run(EntryParser(env, files), init, actions), e)
      ensures Answer(Run(EntryParser(env, files), init, actions)) == BootEntryRoundTrip.Arrives(e)
    {
      AnswerOfPrinted(env, files, init, actions, e);
    }
  }

  /** In every run of the controller, whatever the configuration left in the scanner and
      whatever is written or read of a printed entry, the answer is that entry as it
      arrives: this holds for exactly the entries that cannot be misread. */
  lemma PrintedEntryIsBooted(env: Env, files: Files, init: State, e: Bentry)
    requires Initial(init) && |init.config.uis| > 0 && BootEntryText.Scanned(e) && NulFree(BootEntryText.Print(e))
    ensures (forall flex :: BootedAsPrinted(env, files, init.(scanner := flex), e))
       <==> !BootEntrySplit.Misread(env, files, e)
  {
    if BootEntrySplit.Misread(env, files, e) {
      var actions := AnotherIsBooted(env, files, init.(scanner := ScannerState.RESET), e);
      assert !BootedAsPrinted(env, files, init.(scanner := ScannerState.RESET), e);
    } else {
      forall flex ensures BootedAsPrinted(env, files, init.(scanner := flex), e) {
        UnlessMisread(env, files, init.(scanner := flex), e);
      }
    }
  }

  // ---------- a text that can never become an entry ----------

  lemma BraceIsRejected(env: Env, files: Files, text: string)
    requires text != "" && text[0] == '}'
    ensures ConfigGrammar.Parse(env, files, ScannerState.RESET, text) == None
  {
    BootEntryCut.ReadAlone(files, ScannerState.Initial, text);
    BootEntryNext.LineToken(BootEntryScanner.Start(files, []), text, text);
    BootEntryNext.HopelessIsRejected(env, files, ScannerState.RESET, text);
  }

  /** The only client has written a closing brace first. */
  predicate BraceFirst(s: State) {
    && BeforeSelect(s) && s.scanner == ScannerState.RESET
    && |s.clients| == 1 && s.clients[0].process.Alive? && "}" <= s.clients[0].collected
  }

  lemma NothingAfterBrace(env: Env, files: Files, s: State, i: nat)
    requires Good(EntryParser(env, files), s) && BraceFirst(s)
    ensures !CanAnswer(EntryParser(env, files), s, i)
  {
    if i > 0 {
      NoOtherClient(EntryParser(env, files), s, i);
    } else {
      OnlyClientAnswers(EntryParser(env, files), s);
      forall n: nat, text | CanGive(s.clients[0], n, text)
        ensures ConfigGrammar.Parse(env, files, s.scanner, text) == None
      {
        var mores {:trigger Rounds(s.clients[0], mores)} :|
          |mores| == n && Rounds(s.clients[0], mores).collected == text;
        CollectedStays(s.clients[0], mores);
        BraceIsRejected(env, files, text);
      }
    }
  }

  /** A single user interface that is running, but has written a closing brace first, makes
      sysload wait forever if no timeout can happen. */
  lemma BraceWaitsForever(env: Env, files: Files, init: State, before: seq<Action>, after: seq<Action>)
    requires Initial(init) && Calm(after)
    requires var s := Run(EntryParser(env, files), init, before); BraceFirst(s) && Safe(s)
    ensures !Run(EntryParser(env, files), Run(EntryParser(env, files), init, before), after).control.Cleanup?
  {
    var parse := EntryParser(env, files);
    var s := Run(parse, init, before);
    GoodRun(parse, init, before);
    forall i: nat ensures !CanAnswer(parse, s, i) {
      NothingAfterBrace(env, files, s, i);
    }
    WaitsForeverExactly(parse, init, before);
  }

  // ---------- the menu ----------

  /** The integers of a state fit into those of the C structure. */
  predicate Fits(s: ConfigLanguage.State) {
    Environment.IsInt(s.top.timeout) && forall b :: b in s.top.bentries ==> Environment.IsInt(b.locked)
  }

  lemma {:induction false} LockedFits(b: Bentry, options: seq<ConfigLanguage.BootOption>)
    requires Environment.IsInt(b.locked)
    ensures Environment.IsInt(ConfigLanguage.Fold(ConfigLanguage.SetOption, b, options).locked)
    decreases |options|
  {
    if options != [] {
      LockedFits(ConfigLanguage.SetOption(b, options[0]), options[1..]);
    }
  }

  lemma StatementFits(env: Env, depth: nat, s: ConfigLanguage.State, st: ConfigLanguage.Statement)
    requires Fits(s)
    ensures Fits(ConfigLanguage.Evaluate(env, depth, s, st)) && Fits(ConfigLanguage.Drop(s, st))
  {
    if st.BootEntry? {
      LockedFits(NEW_BENTRY.(title := st.title, tag := if st.tag.Some? then st.tag.value else ""),
                 ConfigLanguage.Select(env.host, env.cap, true, depth, st.options));
    }
  }

  lemma {:induction false} AllFits(env: Env, on: bool, depth: nat, s: ConfigLanguage.State,
                                   items: seq<ConfigLanguage.Item<ConfigLanguage.Statement>>)
    requires Fits(s)
    ensures Fits(ConfigLanguage.EvaluateAll(env, on, depth, s, items))
    decreases items
  {
    if items != [] {
      match items[0]
      case Leaf(st) =>
        StatementFits(env, depth, s, st);
        var after := if on then ConfigLanguage.Evaluate(env, depth, s, st) else ConfigLanguage.Drop(s, st);
        AllFits(env, on, depth, after, items[1..]);
      case Section(cond, body) =>
        var inside := ConfigLanguage.Inside(env.host, env.cap, on, depth + 1, cond);
        AllFits(env, inside, depth + 1, s, body);
        AllFits(env, on, depth, ConfigLanguage.EvaluateAll(env, inside, depth + 1, s, body), items[1..]);
    }
  }

  /** A configuration that was read can be handed over. */
  lemma ConfigurationFits(env: Env, files: Files, flex: Flex, text: string)
    requires ConfigText.TextConfiguration(env, files, flex, text).Some?
    requires |ConfigText.TextConfiguration(env, files, flex, text).value.bentries| <= Decimal.INT_MAX
    ensures Environment.Representable(ConfigText.TextConfiguration(env, files, flex, text).value)
  {
    AllFits(env, true, 0, ConfigLanguage.INITIAL, ConfigGrammar.Definitions(files, flex, text).value);
  }

  /** A configuration that is accepted leaves no suspended file. */
  lemma ConfigurationLeaves(env: Env, files: Files, flex: Flex, text: string)
    requires ConfigText.TextConfiguration(env, files, flex, text).Some?
    ensures ScannerCarry.FlexAfter(files, flex, text).stack == []
  {
    var ts := BootEntryScanner.Read(files, flex, text).tokens;
    assert ScannerCarry.Accepted(ts);
    ScannerCarry.ViableIsRead(files, flex, text);
  }

  /** For every configuration text, with the files it includes, and every entry of it: the
      user interface finds the entry under its index, whatever the environment held
      before. If it prints it, then that entry is booted in every run if it cannot be
      misread, and only then, unless the text left the INITIAL condition. */
  lemma ChosenIndexIsBooted(vars: map<string, string>, env: Env, files: Files, flex: Flex, text: string, init: State,
                            i: nat)
    requires ConfigText.TextConfiguration(env, files, flex, text) == Some(init.config)
    requires ScannerCarry.GoodStack(flex.stack) && |init.config.bentries| <= Decimal.INT_MAX
    requires Initial(init) && init.scanner == ScannerCarry.FlexAfter(files, flex, text)
    requires |init.config.uis| > 0 && i < |init.config.bentries|
    requires NulFree(BootEntryText.Print(init.config.bentries[i]))
    ensures var menu, e := Environment.Read(Environment.HandOver(vars, init.config), NEW_TOPLEVEL).bentries,
                           init.config.bentries[i];
            && i < |menu| && menu[i] == e
            && (!BootEntrySplit.Misread(env, files, e) ==> BootedAsPrinted(env, files, init, e))
            && (init.scanner.mode.Initial? && BootEntrySplit.Misread(env, files, e) ==>
                  !BootedAsPrinted(env, files, init, e))
  {
    var e := init.config.bentries[i];
    ConfigurationFits(env, files, flex, text);
    Environment.HandOverRead(vars, init.config, NEW_TOPLEVEL);
    assert NEW_TOPLEVEL.bentries + init.config.bentries == init.config.bentries;
    BootEntryClosure.EntriesScanned(env, files, flex, text);
    assert init.config.bentries == ConfigGrammar.EntriesOf(env, ConfigGrammar.Definitions(files, flex, text).value);
    ConfigurationLeaves(env, files, flex, text);
    if !BootEntrySplit.Misread(env, files, e) {
      UnlessMisread(env, files, init, e);
    } else if init.scanner.mode.Initial? {
      var actions := AnotherIsBooted(env, files, init, e);
    }
  }
}
