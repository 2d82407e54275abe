/**
 From the text of a configuration to the configuration, and from the text of a user
 interface to a boot entry: the scanner with its include files, the grammar and the
 semantic actions together (core/parser_sysload.c).
 */
module ConfigText {
  import opened Config
  import opened ConfigLanguage
  import opened ScannerState
  import opened BootEntryScanner
  import opened ConfigGrammar
  import opened ConfigParser

  /** How deep sections can be nested is fixed. */
  function ProgramEnv(host: Host, ui: Option<string>): Env { Env(host, ui, Cap(MAX_SYSTEM_DEPTH - 1)) }

  /** All tokens of a text and of the files it includes, and the condition at the end. */
  method LexAll(files: Files, flex: Flex, text: string) returns (ts: seq<Token>, mode: Mode)
    requires |flex.stack| <= MAX_INCL_DEPTH
    ensures Lexed(ts, mode) == Read(files, flex, text)
  {
    var scanner := new Scanner(files, flex, text);
    ts := [];
    NoTokens(scanner.Place(), scanner.Ahead());
    while true
      invariant scanner.Valid() && scanner.Ahead().After(ts) == Read(files, flex, text)
      decreases scanner.Work()
    {
      var token := scanner.Lex();
      if token.None? {
        assert ts + [] == ts;
        return ts, scanner.mode;
      }
      AfterTwice(scanner.Ahead(), ts, [token.value]);
      ts := ts + [token.value];
    }
  }

  /** The definitions of a text. */
  method ReadDefinitions(files: Files, flex: Flex, text: string) returns (items: Option<seq<Item<Statement>>>)
    requires |flex.stack| <= MAX_INCL_DEPTH
    ensures items == Definitions(files, flex, text)
  {
    var ts, _ := LexAll(files, flex, text);
    items := if ts == [] then None else ParseDefs(ts);
  }

  /** What a configuration text describes, or nothing if it is not accepted or has no
      valid default. */
  function TextConfiguration(env: Env, files: Files, flex: Flex, text: string): Option<Toplevel> {
    if Definitions(files, flex, text).None? then None else Configuration(env, Definitions(files, flex, text).value)
  }

  /** parse_sysload() */
  method ReadConfiguration(host: Host, ui: Option<string>, files: Files, flex: Flex, text: string)
    returns (config: Option<Toplevel>, log: seq<Effect>)
    requires |flex.stack| <= MAX_INCL_DEPTH
    ensures config == TextConfiguration(ProgramEnv(host, ui), files, flex, text)
    ensures Definitions(files, flex, text).Some? ==>
              log == EvaluateAll(ProgramEnv(host, ui), true, 0, INITIAL, Definitions(files, flex, text).value).log
    ensures config.Some? ==> 0 <= config.value.bootDefault < |config.value.bentries|
  {
    var items := ReadDefinitions(files, flex, text);
    if items.None? {
      return None, [];
    }
    config, log := ParseSysload(host, ui, items.value);
  }

  /** parse_sysload_boot_entry(): nothing stands for a text that is rejected, has no entry, or
      makes sysload crash. */
  method ParseBootEntry(host: Host, ui: Option<string>, files: Files, flex: Flex, text: string)
    returns (entry: Option<Bentry>)
    requires |flex.stack| <= MAX_INCL_DEPTH
    ensures entry == Parse(ProgramEnv(host, ui), files, flex, text)
  {
    var items := ReadDefinitions(files, flex, text);
    if items.None? || Crashes(ProgramEnv(host, ui), true, 0, items.value) {
      return None;
    }
    var context := new ParserContext(host, ui);
    context.ParseDefinitions(items.value);
    entry := if context.top.bentries == [] then None else Some(context.top.bentries[0]);
  }
}
