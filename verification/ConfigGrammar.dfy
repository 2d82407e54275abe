/**
 The grammar of the configuration language: from the tokens of a text to the tree of
 its definitions (core/sysload.conf.y).
 */
module ConfigGrammar {
  import opened Config
  import opened ConfigLanguage
  import opened ScannerState
  import opened BootEntryScanner

  /** What was recognized, and the tokens behind it. */
  type Parsed<T> = Option<(T, seq<Token>)>

  /** A proper end of a list of tokens. */
  predicate Suffix(rest: seq<Token>, ts: seq<Token>) {
    |rest| < |ts| && rest == ts[|ts| - |rest|..]
  }

  // ---------- system conditions ----------

  /** The rules systemid and vmguest. */
  function ParseId(ts: seq<Token>): (id: Parsed<SystemId>)
    ensures id.Some? ==> Suffix(id.value.1, ts)
  {
    if |ts| < 4 || !ts[0].Keyword? || ts[1] != Punct('(') then None
    else
      var closed := ts[3] == Punct(')');
      match ts[0].word
      case "uuid" => if ts[2].Ident? && closed then Some((Uuid(ts[2].text), ts[4..])) else None
      case "mac" => if ts[2].MacVal? && closed then Some((SystemId.Mac(ts[2].text), ts[4..])) else None
      case "lpar" => if ts[2].Ident? && closed then Some((Lpar(ts[2].text), ts[4..])) else None
      case "vmguest" =>
        if ts[2].Ident? && closed then Some((VmGuest(ts[2].text), ts[4..]))
        else if |ts| >= 6 && ts[2].Ident? && ts[3] == Punct(',') && ts[4].Ident? && ts[5] == Punct(')') then
          Some((VmGuestLpar(ts[2].text, ts[4].text), ts[6..]))
        else None
      case _ => None
  }

  /** Further identifiers of a systemlist. */
  function ParseIds(c: Condition, ts: seq<Token>): (r: (Condition, seq<Token>))
    ensures r.1 == ts || Suffix(r.1, ts)
    decreases |ts|
  {
    var id := ParseId(ts);
    if id.None? then (c, ts) else ParseIds(OrElse(c, id.value.0), id.value.1)
  }

  /** The rule systemlist. */
  function ParseCondition(ts: seq<Token>): (c: Parsed<Condition>)
    ensures c.Some? ==> Suffix(c.value.1, ts)
    decreases |ts|
  {
    if |ts| >= 2 && ts[0] == Keyword("not") && ts[1] == Punct('(') then
      var inner := ParseCondition(ts[2..]);
      if inner.Some? && inner.value.1 != [] && inner.value.1[0] == Punct(')') then
        Some(ParseIds(Not(inner.value.0), inner.value.1[1..]))
      else None
    else
      var id := ParseId(ts);
      if id.Some? then Some(ParseIds(Test(id.value.0), id.value.1)) else None
  }

  // ---------- lists with sections ----------

  /** One element of a list: a section, or what `leaf` recognizes. Only a section of
      definitions may be empty. */
  function ParseItem<P>(leaf: seq<Token> -> Parsed<P>, empty: bool, ts: seq<Token>): (item: Parsed<Item<P>>)
    ensures item.Some? ==> |item.value.1| < |ts|
    decreases |ts|, 0
  {
    if ts != [] && ts[0] == Keyword("system") then
      var c := ParseCondition(ts[1..]);
      if c.None? || c.value.1 == [] || c.value.1[0] != Punct('{') then None
      else
        var body := ParseBlock(leaf, empty, c.value.1[1..]);
        if body.None? || (body.value.0 == [] && !empty) then None
        else Some((Section(c.value.0, body.value.0), body.value.1))
    else
      var l := leaf(ts);
      if l.Some? && Suffix(l.value.1, ts) then Some((Leaf(l.value.0), l.value.1)) else None
  }

  /** A list up to its closing brace. */
  function ParseBlock<P>(leaf: seq<Token> -> Parsed<P>, empty: bool, ts: seq<Token>): (items: Parsed<seq<Item<P>>>)
    ensures items.Some? ==> |items.value.1| < |ts|
    decreases |ts|, 1
  {
    if ts == [] then None
    else if ts[0] == Punct('}') then Some(([], ts[1..]))
    else
      var first := ParseItem(leaf, empty, ts);
      if first.None? then None
      else
        var others := ParseBlock(leaf, empty, first.value.1);
        if others.None? then None else Some(([first.value.0] + others.value.0, others.value.1))
  }

  /** A list that may not be empty. */
  function ParseList<P>(leaf: seq<Token> -> Parsed<P>, ts: seq<Token>): Parsed<seq<Item<P>>> {
    var items := ParseBlock(leaf, false, ts);
    if items.Some? && items.value.0 != [] then items else None
  }

  // ---------- boot entries ----------

  /** `uri: T_URISTART T_STRING | T_URISTART T_URIBRACKET T_STRING` */
  function ParseUri(ts: seq<Token>): (v: Parsed<string>)
    ensures v.Some? ==> Suffix(v.value.1, ts)
  {
    if |ts| >= 2 && ts[0].UriStart? && ts[1].Str? then Some((ts[0].text + ts[1].text, ts[2..]))
    else if |ts| >= 3 && ts[0].UriStart? && ts[1].UriBracket? && ts[2].Str? then
      Some((ts[0].text + ts[1].text + ts[2].text, ts[3..]))
    else None
  }

  function ParseString(ts: seq<Token>): (v: Parsed<string>)
    ensures v.Some? ==> Suffix(v.value.1, ts)
  {
    if |ts| >= 1 && ts[0].Str? then Some((ts[0].text, ts[1..])) else None
  }

  /** What the grammar expects after a keyword. */
  datatype Argument = Nothing | AString | AUri | StringOrUri

  function ArgumentOf(word: string): Argument {
    match word
    case "title" | "label" | "cmdline" | "pause" => AString
    case "root" => AUri
    case "kernel" | "initrd" | "parmfile" | "insfile" | "bootmap" => StringOrUri
    case _ => Nothing
  }

  function ParseArgument(a: Argument, ts: seq<Token>): (v: Parsed<string>)
    ensures v.Some? ==> v.value.1 == ts || Suffix(v.value.1, ts)
  {
    match a
    case Nothing => Some(("", ts))
    case AString => ParseString(ts)
    case AUri => ParseUri(ts)
    case StringOrUri => if ParseString(ts).Some? then ParseString(ts) else ParseUri(ts)
  }

  /** The option a keyword stands for. */
  function OptionFor(word: string, v: string): Option<BootOption> {
    match word
    case "root" => Some(Root(v))
    case "lock" => Some(Lock)
    case "pause" => Some(Pause(v))
    case "kernel" => Some(Kernel(v))
    case "initrd" => Some(Initrd(v))
    case "cmdline" => Some(Cmdline(v))
    case "parmfile" => Some(Parmfile(v))
    case "insfile" => Some(Insfile(v))
    case "bootmap" => Some(Bootmap(v))
    case "reboot" => Some(RebootOption)
    case "halt" => Some(HaltOption)
    case "shell" => Some(ShellOption)
    case "exit" => Some(ExitOption)
    case _ => None
  }

  function ParseOption(ts: seq<Token>): (o: Parsed<BootOption>)
    ensures o.Some? ==> Suffix(o.value.1, ts)
  {
    if ts == [] || !ts[0].Keyword? then None
    else
      var v := ParseArgument(ArgumentOf(ts[0].word), ts[1..]);
      if v.None? then None
      else
        var o := OptionFor(ts[0].word, v.value.0);
        if o.Some? then Some((o.value, v.value.1)) else None
  }

  predicate StartsLabel(ts: seq<Token>) { |ts| >= 2 && ts[0] == Keyword("label") && ts[1].Str? }

  /** The rules label and optionlist, and the end of the entry. */
  function ParseContent(title: string, ts: seq<Token>): Parsed<Statement> {
    var options := ParseList(ParseOption, if StartsLabel(ts) then ts[2..] else ts);
    if options.None? then None
    else Some((BootEntry(title, if StartsLabel(ts) then Some(ts[1].text) else None, options.value.0), options.value.1))
  }

  /** `T_BOOT_ENTRY '{' T_TITLE T_STRING` */
  predicate StartsEntry(ts: seq<Token>) {
    |ts| >= 4 && ts[0] == Keyword("boot_entry") && ts[1] == Punct('{') && ts[2] == Keyword("title") && ts[3].Str?
  }

  /** The rules bootentry, becontent and title. */
  function ParseEntry(ts: seq<Token>): Parsed<Statement> {
    if StartsEntry(ts) then ParseContent(ts[3].text, ts[4..]) else None
  }

  // ---------- other definitions ----------

  function ParseModParam(ts: seq<Token>): Parsed<ModParam> {
    if |ts| < 2 || !ts[0].Keyword? || !ts[1].Str? then None
    else
      match ts[0].word
      case "name" => Some((ModParam.Name(ts[1].text), ts[2..]))
      case "param" => Some((Param(ts[1].text), ts[2..]))
      case "kernelversion" => Some((KernelVersion(ts[1].text), ts[2..]))
      case _ => None
  }

  function ParseNetParam(ts: seq<Token>): Parsed<NetParam> {
    if |ts| < 2 || !ts[0].Keyword? then None
    else if ts[0].word == "mode" then
      if ts[1] == Keyword("static") then Some((NetParam.Mode(Static), ts[2..]))
      else if ts[1] == Keyword("dhcp") then Some((NetParam.Mode(Dhcp), ts[2..]))
      else None
    else if ts[0].word == "interface" then if ts[1].Ident? then Some((Interface(ts[1].text), ts[2..])) else None
    else if !ts[1].IpAddr? then None
    else
      match ts[0].word
      case "address" => Some((Address(ts[1].text), ts[2..]))
      case "mask" => Some((Mask(ts[1].text), ts[2..]))
      case "gateway" => Some((Gateway(ts[1].text), ts[2..]))
      case "nameserver" => Some((Nameserver(ts[1].text), ts[2..]))
      case _ => None
  }

  predicate BusIdAt(ts: seq<Token>, k: nat) { k + 1 < |ts| && ts[k] == Keyword("busid") && ts[k + 1].BusIdVal? }

  predicate HexAt(ts: seq<Token>, k: nat, word: string) { k + 1 < |ts| && ts[k] == Keyword(word) && ts[k + 1].HexNum? }

  /** What follows `setup` and the kind of the device, from the opening brace on. */
  function ParseDevice(kind: string, ts: seq<Token>): Parsed<Statement> {
    match kind
    case "dasd" =>
      if BusIdAt(ts, 1) && |ts| >= 4 && ts[3] == Punct('}') then Some((SetupDasd(ts[2].text), ts[4..])) else None
    case "qeth" =>
      if BusIdAt(ts, 1) && BusIdAt(ts, 3) && BusIdAt(ts, 5) && |ts| >= 8 && ts[7] == Punct('}') then
        Some((SetupQeth(ts[2].text, ts[4].text, ts[6].text), ts[8..]))
      else None
    case "zfcp" =>
      if BusIdAt(ts, 1) && HexAt(ts, 3, "wwpn") && HexAt(ts, 5, "lun") && |ts| >= 8 && ts[7] == Punct('}') then
        Some((SetupZfcp(ts[2].text, ts[4].text, ts[6].text), ts[8..]))
      else None
    case _ => None
  }

  /** The rules setup and network. */
  function ParseSetup(ts: seq<Token>): Parsed<Statement> {
    if |ts| < 3 || !ts[1].Keyword? || ts[2] != Punct('{') then None
    else
      match ts[1].word
      case "module" =>
        var mods := ParseList(ParseModParam, ts[3..]);
        if mods.Some? then Some((SetupModule(mods.value.0), mods.value.1)) else None
      case "network" =>
        var nets := ParseList(ParseNetParam, ts[3..]);
        if nets.Some? then Some((SetupNetwork(nets.value.0), nets.value.1)) else None
      case _ => ParseDevice(ts[1].word, ts[2..])
  }

  function ParseInterface(ts: seq<Token>): Parsed<Statement> {
    if |ts| >= 3 && ts[1].Ident? && ts[2].Str? then Some((Ui(ts[1].text, ts[2].text), ts[3..]))
    else if |ts| >= 4 && ts[1] == Keyword("ssh") && ts[2].Ident? && ts[3].Str? then
      Some((UiSsh(ts[2].text, ts[3].text), ts[4..]))
    else None
  }

  /** The rules globaldef and bootentry. */
  function ParseStatement(ts: seq<Token>): Parsed<Statement> {
    if |ts| < 2 || !ts[0].Keyword? then None
    else
      match ts[0].word
      case "default" => if ts[1].Str? then Some((Default(ts[1].text), ts[2..])) else None
      case "timeout" => if ts[1].Number? then Some((Timeout(ts[1].text), ts[2..])) else None
      case "password" => if ts[1].Str? then Some((Statement.Password(ts[1].text), ts[2..])) else None
      case "exec" => if ts[1].Str? then Some((Exec(ts[1].text), ts[2..])) else None
      case "userinterface" => ParseInterface(ts)
      case "setup" => ParseSetup(ts)
      case "boot_entry" => ParseEntry(ts)
      case _ => None
  }

  /** Definitions up to the end of the text. */
  function ParseDefs(ts: seq<Token>): Option<seq<Item<Statement>>>
    decreases |ts|
  {
    if ts == [] then Some([])
    else
      var first := ParseItem(ParseStatement, true, ts);
      if first.None? then None
      else
        var others := ParseDefs(first.value.1);
        if others.None? then None else Some([first.value.0] + others.value)
  }

  /** The rule deflist: the definitions of a text. */
  function Definitions(files: Files, flex: Flex, text: string): Option<seq<Item<Statement>>> {
    var ts := Read(files, flex, text).tokens;
    if ts == [] then None else ParseDefs(ts)
  }

  /** The entries of the definitions of a text. */
  function EntriesOf(env: Env, items: seq<Item<Statement>>): seq<Bentry> {
    EvaluateAll(env, true, 0, INITIAL, items).top.bentries
  }

  /** A statement that looks at the arguments of the program. The actions for the user
      interfaces do so only in an active place. */
  predicate AsksArguments(on: bool, st: Statement) {
    match st
    case Timeout(_) | SetupModule(_) | SetupDasd(_) | SetupQeth(_, _, _) | SetupZfcp(_, _, _) => true
    case SetupNetwork(_) | Exec(_) => true
    case Ui(_, _) | UiSsh(_, _) => on
    case _ => false
  }

  /** Some statement asks for the arguments. When a boot entry is read there are none, and
      sysload crashes. */
  predicate Crashes(env: Env, on: bool, depth: nat, items: seq<Item<Statement>>)
    decreases items
  {
    items != []
    && ((match items[0]
         case Leaf(st) => AsksArguments(on, st)
         case Section(cond, body) => Crashes(env, Inside(env.host, env.cap, on, depth + 1, cond), depth + 1, body))
        || Crashes(env, on, depth, items[1..]))
  }

  /** The first entry of the definitions, if there is one and sysload survives. */
  function FirstOf(env: Env, items: seq<Item<Statement>>): Option<Bentry> {
    if Crashes(env, true, 0, items) || EntriesOf(env, items) == [] then None else Some(EntriesOf(env, items)[0])
  }

  /** `parse_sysload_boot_entry`: the first entry of a text, which is scanned in the state
      that the text before it left. */
  function Parse(env: Env, files: Files, flex: Flex, text: string): Option<Bentry> {
    var items := Definitions(files, flex, text);
    if items.None? then None else FirstOf(env, items.value)
  }

  // ---------- what is left of the tokens ----------

  lemma {:induction false} BlockIsSuffix<P>(leaf: seq<Token> -> Parsed<P>, empty: bool, ts: seq<Token>)
    ensures ParseBlock(leaf, empty, ts).Some? ==> Suffix(ParseBlock(leaf, empty, ts).value.1, ts)
    decreases |ts|, 1
  {
    if ts != [] && ts[0] != Punct('}') {
      var first := ParseItem(leaf, empty, ts);
      if first.Some? {
        ItemIsSuffix(leaf, empty, ts);
        BlockIsSuffix(leaf, empty, first.value.1);
        if ParseBlock(leaf, empty, ts).Some? {
          SuffixOfSuffix(ParseBlock(leaf, empty, ts).value.1, first.value.1, ts);
        }
      }
    }
  }

  lemma {:induction false} ItemIsSuffix<P>(leaf: seq<Token> -> Parsed<P>, empty: bool, ts: seq<Token>)
    requires ParseItem(leaf, empty, ts).Some?
    ensures Suffix(ParseItem(leaf, empty, ts).value.1, ts)
    decreases |ts|, 0
  {
    if ts[0] == Keyword("system") {
      var c := ParseCondition(ts[1..]).value.1;
      BlockIsSuffix(leaf, empty, c[1..]);
      SuffixOfSuffix(c[1..], c, ts[1..]);
      SuffixOfSuffix(c[1..], ts[1..], ts);
      SuffixOfSuffix(ParseBlock(leaf, empty, c[1..]).value.1, c[1..], ts);
    }
  }

  lemma SuffixOfSuffix(a: seq<Token>, b: seq<Token>, c: seq<Token>)
    requires Suffix(a, b) && Suffix(b, c)
    ensures Suffix(a, c)
  {
    assert b == c[|c| - |b|..];
  }

  lemma EntryIsSuffix(ts: seq<Token>)
    ensures ParseEntry(ts).Some? ==> Suffix(ParseEntry(ts).value.1, ts)
  {
    if ParseEntry(ts).Some? {
      var rest := if StartsLabel(ts[4..]) then ts[4..][2..] else ts[4..];
      BlockIsSuffix(ParseOption, false, rest);
      assert rest == ts[|ts| - |rest|..];
      SuffixOfSuffix(ParseEntry(ts).value.1, rest, ts);
    }
  }

  /** If `leaf` recognizes only what `p` holds of, then `p` holds of the whole list. */
  lemma {:induction false} BlockEverywhere<P(!new)>(leaf: seq<Token> -> Parsed<P>, empty: bool, p: P -> bool,
                                                    ts: seq<Token>)
    requires forall rest :: (rest == ts || Suffix(rest, ts)) && leaf(rest).Some? ==> p(leaf(rest).value.0)
    ensures ParseBlock(leaf, empty, ts).Some? ==> Everywhere(p, ParseBlock(leaf, empty, ts).value.0)
    decreases |ts|, 1
  {
    if ParseBlock(leaf, empty, ts).Some? && ts[0] != Punct('}') {
      var (item, rest) := ParseItem(leaf, empty, ts).value;
      ItemIsSuffix(leaf, empty, ts);
      ItemEverywhere(leaf, empty, p, ts);
      forall r | (r == rest || Suffix(r, rest)) && leaf(r).Some? ensures p(leaf(r).value.0) {
        if r != rest {
          SuffixOfSuffix(r, rest, ts);
        }
      }
      BlockEverywhere(leaf, empty, p, rest);
      EverywhereCons(p, item, ParseBlock(leaf, empty, rest).value.0);
    }
  }

  lemma {:induction false} ItemEverywhere<P(!new)>(leaf: seq<Token> -> Parsed<P>, empty: bool, p: P -> bool,
                                                   ts: seq<Token>)
    requires forall rest :: (rest == ts || Suffix(rest, ts)) && leaf(rest).Some? ==> p(leaf(rest).value.0)
    requires ParseItem(leaf, empty, ts).Some?
    ensures Everywhere(p, [ParseItem(leaf, empty, ts).value.0])
    decreases |ts|, 0
  {
    if ts[0] == Keyword("system") {
      var c := ParseCondition(ts[1..]).value.1;
      SuffixOfSuffix(c[1..], c, ts[1..]);
      SuffixOfSuffix(c[1..], ts[1..], ts);
      forall r | (r == c[1..] || Suffix(r, c[1..])) && leaf(r).Some? ensures p(leaf(r).value.0) {
        if r != c[1..] {
          SuffixOfSuffix(r, c[1..], ts);
        }
      }
      BlockEverywhere(leaf, empty, p, c[1..]);
    }
  }

  lemma {:induction false} DefsEverywhere(p: Statement -> bool, ts: seq<Token>)
    requires forall rest :: (rest == ts || Suffix(rest, ts)) && ParseStatement(rest).Some? ==>
               p(ParseStatement(rest).value.0)
    ensures ParseDefs(ts).Some? ==> Everywhere(p, ParseDefs(ts).value)
    decreases |ts|
  {
    if ts != [] && ParseDefs(ts).Some? {
      var (item, rest) := ParseItem(ParseStatement, true, ts).value;
      ItemIsSuffix(ParseStatement, true, ts);
      ItemEverywhere(ParseStatement, true, p, ts);
      forall r | (r == rest || Suffix(r, rest)) && ParseStatement(r).Some? ensures p(ParseStatement(r).value.0) {
        if r != rest {
          SuffixOfSuffix(r, rest, ts);
        }
      }
      DefsEverywhere(p, rest);
      EverywhereCons(p, item, ParseDefs(rest).value);
    }
  }
}
