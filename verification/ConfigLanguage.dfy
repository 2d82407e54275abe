/**
 The configuration language: `system` conditions, nested sections and the
 statements inside them, with an evaluator that works on the tree and knows
 nothing about parser state (core/sysload.conf.y, doc/design.tex).
 */
module ConfigLanguage {
  import opened Config
  import Decimal

  // ---------- conditions ----------

  datatype SystemId =
    | Uuid(ident: string) | Mac(address: string)
    | VmGuest(guest: string) | VmGuestLpar(guest: string, lpar: string) | Lpar(lpar: string)

  /** `systemlist`: identifiers in a row, or `not(...)` followed by identifiers. */
  datatype Condition = Test(id: SystemId) | OrElse(first: Condition, id: SystemId) | Not(inner: Condition)

  /** The identifiers that match on this machine. */
  datatype Host = Host(macs: set<string>, guests: set<string>, lpars: set<string>)

  function TruthString(b: bool): string { if b then "true" else "false" }

  /** The string values the grammar computes; a uuid test yields its argument. */
  function IdValue(host: Host, id: SystemId): string {
    match id
    case Uuid(ident) => ident
    case Mac(address) => TruthString(address in host.macs)
    case VmGuest(guest) => TruthString(guest in host.guests)
    case VmGuestLpar(guest, lpar) => TruthString(guest in host.guests && lpar in host.lpars)
    case Lpar(lpar) => TruthString(lpar in host.lpars)
  }

  function Value(host: Host, c: Condition): string {
    match c
    case Test(id) => IdValue(host, id)
    case OrElse(first, id) =>
      var l, r := Value(host, first), IdValue(host, id);
      if l == "true" then l else if r == "true" then r else l
    case Not(inner) => if Value(host, inner) == "true" then "false" else "true"
  }

  /** What the documentation says: at least one identifier matches, `not` negates. */
  predicate Holds(host: Host, c: Condition) {
    match c
    case Test(id) => Matches(host, id)
    case OrElse(first, id) => Holds(host, first) || Matches(host, id)
    case Not(inner) => !Holds(host, inner)
  }

  predicate Matches(host: Host, id: SystemId) {
    match id
    case Uuid(ident) => ident == "true"
    case Mac(address) => address in host.macs
    case VmGuest(guest) => guest in host.guests
    case VmGuestLpar(guest, lpar) => guest in host.guests && lpar in host.lpars
    case Lpar(lpar) => lpar in host.lpars
  }

  /** Comparing strings along the list computes disjunction and negation. */
  lemma {:induction false} ValueIsTruth(host: Host, c: Condition)
    ensures Value(host, c) == "true" <==> Holds(host, c)
  {
    assert "true" != "false" by { assert |"true"| == 4; }
    match c
    case Test(id) =>
    case OrElse(first, id) => ValueIsTruth(host, first);
    case Not(inner) => ValueIsTruth(host, inner);
  }

  predicate OnlyUuid(c: Condition) {
    match c
    case Test(id) => id.Uuid? && id.ident != "true"
    case OrElse(first, id) => OnlyUuid(first) && id.Uuid? && id.ident != "true"
    case Not(inner) => false
  }

  /** A list of uuid tests holds on no machine: the system's own uuid is never
      looked up, and the scanner has no identifier `true`. */
  lemma {:induction false} UuidNeverMatches(host: Host, c: Condition)
    requires OnlyUuid(c)
    ensures Value(host, c) != "true"
  {
    match c
    case Test(id) =>
    case OrElse(first, id) => UuidNeverMatches(host, first);
  }

  // ---------- sections ----------

  /** Statements, or parameters of one statement, with `system` sections. */
  datatype Item<+P> = Leaf(leaf: P) | Section(cond: Condition, body: seq<Item<P>>)

  /** How deep sections can be nested before they count as inactive. */
  datatype Cap = NoCap | Cap(depth: nat)

  /** Inside a section that is the `depth`-th open one, in a place that was `on`. */
  predicate Inside(host: Host, cap: Cap, on: bool, depth: nat, c: Condition) {
    on && Holds(host, c) && (cap.Cap? ==> depth <= cap.depth)
  }

  /** The leaves that no false condition removes, in order. */
  function Select<P>(host: Host, cap: Cap, on: bool, depth: nat, items: seq<Item<P>>): seq<P>
    decreases items
  {
    if items == [] then []
    else
      (match items[0]
       case Leaf(leaf) => if on then [leaf] else []
       case Section(cond, body) => Select(host, cap, Inside(host, cap, on, depth + 1, cond), depth + 1, body))
      + Select(host, cap, on, depth, items[1..])
  }

  /** A property of all leaves, in whatever section. */
  predicate Everywhere<P>(p: P -> bool, items: seq<Item<P>>)
    decreases items
  {
    items == []
    || ((match items[0] case Leaf(leaf) => p(leaf) case Section(_, body) => Everywhere(p, body))
        && Everywhere(p, items[1..]))
  }

  lemma EverywhereCons<P>(p: P -> bool, item: Item<P>, items: seq<Item<P>>)
    requires Everywhere(p, [item]) && Everywhere(p, items)
    ensures Everywhere(p, [item] + items)
  {
    assert ([item] + items)[1..] == items && [item][0] == item;
  }

  lemma {:induction false} SelectEverywhere<P>(p: P -> bool, host: Host, cap: Cap, on: bool, depth: nat,
                                               items: seq<Item<P>>)
    requires Everywhere(p, items)
    ensures forall x :: x in Select(host, cap, on, depth, items) ==> p(x)
    decreases items
  {
    if items != [] {
      if items[0].Section? {
        var Section(cond, body) := items[0];
        SelectEverywhere(p, host, cap, Inside(host, cap, on, depth + 1, cond), depth + 1, body);
      }
      SelectEverywhere(p, host, cap, on, depth, items[1..]);
    }
  }

  function Nesting<P>(items: seq<Item<P>>): nat
    decreases items
  {
    if items == [] then 0
    else
      var first := match items[0] case Leaf(_) => 0 case Section(_, body) => 1 + Nesting(body);
      var rest := Nesting(items[1..]);
      if first > rest then first else rest
  }

  lemma {:induction false} SelectOff<P>(host: Host, cap: Cap, depth: nat, items: seq<Item<P>>)
    ensures Select(host, cap, false, depth, items) == []
    decreases items
  {
    if items != [] {
      if items[0].Section? {
        SelectOff(host, cap, depth + 1, items[0].body);
      }
      SelectOff(host, cap, depth, items[1..]);
    }
  }

  lemma {:induction false} SelectUncapped<P>(host: Host, cap: Cap, on: bool, depth: nat, items: seq<Item<P>>)
    requires cap.Cap? && depth + Nesting(items) <= cap.depth
    ensures Select(host, cap, on, depth, items) == Select(host, NoCap, on, depth, items)
    decreases items
  {
    if items != [] {
      if items[0].Section? {
        var Section(cond, body) := items[0];
        SelectUncapped(host, cap, Inside(host, cap, on, depth + 1, cond), depth + 1, body);
      }
      SelectUncapped(host, cap, on, depth, items[1..]);
    }
  }

  // ---------- statements ----------

  datatype ModParam = Name(name: string) | Param(param: string) | KernelVersion(version: string)

  datatype NetMode = Static | Dhcp

  datatype NetParam =
    | Mode(mode: NetMode) | Address(value: string) | Mask(value: string) | Gateway(value: string)
    | Nameserver(value: string) | Interface(value: string)

  datatype BootOption =
    | Root(uri: string) | Lock | Pause(text: string)
    | Kernel(file: string) | Initrd(file: string) | Cmdline(text: string) | Parmfile(file: string)
    | Insfile(file: string) | Bootmap(file: string)
    | RebootOption | HaltOption | ShellOption | ExitOption

  datatype Statement =
    | Default(name: string) | Timeout(digits: string) | Password(password: string)
    | SetupModule(mods: seq<Item<ModParam>>)
    | SetupDasd(busid: string)
    | SetupQeth(busid: string, busid2: string, busid3: string)
    | SetupZfcp(busid: string, wwpn: string, lun: string)
    | SetupNetwork(nets: seq<Item<NetParam>>)
    | Ui(program: string, cmdline: string) | UiSsh(program: string, cmdline: string)
    | Exec(command: string)
    | BootEntry(title: string, tag: Option<string>, options: seq<Item<BootOption>>)

  datatype ModConf = ModConf(name: string, param: string, version: string)

  datatype NetConf = NetConf(
    mode: NetMode, iface: string, address: string, mask: string, gateway: string, nameserver: string)

  const NEW_MODCONF: ModConf := ModConf("", "", "")
  const NEW_NETCONF: NetConf := NetConf(Static, "", "", "", "", "")

  /** What the parser does to the system besides filling in the configuration. */
  datatype Effect =
    | Modprobe(name: string, param: string) | DasdOnline(busid: string)
    | QethOnline(busid: string, busid2: string, busid3: string)
    | ZfcpOnline(busid: string, wwpn: string, lun: string)
    | EnableNetwork(conf: NetConf) | Command(command: string)

  function SetMod(conf: ModConf, p: ModParam): ModConf {
    match p
    case Name(s) => conf.(name := s)
    case Param(s) => conf.(param := s)
    case KernelVersion(s) => conf.(version := s)
  }

  function SetNet(conf: NetConf, p: NetParam): NetConf {
    match p
    case Mode(m) => conf.(mode := m)
    case Address(s) => conf.(address := s)
    case Mask(s) => conf.(mask := s)
    case Gateway(s) => conf.(gateway := s)
    case Nameserver(s) => conf.(nameserver := s)
    case Interface(s) => conf.(iface := s)
  }

  function SetOption(b: Bentry, o: BootOption): Bentry {
    match o
    case Root(s) => b.(root := s)
    case Lock => b.(locked := 1)
    case Pause(s) => b.(pause := s)
    case Kernel(s) => b.(kernel := s, action := KernelBoot)
    case Initrd(s) => b.(initrd := s)
    case Cmdline(s) => b.(cmdline := s)
    case Parmfile(s) => b.(parmfile := s)
    case Insfile(s) => b.(insfile := s, action := InsfileBoot)
    case Bootmap(s) => b.(bootmap := s, action := BootmapBoot)
    case RebootOption => b.(action := Reboot)
    case HaltOption => b.(action := Halt)
    case ShellOption => b.(action := Shell)
    case ExitOption => b.(action := BootAction.Exit)
  }

  function Fold<A, P>(f: (A, P) -> A, a: A, ps: seq<P>): A
    decreases |ps|
  {
    if ps == [] then a else Fold(f, f(a, ps[0]), ps[1..])
  }

  function EntryOf(title: string, tag: Option<string>, options: seq<BootOption>): Bentry {
    Fold(SetOption, NEW_BENTRY.(title := title, tag := if tag.Some? then tag.value else ""), options)
  }

  lemma {:induction false} FoldLast<A, P>(f: (A, P) -> A, a: A, ps: seq<P>)
    requires ps != []
    ensures Fold(f, a, ps) == f(Fold(f, a, ps[..|ps| - 1]), ps[|ps| - 1])
    decreases |ps|
  {
    if |ps| > 1 {
      assert ps[..|ps| - 1][0] == ps[0] && ps[..|ps| - 1][1..] == ps[1..][..|ps| - 2];
      FoldLast(f, f(a, ps[0]), ps[1..]);
    } else {
      assert ps[1..] == [] && ps[..0] == [];
    }
  }

  /** The last parameter that says something about a setting, or `before`. */
  function LastSaid<P, V>(says: P -> Option<V>, ps: seq<P>, before: V): V
    decreases |ps|
  {
    if ps == [] then before
    else if says(ps[|ps| - 1]).Some? then says(ps[|ps| - 1]).value
    else LastSaid(says, ps[..|ps| - 1], before)
  }

  /** Parameters are applied one after the other, and each changes a setting only to
      what it says about it: then the last one that says something decides. */
  lemma {:induction false} LastDecides<A(!new), P(!new), V>(f: (A, P) -> A, get: A -> V, says: P -> Option<V>,
                                                            a: A, ps: seq<P>)
    requires forall x, p :: get(f(x, p)) == if says(p).Some? then says(p).value else get(x)
    ensures get(Fold(f, a, ps)) == LastSaid(says, ps, get(a))
    decreases |ps|
  {
    if ps != [] {
      FoldLast(f, a, ps);
      LastDecides(f, get, says, a, ps[..|ps| - 1]);
    }
  }

  /** The settings of a boot entry that are texts. */
  datatype EntrySetting =
    | RootText | PauseText | KernelText | InitrdText | CmdlineText | ParmfileText | InsfileText | BootmapText

  function EntryText(k: EntrySetting, b: Bentry): string {
    match k
    case RootText => b.root
    case PauseText => b.pause
    case KernelText => b.kernel
    case InitrdText => b.initrd
    case CmdlineText => b.cmdline
    case ParmfileText => b.parmfile
    case InsfileText => b.insfile
    case BootmapText => b.bootmap
  }

  function SaysText(k: EntrySetting, o: BootOption): Option<string> {
    match o
    case Root(s) => if k.RootText? then Some(s) else None
    case Pause(s) => if k.PauseText? then Some(s) else None
    case Kernel(s) => if k.KernelText? then Some(s) else None
    case Initrd(s) => if k.InitrdText? then Some(s) else None
    case Cmdline(s) => if k.CmdlineText? then Some(s) else None
    case Parmfile(s) => if k.ParmfileText? then Some(s) else None
    case Insfile(s) => if k.InsfileText? then Some(s) else None
    case Bootmap(s) => if k.BootmapText? then Some(s) else None
    case _ => None
  }

  function SaysAction(o: BootOption): Option<BootAction> {
    match o
    case Kernel(_) => Some(KernelBoot)
    case Insfile(_) => Some(InsfileBoot)
    case Bootmap(_) => Some(BootmapBoot)
    case RebootOption => Some(Reboot)
    case HaltOption => Some(Halt)
    case ShellOption => Some(Shell)
    case ExitOption => Some(BootAction.Exit)
    case _ => None
  }

  function SaysLocked(o: BootOption): Option<int> { if o.Lock? then Some(1) else None }

  function TextSaid(k: EntrySetting): BootOption -> Option<string> { o => SaysText(k, o) }
  function TextOf(k: EntrySetting): Bentry -> string { b => EntryText(k, b) }
  function ActionOf(b: Bentry): BootAction { b.action }
  function LockedOf(b: Bentry): int { b.locked }

  lemma TextDecided(k: EntrySetting, b: Bentry, options: seq<BootOption>)
    ensures EntryText(k, Fold(SetOption, b, options)) == LastSaid(TextSaid(k), options, EntryText(k, b))
  {
    var get, says := TextOf(k), TextSaid(k);
    forall x, o ensures get(SetOption(x, o)) == if says(o).Some? then says(o).value else get(x) {
    }
    LastDecides(SetOption, get, says, b, options);
  }

  lemma ActionDecided(b: Bentry, options: seq<BootOption>)
    ensures Fold(SetOption, b, options).action == LastSaid(SaysAction, options, b.action)
    ensures Fold(SetOption, b, options).locked == LastSaid(SaysLocked, options, b.locked)
  {
    LastDecides(SetOption, ActionOf, SaysAction, b, options);
    LastDecides(SetOption, LockedOf, SaysLocked, b, options);
  }

  lemma {:induction false} HeadingKept(b: Bentry, options: seq<BootOption>)
    ensures Fold(SetOption, b, options).title == b.title && Fold(SetOption, b, options).tag == b.tag
    decreases |options|
  {
    if options != [] {
      HeadingKept(SetOption(b, options[0]), options[1..]);
    }
  }

  /** A boot entry has title and label as given, every text from the last option of
      its kind, and the action of the last option that names one. */
  lemma LastOptionWins(title: string, tag: Option<string>, options: seq<BootOption>, k: EntrySetting)
    ensures var e := EntryOf(title, tag, options);
            && e.title == title && e.tag == (if tag.Some? then tag.value else "")
            && EntryText(k, e) == LastSaid(TextSaid(k), options, "")
            && e.action == LastSaid(SaysAction, options, KernelBoot)
            && e.locked == LastSaid(SaysLocked, options, 0)
  {
    var b := NEW_BENTRY.(title := title, tag := if tag.Some? then tag.value else "");
    TextDecided(k, b, options);
    ActionDecided(b, options);
    HeadingKept(b, options);
  }

  // ---------- parameters of modules and networks ----------

  datatype ConfSetting =
    | NameText | ParamText | VersionText | IfaceText | AddressText | MaskText | GatewayText | NameserverText

  function ModText(k: ConfSetting): ModConf -> string {
    (c: ModConf) => match k case NameText => c.name case ParamText => c.param case VersionText => c.version case _ => ""
  }

  function ModSaid(k: ConfSetting): ModParam -> Option<string> {
    (p: ModParam) => match p
         case Name(s) => if k.NameText? then Some(s) else None
         case Param(s) => if k.ParamText? then Some(s) else None
         case KernelVersion(s) => if k.VersionText? then Some(s) else None
  }

  function NetText(k: ConfSetting): NetConf -> string {
    (c: NetConf) => match k
         case IfaceText => c.iface
         case AddressText => c.address
         case MaskText => c.mask
         case GatewayText => c.gateway
         case NameserverText => c.nameserver
         case _ => ""
  }

  function NetSaid(k: ConfSetting): NetParam -> Option<string> {
    (p: NetParam) => match p
         case Interface(s) => if k.IfaceText? then Some(s) else None
         case Address(s) => if k.AddressText? then Some(s) else None
         case Mask(s) => if k.MaskText? then Some(s) else None
         case Gateway(s) => if k.GatewayText? then Some(s) else None
         case Nameserver(s) => if k.NameserverText? then Some(s) else None
         case Mode(_) => None
  }

  function NetModeOf(c: NetConf): NetMode { c.mode }
  function ModeSaid(p: NetParam): Option<NetMode> { if p.Mode? then Some(p.mode) else None }

  /** Modules and networks are configured by the last parameter of every kind. */
  lemma LastParameterWins(k: ConfSetting, mods: seq<ModParam>, nets: seq<NetParam>)
    ensures ModText(k)(Fold(SetMod, NEW_MODCONF, mods)) == LastSaid(ModSaid(k), mods, "")
    ensures NetText(k)(Fold(SetNet, NEW_NETCONF, nets)) == LastSaid(NetSaid(k), nets, "")
    ensures Fold(SetNet, NEW_NETCONF, nets).mode == LastSaid(ModeSaid, nets, Static)
  {
    var modText, modSaid, netText, netSaid := ModText(k), ModSaid(k), NetText(k), NetSaid(k);
    forall x, p ensures modText(SetMod(x, p)) == if modSaid(p).Some? then modSaid(p).value else modText(x) {
    }
    forall x, p ensures netText(SetNet(x, p)) == if netSaid(p).Some? then netSaid(p).value else netText(x) {
    }
    LastDecides(SetMod, modText, modSaid, NEW_MODCONF, mods);
    LastDecides(SetNet, netText, netSaid, NEW_NETCONF, nets);
    LastDecides(SetNet, NetModeOf, ModeSaid, NEW_NETCONF, nets);
  }

  // ---------- evaluation ----------

  /** `ui` names the only user interface to start, if the program runs in that
      mode. */
  datatype Env = Env(host: Host, ui: Option<string>, cap: Cap)

  datatype State = State(bootDefault: string, top: Toplevel, log: seq<Effect>)

  /** Before the first definition. */
  const INITIAL: State := State("0", NEW_TOPLEVEL, [])

  function TimeoutValue(env: Env, digits: string): int {
    if env.ui.Some? then 0
    else var n := Decimal.Scan(digits); if n.Some? then n.value else 0
  }

  function Log(env: Env, s: State, e: Effect): State {
    if env.ui.None? then s.(log := s.log + [e]) else s
  }

  function AddUi(s: State, ui: UserInterface): State {
    s.(top := s.top.(uis := s.top.uis + [ui]))
  }

  /** A statement outside all sections whose condition is false. */
  function Evaluate(env: Env, depth: nat, s: State, st: Statement): State {
    match st
    case Default(tag) => s.(bootDefault := tag)
    case Timeout(digits) => s.(top := s.top.(timeout := TimeoutValue(env, digits)))
    case Password(p) => s.(top := s.top.(password := p))
    case SetupModule(mods) =>
      var conf := Fold(SetMod, NEW_MODCONF, Select(env.host, env.cap, true, depth, mods));
      Log(env, s, Modprobe(conf.name, conf.param))
    case SetupDasd(busid) => Log(env, s, DasdOnline(busid))
    case SetupQeth(a, b, c) => Log(env, s, QethOnline(a, b, c))
    case SetupZfcp(busid, wwpn, lun) => Log(env, s, ZfcpOnline(busid, wwpn, lun))
    case SetupNetwork(nets) =>
      Log(env, s, EnableNetwork(Fold(SetNet, NEW_NETCONF, Select(env.host, env.cap, true, depth, nets))))
    case Ui(program, cmdline) => if env.ui.None? then AddUi(s, UserInterface(program, cmdline)) else s
    case UiSsh(program, cmdline) =>
      if env.ui.None? then AddUi(s, UserInterface("ssh", cmdline))
      else if env.ui.value == program then AddUi(s, UserInterface(program, "/dev/tty"))
      else s
    case Exec(command) => Log(env, s, Command(command))
    case BootEntry(title, tag, options) =>
      var entry := EntryOf(title, tag, Select(env.host, env.cap, true, depth, options));
      s.(top := s.top.(bentries := s.top.bentries + [entry]))
  }

  /** A statement in a section whose condition is false: nothing happens, except
      that a timeout statement resets the timeout. */
  function Drop(s: State, st: Statement): State {
    if st.Timeout? then s.(top := s.top.(timeout := 0)) else s
  }

  function EvaluateAll(env: Env, on: bool, depth: nat, s: State, items: seq<Item<Statement>>): State
    decreases items
  {
    if items == [] then s
    else
      var s' :=
        match items[0]
        case Leaf(st) => if on then Evaluate(env, depth, s, st) else Drop(s, st)
        case Section(cond, body) =>
          EvaluateAll(env, Inside(env.host, env.cap, on, depth + 1, cond), depth + 1, s, body);
      EvaluateAll(env, on, depth, s', items[1..])
  }

  // ---------- deleting false sections ----------

  /** Evaluation of a list of statements without any section. */
  function EvaluateList(env: Env, s: State, sts: seq<(nat, Statement)>): State
    decreases |sts|
  {
    if sts == [] then s else EvaluateList(env, Evaluate(env, sts[0].0, s, sts[0].1), sts[1..])
  }

  /** The configuration after deleting every section whose condition is false:
      the remaining statements with the depth at which they stand. */
  function Prune(env: Env, on: bool, depth: nat, items: seq<Item<Statement>>): seq<(nat, Statement)>
    decreases items
  {
    if items == [] then []
    else
      (match items[0]
       case Leaf(st) => if on then [(depth, st)] else []
       case Section(cond, body) => Prune(env, Inside(env.host, env.cap, on, depth + 1, cond), depth + 1, body))
      + Prune(env, on, depth, items[1..])
  }

  /** All timeout statements in the text, each with whether it is outside all
      false sections. */
  function Timeouts(env: Env, on: bool, depth: nat, items: seq<Item<Statement>>): seq<(string, bool)>
    decreases items
  {
    if items == [] then []
    else
      (match items[0]
       case Leaf(st) => if st.Timeout? then [(st.digits, on)] else []
       case Section(cond, body) => Timeouts(env, Inside(env.host, env.cap, on, depth + 1, cond), depth + 1, body))
      + Timeouts(env, on, depth, items[1..])
  }

  function LastTimeout(env: Env, before: int, ts: seq<(string, bool)>): int {
    if ts == [] then before
    else if ts[|ts| - 1].1 then TimeoutValue(env, ts[|ts| - 1].0) else 0
  }

  predicate SameButTimeout(s: State, t: State) {
    s == t.(top := t.top.(timeout := s.top.timeout))
  }

  lemma EvaluateSame(env: Env, depth: nat, s: State, t: State, st: Statement)
    requires SameButTimeout(s, t)
    ensures SameButTimeout(Evaluate(env, depth, s, st), Evaluate(env, depth, t, st))
  {
  }

  lemma {:induction false} EvaluateListConcat(env: Env, s: State, a: seq<(nat, Statement)>, b: seq<(nat, Statement)>)
    ensures EvaluateList(env, s, a + b) == EvaluateList(env, EvaluateList(env, s, a), b)
    decreases |a|
  {
    if a == [] {
      assert a + b == b;
    } else {
      assert (a + b)[1..] == a[1..] + b;
      EvaluateListConcat(env, Evaluate(env, a[0].0, s, a[0].1), a[1..], b);
    }
  }

  /** Evaluating the tree is evaluating what is left after deleting every section
      whose condition is false, except for the timeout. */
  lemma {:induction false} EvaluatePruned(env: Env, on: bool, depth: nat, s: State, t: State,
                                          items: seq<Item<Statement>>)
    requires SameButTimeout(s, t)
    ensures SameButTimeout(EvaluateAll(env, on, depth, s, items), EvaluateList(env, t, Prune(env, on, depth, items)))
    decreases items
  {
    if items != [] {
      var rest := Prune(env, on, depth, items[1..]);
      match items[0]
      case Leaf(st) =>
        if on {
          EvaluateSame(env, depth, s, t, st);
          assert ([(depth, st)] + rest)[1..] == rest;
          EvaluatePruned(env, on, depth, Evaluate(env, depth, s, st), Evaluate(env, depth, t, st), items[1..]);
        } else {
          assert [] + rest == rest;
          EvaluatePruned(env, on, depth, Drop(s, st), t, items[1..]);
        }
      case Section(cond, body) =>
        var inside := Inside(env.host, env.cap, on, depth + 1, cond);
        var kept := Prune(env, inside, depth + 1, body);
        EvaluatePruned(env, inside, depth + 1, s, t, body);
        EvaluateListConcat(env, t, kept, rest);
        EvaluatePruned(env, on, depth, EvaluateAll(env, inside, depth + 1, s, body), EvaluateList(env, t, kept),
                       items[1..]);
    }
  }

  lemma LastTimeoutConcat(env: Env, before: int, a: seq<(string, bool)>, b: seq<(string, bool)>)
    ensures LastTimeout(env, before, a + b) == LastTimeout(env, LastTimeout(env, before, a), b)
  {
    if b == [] {
      assert a + b == a;
    } else {
      assert (a + b)[|a + b| - 1] == b[|b| - 1];
    }
  }

  lemma EvaluateTimeout(env: Env, depth: nat, s: State, st: Statement)
    ensures Evaluate(env, depth, s, st).top.timeout
         == if st.Timeout? then TimeoutValue(env, st.digits) else s.top.timeout
  {
  }

  /** The timeout is decided by the last timeout statement of the text, active or
      not: an inactive one resets it. */
  lemma {:induction false} LastTimeoutDecides(env: Env, on: bool, depth: nat, s: State, items: seq<Item<Statement>>)
    ensures EvaluateAll(env, on, depth, s, items).top.timeout
         == LastTimeout(env, s.top.timeout, Timeouts(env, on, depth, items))
    decreases items
  {
    if items != [] {
      var rest := Timeouts(env, on, depth, items[1..]);
      match items[0]
      case Leaf(st) =>
        var s' := if on then Evaluate(env, depth, s, st) else Drop(s, st);
        EvaluateTimeout(env, depth, s, st);
        LastTimeoutDecides(env, on, depth, s', items[1..]);
        LastTimeoutConcat(env, s.top.timeout, if st.Timeout? then [(st.digits, on)] else [], rest);
      case Section(cond, body) =>
        var inside := Inside(env.host, env.cap, on, depth + 1, cond);
        LastTimeoutDecides(env, inside, depth + 1, s, body);
        LastTimeoutDecides(env, on, depth, EvaluateAll(env, inside, depth + 1, s, body), items[1..]);
        LastTimeoutConcat(env, s.top.timeout, Timeouts(env, inside, depth + 1, body), rest);
    }
  }

  function Active(ts: seq<(string, bool)>): seq<(string, bool)> {
    if ts == [] then [] else (if ts[0].1 then [ts[0]] else []) + Active(ts[1..])
  }

  lemma {:induction false} ActiveConcat(a: seq<(string, bool)>, b: seq<(string, bool)>)
    ensures Active(a + b) == Active(a) + Active(b)
  {
    if a == [] {
      assert a + b == b;
    } else {
      var all, head := a + b, if a[0].1 then [a[0]] else [];
      assert all[0] == a[0] && all[1..] == a[1..] + b;
      ActiveConcat(a[1..], b);
      assert head + (Active(a[1..]) + Active(b)) == head + Active(a[1..]) + Active(b);
    }
  }

  lemma {:induction false} PrunedTimeout(env: Env, on: bool, depth: nat, s: State, items: seq<Item<Statement>>)
    ensures EvaluateList(env, s, Prune(env, on, depth, items)).top.timeout
         == LastTimeout(env, s.top.timeout, Active(Timeouts(env, on, depth, items)))
    decreases items
  {
    if items != [] {
      var later, rest := Timeouts(env, on, depth, items[1..]), Prune(env, on, depth, items[1..]);
      match items[0]
      case Leaf(st) =>
        var here := if st.Timeout? then [(st.digits, on)] else [];
        ActiveConcat(here, later);
        LastTimeoutConcat(env, s.top.timeout, Active(here), Active(later));
        EvaluateTimeout(env, depth, s, st);
        if on {
          assert ([(depth, st)] + rest)[1..] == rest;
          PrunedTimeout(env, on, depth, Evaluate(env, depth, s, st), items[1..]);
        } else {
          assert [] + rest == rest;
          PrunedTimeout(env, on, depth, s, items[1..]);
        }
      case Section(cond, body) =>
        var inside := Inside(env.host, env.cap, on, depth + 1, cond);
        var here, kept := Timeouts(env, inside, depth + 1, body), Prune(env, inside, depth + 1, body);
        ActiveConcat(here, later);
        LastTimeoutConcat(env, s.top.timeout, Active(here), Active(later));
        PrunedTimeout(env, inside, depth + 1, s, body);
        EvaluateListConcat(env, s, kept, rest);
        PrunedTimeout(env, on, depth, EvaluateList(env, s, kept), items[1..]);
    }
  }

  /** Deleting the false sections changes nothing at all, not even the timeout,
      exactly when the last timeout statement of the text is not in one of them,
      or the remaining text leaves the timeout at 0 anyway. */
  lemma PruningIsExact(env: Env, s: State, items: seq<Item<Statement>>)
    ensures var ts := Timeouts(env, true, 0, items);
            EvaluateAll(env, true, 0, s, items) == EvaluateList(env, s, Prune(env, true, 0, items))
            <==> ts == [] || ts[|ts| - 1].1 || LastTimeout(env, s.top.timeout, Active(ts)) == 0
  {
    var ts := Timeouts(env, true, 0, items);
    EvaluatePruned(env, true, 0, s, s, items);
    LastTimeoutDecides(env, true, 0, s, items);
    PrunedTimeout(env, true, 0, s, items);
    if ts != [] {
      var front, last := ts[..|ts| - 1], ts[|ts| - 1..];
      assert front + last == ts;
      ActiveConcat(front, last);
      if ts[|ts| - 1].1 {
        assert Active(last) == [ts[|ts| - 1]];
      }
    }
  }

  // ---------- nesting ----------

  /** Sections in a statement count on top of those around it. */
  function StatementNesting(st: Statement): nat {
    match st
    case SetupModule(mods) => Nesting(mods)
    case SetupNetwork(nets) => Nesting(nets)
    case BootEntry(_, _, options) => Nesting(options)
    case _ => 0
  }

  function TotalNesting(items: seq<Item<Statement>>): nat
    decreases items
  {
    if items == [] then 0
    else
      var first := match items[0] case Leaf(st) => StatementNesting(st) case Section(_, body) => 1 + TotalNesting(body);
      var rest := TotalNesting(items[1..]);
      if first > rest then first else rest
  }

  /** Below the cap the depth of nesting has no influence. */
  lemma {:induction false} NestingIrrelevant(env: Env, on: bool, depth: nat, s: State, items: seq<Item<Statement>>)
    requires env.cap.Cap? && depth + TotalNesting(items) <= env.cap.depth
    ensures EvaluateAll(env, on, depth, s, items) == EvaluateAll(env.(cap := NoCap), on, depth, s, items)
    decreases items
  {
    if items != [] {
      var free := env.(cap := NoCap);
      match items[0]
      case Leaf(st) =>
        if on {
          match st {
            case SetupModule(mods) => SelectUncapped(env.host, env.cap, true, depth, mods);
            case SetupNetwork(nets) => SelectUncapped(env.host, env.cap, true, depth, nets);
            case BootEntry(_, _, options) => SelectUncapped(env.host, env.cap, true, depth, options);
            case _ =>
          }
          assert Evaluate(env, depth, s, st) == Evaluate(free, depth, s, st);
        }
        NestingIrrelevant(env, on, depth, if on then Evaluate(env, depth, s, st) else Drop(s, st), items[1..]);
      case Section(cond, body) =>
        var inside := Inside(env.host, env.cap, on, depth + 1, cond);
        NestingIrrelevant(env, inside, depth + 1, s, body);
        NestingIrrelevant(env, on, depth, EvaluateAll(env, inside, depth + 1, s, body), items[1..]);
    }
  }

  /** `n` sections around one statement. */
  function Nested(n: nat, cond: Condition, st: Statement): Item<Statement> {
    if n == 0 then Leaf(st) else Section(cond, [Nested(n - 1, cond, st)])
  }

  lemma SingleItem(env: Env, on: bool, depth: nat, s: State, item: Item<Statement>)
    ensures EvaluateAll(env, on, depth, s, [item])
         == match item
            case Leaf(st) => (if on then Evaluate(env, depth, s, st) else Drop(s, st))
            case Section(cond, body) =>
              EvaluateAll(env, Inside(env.host, env.cap, on, depth + 1, cond), depth + 1, s, body)
  {
    assert [item][1..] == [];
  }

  /** One section more than the cap, all with a true condition, and a statement in
      them is dropped: the cap is exact. */
  lemma {:induction false} BeyondTheCap(env: Env, depth: nat, n: nat, cond: Condition, s: State, st: Statement)
    requires env.cap.Cap? && Holds(env.host, cond) && depth <= env.cap.depth
    ensures EvaluateAll(env, true, depth, s, [Nested(n, cond, st)])
         == if depth + n <= env.cap.depth then Evaluate(env, depth + n, s, st) else Drop(s, st)
    decreases n
  {
    SingleItem(env, true, depth, s, Nested(n, cond, st));
    if n > 0 {
      if depth < env.cap.depth {
        BeyondTheCap(env, depth + 1, n - 1, cond, s, st);
      } else {
        AllDropped(env, depth + 1, n - 1, cond, s, st);
      }
    }
  }

  lemma {:induction false} AllDropped(env: Env, depth: nat, n: nat, cond: Condition, s: State, st: Statement)
    ensures EvaluateAll(env, false, depth, s, [Nested(n, cond, st)]) == Drop(s, st)
    decreases n
  {
    SingleItem(env, false, depth, s, Nested(n, cond, st));
    if n > 0 {
      AllDropped(env, depth + 1, n - 1, cond, s, st);
    }
  }

  // ---------- ui-only mode ----------

  /** Agreement on what the menu shows: entries, default label and password. */
  predicate SameMenu(s: State, t: State) {
    s.bootDefault == t.bootDefault && s.top.password == t.top.password && s.top.bentries == t.top.bentries
  }

  /** The only user interfaces a ui-only run starts are its own, on its terminal. */
  predicate OnlyOwnUi(s: State, ui: string) {
    forall u :: u in s.top.uis ==> u == UserInterface(ui, "/dev/tty")
  }

  /** A ui-only run over the same configuration on the same machine sees the same
      menu as the primary run, sets up nothing, executes nothing, and has no
      timeout. */
  lemma {:induction false} UiOnlyNonInterference(env: Env, ui: string, on: bool, depth: nat, s: State, t: State,
                                                 items: seq<Item<Statement>>)
    requires env.ui.None? && SameMenu(s, t) && t.top.timeout == 0 && OnlyOwnUi(t, ui)
    ensures var s', t' := EvaluateAll(env, on, depth, s, items),
                          EvaluateAll(env.(ui := Some(ui)), on, depth, t, items);
            SameMenu(s', t') && t'.log == t.log && t'.top.timeout == 0 && OnlyOwnUi(t', ui)
    decreases items
  {
    if items != [] {
      var only := env.(ui := Some(ui));
      match items[0]
      case Leaf(st) =>
        UiOnlyNonInterference(env, ui, on, depth,
          if on then Evaluate(env, depth, s, st) else Drop(s, st),
          if on then Evaluate(only, depth, t, st) else Drop(t, st), items[1..]);
      case Section(cond, body) =>
        var inside := Inside(env.host, env.cap, on, depth + 1, cond);
        UiOnlyNonInterference(env, ui, inside, depth + 1, s, t, body);
        UiOnlyNonInterference(env, ui, on, depth,
          EvaluateAll(env, inside, depth + 1, s, body), EvaluateAll(only, inside, depth + 1, t, body), items[1..]);
    }
  }
}
