/**
 The parser context: two counters track the nesting of `system` sections, and
 every semantic action looks at them before it changes the context
 (core/parser_sysload.c, core/sysload.conf.y, core/parser.c).
 */
module ConfigParser {
  import opened Config
  import opened ConfigLanguage
  import Decimal

  const MAX_SYSTEM_DEPTH := 999

  /** What the two counters stand for: for every open section whether it was
      entered as active. */
  predicate AllActive(open: seq<bool>) {
    forall k :: 0 <= k < |open| ==> open[k]
  }

  /** The depth of the outermost inactive section, unless it is too deep. */
  function Marker(open: seq<bool>): int {
    if AllActive(open) then MAX_SYSTEM_DEPTH
    else
      var outermost := Outermost(open) + 1;
      if outermost < MAX_SYSTEM_DEPTH then outermost else MAX_SYSTEM_DEPTH
  }

  function Outermost(open: seq<bool>): (k: nat)
    requires !AllActive(open)
    ensures k < |open| && !open[k] && forall j :: 0 <= j < k ==> open[j]
  {
    if !open[0] then 0 else
      assert forall j :: 1 <= j < |open| ==> open[j] == open[1..][j - 1];
      1 + Outermost(open[1..])
  }

  lemma MarkerOf(open: seq<bool>, k: nat)
    requires k < |open| && !open[k] && forall j :: 0 <= j < k ==> open[j]
    ensures !AllActive(open) && Outermost(open) == k
  {
    assert !open[Outermost(open)];
  }

  /** An action of the grammar. */
  datatype Action =
    | DefaultLabel(name: string) | SetTimeout(digits: string) | SetPassword(password: string)
    | ModAction(mod: ModParam) | LoadModule
    | NetAction(net: NetParam) | EnableNet
    | Dasd(busid: string) | Qeth(busid: string, busid2: string, busid3: string)
    | Zfcp(busid: string, wwpn: string, lun: string)
    | StartUi(program: string, cmdline: string) | StartUiSsh(program: string, cmdline: string)
    | Execute(command: string)
    | SetTitle(title: string) | SetTag(tag: string) | OptionAction(option: BootOption) | AddEntry

  /** The context without the counters. */
  datatype Snapshot = Snapshot(state: State, bentry: Bentry, mod: ModConf, net: NetConf)

  predicate Clean(f: Snapshot) {
    f.bentry == NEW_BENTRY && f.mod == NEW_MODCONF && f.net == NEW_NETCONF
  }

  /** What an action does to the context when the parser is (not) active. */
  function Act(env: Env, f: Snapshot, a: Action, active: bool): Snapshot {
    match a
    case DefaultLabel(name) => if active then f.(state := f.state.(bootDefault := name)) else f
    case SetTimeout(digits) =>
      f.(state := f.state.(top := f.state.top.(timeout := if active then TimeoutValue(env, digits) else 0)))
    case SetPassword(p) => if active then f.(state := f.state.(top := f.state.top.(password := p))) else f
    case ModAction(p) => if active then f.(mod := SetMod(f.mod, p)) else f
    case LoadModule =>
      f.(state := LogIf(env, active, f.state, Modprobe(f.mod.name, f.mod.param)), mod := NEW_MODCONF)
    case NetAction(p) => if active then f.(net := SetNet(f.net, p)) else f
    case EnableNet => f.(state := LogIf(env, active, f.state, EnableNetwork(f.net)), net := NEW_NETCONF)
    case Dasd(busid) => f.(state := LogIf(env, active, f.state, DasdOnline(busid)))
    case Qeth(x, y, z) => f.(state := LogIf(env, active, f.state, QethOnline(x, y, z)))
    case Zfcp(x, y, z) => f.(state := LogIf(env, active, f.state, ZfcpOnline(x, y, z)))
    case StartUi(program, cmdline) =>
      if active && env.ui.None? then f.(state := AddUi(f.state, UserInterface(program, cmdline))) else f
    case StartUiSsh(program, cmdline) =>
      if active && env.ui.None? then f.(state := AddUi(f.state, UserInterface("ssh", cmdline)))
      else if active && env.ui.value == program then f.(state := AddUi(f.state, UserInterface(program, "/dev/tty")))
      else f
    case Execute(command) => f.(state := LogIf(env, active, f.state, Command(command)))
    case SetTitle(title) => f.(bentry := f.bentry.(title := title))
    case SetTag(tag) => f.(bentry := f.bentry.(tag := tag))
    case OptionAction(o) => if active then f.(bentry := SetOption(f.bentry, o)) else f
    case AddEntry =>
      var entries := f.state.top.bentries + (if active then [f.bentry] else []);
      f.(state := f.state.(top := f.state.top.(bentries := entries)), bentry := NEW_BENTRY)
  }

  function LogIf(env: Env, active: bool, s: State, e: Effect): State {
    if active then Log(env, s, e) else s
  }

  lemma {:induction false} FoldConcat<A, P>(f: (A, P) -> A, a: A, ps: seq<P>, qs: seq<P>)
    ensures Fold(f, a, ps + qs) == Fold(f, Fold(f, a, ps), qs)
    decreases |ps|
  {
    var all := ps + qs;
    if ps == [] {
      assert all == qs;
    } else {
      assert all[0] == ps[0] && all[1..] == ps[1..] + qs;
      FoldConcat(f, f(a, ps[0]), ps[1..], qs);
    }
  }

  lemma FoldOne<A, P>(f: (A, P) -> A, a: A, p: P)
    ensures Fold(f, a, [p]) == f(a, p)
  {
    assert [p][1..] == [];
  }

  // Parameters of a statement: the action of each, and what it does to the context.

  function WrapMod(p: ModParam): Action { ModAction(p) }
  function WrapNet(p: NetParam): Action { NetAction(p) }
  function WrapOption(o: BootOption): Action { OptionAction(o) }

  function StepMod(f: Snapshot, p: ModParam): Snapshot { f.(mod := SetMod(f.mod, p)) }
  function StepNet(f: Snapshot, p: NetParam): Snapshot { f.(net := SetNet(f.net, p)) }
  function StepOption(f: Snapshot, o: BootOption): Snapshot { f.(bentry := SetOption(f.bentry, o)) }

  /** What is left of one parameter or section. */
  function Selected<P>(item: Item<P>, env: Env, on: bool, depth: nat): seq<P> {
    match item
    case Leaf(p) => if on then [p] else []
    case Section(cond, body) =>
      Select(env.host, env.cap, Inside(env.host, env.cap, on, depth + 1, cond), depth + 1, body)
  }

  lemma SelectedFirst<P>(items: seq<Item<P>>, env: Env, on: bool, depth: nat)
    requires items != []
    ensures Select(env.host, env.cap, on, depth, items)
         == Selected(items[0], env, on, depth) + Select(env.host, env.cap, on, depth, items[1..])
  {
  }

  /** Stands for a parameter that is met; only a trigger. */
  predicate Met<P>(p: P) { true }

  /** The action of a parameter does what `step` says, and nothing in an inactive
      section. */
  ghost predicate Follows<P(!new)>(env: Env, wrap: P -> Action, step: (Snapshot, P) -> Snapshot) {
    forall p {:trigger Met(p)} :: Met(p) ==>
      forall f :: Act(env, f, wrap(p), true) == step(f, p) && Act(env, f, wrap(p), false) == f
  }

  class ParserContext {
    const env: Env
    var systemDepth: int
    var systemFirstInactive: int
    var bootDefault: string
    var top: Toplevel
    var bentry: Bentry
    var netconf: NetConf
    var modconf: ModConf
    var log: seq<Effect>
    ghost var open: seq<bool>

    ghost predicate Valid()
      reads this
    {
      systemDepth == |open| && systemFirstInactive == Marker(open)
    }

    ghost function Snap(): Snapshot
      reads this
    {
      Snapshot(State(bootDefault, top, log), bentry, modconf, netconf)
    }

    constructor (host: Host, ui: Option<string>)
      ensures Valid() && open == [] && env == Env(host, ui, Cap(MAX_SYSTEM_DEPTH - 1))
      ensures Snap().state == State("0", NEW_TOPLEVEL, []) && Clean(Snap())
    {
      env := Env(host, ui, Cap(MAX_SYSTEM_DEPTH - 1));
      systemDepth, systemFirstInactive := 0, MAX_SYSTEM_DEPTH;
      bootDefault, top, log := "0", NEW_TOPLEVEL, [];
      bentry, netconf, modconf := NEW_BENTRY, NEW_NETCONF, NEW_MODCONF;
      open := [];
    }

    /** The parser is active exactly if every open section was entered as active
        and there are at most 998 of them. */
    method ActiveSystem() returns (active: bool)
      requires Valid()
      ensures active <==> AllActive(open) && |open| < MAX_SYSTEM_DEPTH
    {
      active := !(systemDepth >= systemFirstInactive);
    }

    method EnterSystem(active: bool)
      requires Valid()
      modifies `systemDepth, `systemFirstInactive, `open
      ensures Valid() && open == old(open) + [active] && Snap() == old(Snap())
    {
      ghost var before := open;
      systemDepth := systemDepth + 1;
      if !(systemDepth >= systemFirstInactive) {
        if !active {
          systemFirstInactive := systemDepth;
        }
      }
      open := open + [active];
      if AllActive(before) {
        if !active {
          MarkerOf(open, |before|);
        } else {
          assert AllActive(open);
        }
      } else {
        MarkerOf(open, Outermost(before));
      }
    }

    method ExitSystem()
      requires Valid() && open != []
      modifies `systemDepth, `systemFirstInactive, `open
      ensures Valid() && open == old(open)[..|old(open)| - 1] && Snap() == old(Snap())
    {
      ghost var before := open;
      if systemFirstInactive == systemDepth {
        systemFirstInactive := MAX_SYSTEM_DEPTH;
      }
      systemDepth := systemDepth - 1;
      open := open[..|open| - 1];
      if !AllActive(before) {
        var o := Outermost(before);
        if o < |open| {
          assert !open[o];
          MarkerOf(open, o);
        } else {
          assert AllActive(open);
        }
      }
    }

    ghost predicate On()
      reads this
    {
      AllActive(open) && |open| < MAX_SYSTEM_DEPTH
    }

    predicate IsSetup(a: Action) {
      a.ModAction? || a.LoadModule? || a.NetAction? || a.EnableNet? || a.Dasd? || a.Qeth? || a.Zfcp? || a.Execute?
    }

    /** One semantic action. */
    method Perform(a: Action)
      requires Valid()
      modifies this
      ensures Valid() && open == old(open) && Snap() == Act(env, old(Snap()), a, On())
    {
      var active := ActiveSystem();
      if IsSetup(a) {
        PerformSetup(a, active);
      } else {
        PerformSetting(a, active);
      }
    }

    /** The actions that do something to the system, and those that collect their
        parameters. */
    method PerformSetup(a: Action, active: bool)
      requires Valid() && IsSetup(a) && active == On()
      modifies this
      ensures Valid() && open == old(open) && Snap() == Act(env, old(Snap()), a, On())
    {
      match a
      case ModAction(p) =>
        if active { modconf := SetMod(modconf, p); }
      case LoadModule =>
        if env.ui.None? && active { log := log + [Modprobe(modconf.name, modconf.param)]; }
        modconf := NEW_MODCONF;
      case NetAction(p) =>
        if active { netconf := SetNet(netconf, p); }
      case EnableNet =>
        if env.ui.None? && active { log := log + [EnableNetwork(netconf)]; }
        netconf := NEW_NETCONF;
      case Dasd(busid) =>
        if env.ui.None? && active { log := log + [DasdOnline(busid)]; }
      case Qeth(x, y, z) =>
        if env.ui.None? && active { log := log + [QethOnline(x, y, z)]; }
      case Zfcp(x, y, z) =>
        if env.ui.None? && active { log := log + [ZfcpOnline(x, y, z)]; }
      case Execute(command) =>
        if env.ui.None? && active { log := log + [Command(command)]; }
    }

    /** The actions that fill in the configuration. */
    method PerformSetting(a: Action, active: bool)
      requires Valid() && !IsSetup(a) && active == On()
      modifies this
      ensures Valid() && open == old(open) && Snap() == Act(env, old(Snap()), a, On())
    {
      match a
      case DefaultLabel(name) =>
        if active { bootDefault := name; }
      case SetTimeout(digits) =>
        if env.ui.Some? || !active {
          top := top.(timeout := 0);
        } else {
          top := top.(timeout := TimeoutValue(env, digits));
        }
      case SetPassword(p) =>
        if active { top := top.(password := p); }
      case StartUi(program, cmdline) =>
        if active && env.ui.None? { top := top.(uis := top.uis + [UserInterface(program, cmdline)]); }
      case StartUiSsh(program, cmdline) =>
        if active {
          if env.ui.None? {
            top := top.(uis := top.uis + [UserInterface("ssh", cmdline)]);
          } else if env.ui.value == program {
            top := top.(uis := top.uis + [UserInterface(program, "/dev/tty")]);
          }
        }
      case SetTitle(title) =>
        bentry := bentry.(title := title);
      case SetTag(tag) =>
        bentry := bentry.(tag := tag);
      case OptionAction(o) =>
        if active { bentry := SetOption(bentry, o); }
      case AddEntry =>
        if active { top := top.(bentries := top.bentries + [bentry]); }
        assert top.bentries + [] == top.bentries;
        bentry := NEW_BENTRY;
    }

    /** `system`: evaluate the condition and open a section. */
    method OpenSection(cond: Condition)
      requires Valid()
      modifies `systemDepth, `systemFirstInactive, `open
      ensures Valid() && |open| == |old(open)| + 1 && open[..|old(open)|] == old(open) && Snap() == old(Snap())
      ensures On() == Inside(env.host, Cap(MAX_SYSTEM_DEPTH - 1), old(On()), |open|, cond)
    {
      var value := Value(env.host, cond);
      ValueIsTruth(env.host, cond);
      ghost var before := open;
      EnterSystem(value == "true");
      assert open[|before|] == Holds(env.host, cond);
      assert forall k :: 0 <= k < |before| ==> open[k] == before[k];
    }

    /** A list of parameters of one statement, with sections. */
    method ParseParameters<P(!new)>(items: seq<Item<P>>, wrap: P -> Action, ghost step: (Snapshot, P) -> Snapshot)
      requires Valid() && env.cap == Cap(MAX_SYSTEM_DEPTH - 1) && Follows(env, wrap, step)
      modifies this
      ensures Valid() && open == old(open)
      ensures Snap() == Fold(step, old(Snap()), Select(env.host, env.cap, On(), |open|, items))
      decreases items, 0
    {
      if items == [] {
        return;
      }
      ParseParameter(items[0], wrap, step);
      ghost var first := Selected(items[0], env, On(), |open|);
      ghost var rest := Select(env.host, env.cap, On(), |open|, items[1..]);
      SelectedFirst(items, env, On(), |open|);
      FoldConcat(step, old(Snap()), first, rest);
      ParseParameters(items[1..], wrap, step);
    }

    method ParseParameter<P(!new)>(item: Item<P>, wrap: P -> Action, ghost step: (Snapshot, P) -> Snapshot)
      requires Valid() && env.cap == Cap(MAX_SYSTEM_DEPTH - 1) && Follows(env, wrap, step)
      modifies this
      ensures Valid() && open == old(open)
      ensures Snap() == Fold(step, old(Snap()), Selected(item, env, old(On()), |open|))
      decreases item
    {
      if item.Leaf? {
        PerformParameter(item.leaf, wrap, step);
      } else {
        ParseSection(item.cond, item.body, wrap, step);
      }
    }

    /** Parameters in a section. */
    method ParseSection<P(!new)>(cond: Condition, body: seq<Item<P>>, wrap: P -> Action,
                                 ghost step: (Snapshot, P) -> Snapshot)
      requires Valid() && env.cap == Cap(MAX_SYSTEM_DEPTH - 1) && Follows(env, wrap, step)
      modifies this
      ensures Valid() && open == old(open)
      ensures Snap() == Fold(step, old(Snap()), Selected(Section(cond, body), env, old(On()), |old(open)|))
      decreases body, 1
    {
      ghost var outer, inside := open, Inside(env.host, env.cap, On(), |open| + 1, cond);
      assert Selected(Section(cond, body), env, On(), |outer|) == Select(env.host, env.cap, inside, |outer| + 1, body);
      OpenSection(cond);
      assert On() == inside;
      ParseParameters(body, wrap, step);
      assert open[..|open| - 1] == outer;
      ExitSystem();
    }

    method PerformParameter<P(!new)>(p: P, wrap: P -> Action, ghost step: (Snapshot, P) -> Snapshot)
      requires Valid() && Follows(env, wrap, step)
      modifies this
      ensures Valid() && open == old(open)
      ensures Snap() == Fold(step, old(Snap()), if On() then [p] else [])
    {
      assert Met(p);
      FoldOne(step, Snap(), p);
      Perform(wrap(p));
    }

    /** The action of a statement without parameters. */
    predicate IsSingle(st: Statement) { !st.SetupModule? && !st.SetupNetwork? && !st.BootEntry? }

    function SingleAction(st: Statement): Action
      requires IsSingle(st)
    {
      match st
      case Default(name) => DefaultLabel(name)
      case Timeout(digits) => SetTimeout(digits)
      case Password(p) => SetPassword(p)
      case SetupDasd(busid) => Dasd(busid)
      case SetupQeth(x, y, z) => Qeth(x, y, z)
      case SetupZfcp(x, y, z) => Zfcp(x, y, z)
      case Ui(program, cmdline) => StartUi(program, cmdline)
      case UiSsh(program, cmdline) => StartUiSsh(program, cmdline)
      case Exec(command) => Execute(command)
    }

    /** A statement: its parameters, then the action of its own rule. */
    method ParseStatement(st: Statement)
      requires Valid() && env.cap == Cap(MAX_SYSTEM_DEPTH - 1) && Clean(Snap())
      modifies this
      ensures Valid() && open == old(open) && Clean(Snap())
      ensures Snap().state == if On() then Evaluate(env, |open|, old(Snap().state), st) else Drop(old(Snap().state), st)
    {
      match st
      case SetupModule(mods) => ParseSetupModule(mods);
      case SetupNetwork(nets) => ParseSetupNetwork(nets);
      case BootEntry(title, tag, options) => ParseBootEntry(title, tag, options);
      case _ => Perform(SingleAction(st));
    }

    method ParseSetupModule(mods: seq<Item<ModParam>>)
      requires Valid() && env.cap == Cap(MAX_SYSTEM_DEPTH - 1) && Clean(Snap())
      modifies this
      ensures Valid() && open == old(open) && Clean(Snap())
      ensures Snap().state ==
              if On() then Evaluate(env, |open|, old(Snap().state), SetupModule(mods)) else old(Snap().state)
    {
      ghost var chosen := Select(env.host, env.cap, On(), |open|, mods);
      ModActions(Snap(), chosen);
      if !On() { SelectOff(env.host, env.cap, |open|, mods); }
      ParseParameters(mods, WrapMod, StepMod);
      Perform(LoadModule);
    }

    method ParseSetupNetwork(nets: seq<Item<NetParam>>)
      requires Valid() && env.cap == Cap(MAX_SYSTEM_DEPTH - 1) && Clean(Snap())
      modifies this
      ensures Valid() && open == old(open) && Clean(Snap())
      ensures Snap().state ==
              if On() then Evaluate(env, |open|, old(Snap().state), SetupNetwork(nets)) else old(Snap().state)
    {
      ghost var chosen := Select(env.host, env.cap, On(), |open|, nets);
      NetActions(Snap(), chosen);
      if !On() { SelectOff(env.host, env.cap, |open|, nets); }
      ParseParameters(nets, WrapNet, StepNet);
      Perform(EnableNet);
    }

    method ParseBootEntry(title: string, tag: Option<string>, options: seq<Item<BootOption>>)
      requires Valid() && env.cap == Cap(MAX_SYSTEM_DEPTH - 1) && Clean(Snap())
      modifies this
      ensures Valid() && open == old(open) && Clean(Snap())
      ensures Snap().state ==
              if On() then Evaluate(env, |open|, old(Snap().state), BootEntry(title, tag, options))
              else old(Snap().state)
    {
      SetHeading(title, tag);
      CollectOptions(options);
      if !On() { SelectOff(env.host, env.cap, |open|, options); }
      Perform(AddEntry);
    }

    /** The rules title and label. */
    method SetHeading(title: string, tag: Option<string>)
      requires Valid() && bentry == NEW_BENTRY
      modifies this
      ensures Valid() && open == old(open)
      ensures Snap() == old(Snap()).(bentry := NEW_BENTRY.(title := title, tag := if tag.Some? then tag.value else ""))
    {
      Perform(SetTitle(title));
      if tag.Some? {
        Perform(SetTag(tag.value));
      }
    }

    method CollectOptions(options: seq<Item<BootOption>>)
      requires Valid() && env.cap == Cap(MAX_SYSTEM_DEPTH - 1)
      modifies this
      ensures Valid() && open == old(open)
      ensures Snap() ==
              old(Snap()).(bentry := Fold(SetOption, old(bentry), Select(env.host, env.cap, On(), |open|, options)))
    {
      OptionActions(Snap(), Select(env.host, env.cap, On(), |open|, options));
      ParseParameters(options, WrapOption, StepOption);
    }

    /** A list of definitions. */
    method ParseDefinitions(items: seq<Item<Statement>>)
      requires Valid() && env.cap == Cap(MAX_SYSTEM_DEPTH - 1) && Clean(Snap())
      modifies this
      ensures Valid() && open == old(open) && Clean(Snap())
      ensures Snap().state == EvaluateAll(env, On(), |open|, old(Snap().state), items)
      decreases items
    {
      if items == [] {
        return;
      }
      match items[0] {
        case Leaf(st) =>
          ParseStatement(st);
        case Section(cond, body) =>
          OpenSection(cond);
          ParseDefinitions(body);
          ExitSystem();
      }
      ParseDefinitions(items[1..]);
    }
  }

  lemma {:induction false} ModActions(f: Snapshot, ps: seq<ModParam>)
    ensures Fold(StepMod, f, ps) == f.(mod := Fold(SetMod, f.mod, ps))
    decreases |ps|
  {
    if ps != [] {
      ModActions(StepMod(f, ps[0]), ps[1..]);
    }
  }

  lemma {:induction false} NetActions(f: Snapshot, ps: seq<NetParam>)
    ensures Fold(StepNet, f, ps) == f.(net := Fold(SetNet, f.net, ps))
    decreases |ps|
  {
    if ps != [] {
      NetActions(StepNet(f, ps[0]), ps[1..]);
    }
  }

  lemma {:induction false} OptionActions(f: Snapshot, ps: seq<BootOption>)
    ensures Fold(StepOption, f, ps) == f.(bentry := Fold(SetOption, f.bentry, ps))
    decreases |ps|
  {
    if ps != [] {
      OptionActions(StepOption(f, ps[0]), ps[1..]);
    }
  }

  // ---------- parse_sysload ----------

  /** The default entry: a number in range, or the first entry with that label. */
  function DefaultIndex(name: string, bentries: seq<Bentry>): (i: Option<int>)
    ensures i.Some? ==> 0 <= i.value < |bentries|
  {
    var n := Decimal.Scan(name);
    if Decimal.AllDigits(name) && n.Some? then
      if 0 <= n.value < |bentries| then n else None
    else FirstLabelled(name, bentries, 0)
  }

  function FirstLabelled(name: string, bentries: seq<Bentry>, from: nat): (i: Option<int>)
    requires from <= |bentries|
    ensures i.Some? ==> from <= i.value < |bentries| && bentries[i.value].tag == name
    ensures forall k :: from <= k < (if i.Some? then i.value else |bentries|) ==> bentries[k].tag != name
    decreases |bentries| - from
  {
    if from == |bentries| then None
    else if bentries[from].tag == name then Some(from)
    else FirstLabelled(name, bentries, from + 1)
  }

  lemma LabelledIs(name: string, bentries: seq<Bentry>, i: nat)
    requires i <= |bentries| && forall k :: 0 <= k < i ==> bentries[k].tag != name
    requires i < |bentries| ==> bentries[i].tag == name
    ensures FirstLabelled(name, bentries, 0) == if i < |bentries| then Some(i) else None
  {
    var found := FirstLabelled(name, bentries, 0);
    if found.Some? {
      assert bentries[found.value].tag == name;
    }
  }

  method ResolveDefault(name: string, bentries: seq<Bentry>) returns (index: Option<int>)
    ensures index == DefaultIndex(name, bentries)
  {
    var number := Decimal.Scan(name);
    if Decimal.AllDigits(name) && number.Some? {
      if number.value < 0 || number.value >= |bentries| {
        return None;
      }
      return number;
    }
    var i := 0;
    while i < |bentries| && bentries[i].tag != name
      invariant 0 <= i <= |bentries|
      invariant forall k :: 0 <= k < i ==> bentries[k].tag != name
    {
      i := i + 1;
    }
    LabelledIs(name, bentries, i);
    return if i == |bentries| then None else Some(i);
  }

  /** The configuration a file describes, or nothing if it has no valid default. */
  function Configuration(env: Env, items: seq<Item<Statement>>): Option<Toplevel> {
    var s := EvaluateAll(env, true, 0, INITIAL, items);
    var i := DefaultIndex(s.bootDefault, s.top.bentries);
    if i.Some? then Some(s.top.(bootDefault := i.value)) else None
  }

  /** `parse_sysload` on a configuration text with the given definitions. */
  method ParseSysload(host: Host, ui: Option<string>, items: seq<Item<Statement>>)
    returns (config: Option<Toplevel>, log: seq<Effect>)
    ensures var env := Env(host, ui, Cap(MAX_SYSTEM_DEPTH - 1));
            config == Configuration(env, items) && log == EvaluateAll(env, true, 0, INITIAL, items).log
    ensures config.Some? ==> 0 <= config.value.bootDefault < |config.value.bentries|
  {
    var context := new ParserContext(host, ui);
    context.ParseDefinitions(items);
    log := context.log;
    var index := ResolveDefault(context.bootDefault, context.top.bentries);
    if index.None? {
      return None, log;
    }
    config := Some(context.top.(bootDefault := index.value));
  }

  /** The process that serves one ssh connection reads the same menu as the main
      process, with the same default entry, and touches nothing. */
  lemma UiOnlyMenu(host: Host, ui: string, items: seq<Item<Statement>>)
    ensures var main, own := Env(host, None, Cap(MAX_SYSTEM_DEPTH - 1)), Env(host, Some(ui), Cap(MAX_SYSTEM_DEPTH - 1));
            var c, d := Configuration(main, items), Configuration(own, items);
            && (c.Some? <==> d.Some?)
            && (c.Some? ==> c.value.bentries == d.value.bentries && c.value.bootDefault == d.value.bootDefault)
            && (c.Some? ==> c.value.password == d.value.password && d.value.timeout == 0)
            && EvaluateAll(own, true, 0, INITIAL, items).log == []
  {
    UiOnlyNonInterference(Env(host, None, Cap(MAX_SYSTEM_DEPTH - 1)), ui, true, 0, INITIAL, INITIAL, items);
  }
}
