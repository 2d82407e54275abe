/**
 The hand-over of the configuration to the user interface processes through
 numbered environment variables (core/config.c).
 */
module Environment {
  import opened Config
  import Decimal

  datatype GlobalVar = Version | DefaultEntry | TimeoutSecs | Password | BentryCount

  datatype EntryVar =
    | Title | Tag | Root | Kernel | Initrd | Cmdline | Parmfile | Insfile | Bootmap | Locked | Pause | Action

  datatype Variable = Global(g: GlobalVar) | Entry(index: nat, v: EntryVar)

  function GlobalName(g: GlobalVar): string {
    match g
    case Version => "VERSION"
    case DefaultEntry => "DEFAULT"
    case TimeoutSecs => "TIMEOUT"
    case Password => "PASSWORD"
    case BentryCount => "BENTRY_COUNT"
  }

  function EntryName(v: EntryVar): string {
    match v
    case Title => "TITLE"
    case Tag => "LABEL"
    case Root => "ROOT"
    case Kernel => "KERNEL"
    case Initrd => "INITRD"
    case Cmdline => "CMDLINE"
    case Parmfile => "PARMFILE"
    case Insfile => "INSFILE"
    case Bootmap => "BOOTMAP"
    case Locked => "LOCKED"
    case Pause => "PAUSE"
    case Action => "ACTION"
  }

  const PREFIX := "SYSLOAD"

  function Indexed(index: nat, name: string): string { "B" + (Decimal.PrintNat(index) + ("_" + name)) }

  function Name(x: Variable): string {
    match x
    case Global(g) => GlobalName(g)
    case Entry(i, v) => Indexed(i, EntryName(v))
  }

  /** The name of an environment variable. */
  function Key(x: Variable): string { Prefixed(Name(x)) }

  function Prefixed(name: string): string { PREFIX + ("_" + name) }

  // ---------- the process environment ----------

  function FirstEquals(s: string): (n: nat)
    ensures n <= |s|
  {
    if s == "" || s[0] == '=' then 0 else 1 + FirstEquals(s[1..])
  }

  /** putenv(): a text without `=` removes the variable. */
  function PutEnv(env: map<string, string>, text: string): map<string, string> {
    var n := FirstEquals(text);
    if n < |text| then env[text[..n] := text[n + 1..]] else env - {text}
  }

  lemma {:induction false} FirstEqualsIs(name: string, value: string)
    requires '=' !in name
    ensures FirstEquals(name + "=" + value) == |name|
  {
    if name != "" {
      FirstEqualsIs(name[1..], value);
      assert (name + "=" + value)[1..] == name[1..] + "=" + value;
      assert name[0] in name;
    }
  }

  lemma PutEnvName(env: map<string, string>, name: string, value: string)
    requires '=' !in name
    ensures PutEnv(env, name + "=" + value) == env[name := value]
  {
    var text := name + "=" + value;
    FirstEqualsIs(name, value);
    assert text[..|name|] == name && text[|name| + 1..] == value;
  }

  // ---------- names of variables ----------

  lemma IndexedSplits(i: nat, a: string, j: nat, b: string)
    requires Indexed(i, a) == Indexed(j, b)
    ensures i == j && a == b
  {
    var p, q := Decimal.PrintNat(i), Decimal.PrintNat(j);
    assert Indexed(i, a)[1..] == p + ("_" + a) && Indexed(j, b)[1..] == q + ("_" + b);
    Decimal.DigitPrefixAll(p, "_" + a);
    Decimal.DigitPrefixAll(q, "_" + b);
    Decimal.PrintInjective(i, j);
    assert Indexed(i, a)[1 + |p| + 1..] == a && Indexed(j, b)[1 + |q| + 1..] == b;
  }

  lemma GlobalNames(g: GlobalVar, h: GlobalVar)
    ensures GlobalName(g) == GlobalName(h) ==> g == h
  {
  }

  lemma EntryNames(v: EntryVar, w: EntryVar)
    ensures EntryName(v) == EntryName(w) ==> v == w
  {
    assert EntryName(v)[0] == EntryName(w)[0] && EntryName(v)[1] == EntryName(w)[1]
           && EntryName(v)[2] == EntryName(w)[2]
           ==> v == w;
  }

  /** No global variable has the name of a numbered one, not even BENTRY_COUNT,
      which starts with the same letter. */
  lemma NotIndexed(g: GlobalVar, i: nat, name: string)
    ensures GlobalName(g) != Indexed(i, name)
  {
    var p := Decimal.PrintNat(i);
    assert Indexed(i, name)[0] == 'B' && Indexed(i, name)[1] == p[0];
    assert Decimal.IsDigit(p[0]);
    assert GlobalName(BentryCount)[1] == 'E';
  }

  lemma EntryNamesSplit(i: nat, v: EntryVar, j: nat, w: EntryVar)
    requires Indexed(i, EntryName(v)) == Indexed(j, EntryName(w))
    ensures i == j && v == w
  {
    IndexedSplits(i, EntryName(v), j, EntryName(w));
    EntryNames(v, w);
  }

  lemma PrefixSplits(a: string, b: string)
    requires Prefixed(a) == Prefixed(b)
    ensures a == b
  {
    var n := |PREFIX| + 1;
    assert Prefixed(a)[n..] == a && Prefixed(b)[n..] == b;
  }

  /** Different settings are kept in different variables. */
  lemma KeyInjective(x: Variable, y: Variable)
    requires Key(x) == Key(y)
    ensures x == y
  {
    PrefixSplits(Name(x), Name(y));
    NameInjective(x, y);
  }

  lemma NameInjective(x: Variable, y: Variable)
    requires Name(x) == Name(y)
    ensures x == y
  {
    if x.Global? {
      if y.Global? {
        GlobalNames(x.g, y.g);
      } else {
        NotIndexed(x.g, y.index, EntryName(y.v));
      }
    } else if y.Global? {
      NotIndexed(y.g, x.index, EntryName(x.v));
    } else {
      EntryNamesSplit(x.index, x.v, y.index, y.v);
    }
  }

  lemma NoEquals(x: Variable)
    ensures '=' !in Name(x)
  {
    match x
    case Global(g) =>
    case Entry(i, v) =>
      var p := Decimal.PrintNat(i);
      assert forall k :: 0 <= k < |p| ==> Decimal.IsDigit(p[k]);
      assert '=' !in EntryName(v);
  }

  // ---------- what is handed over ----------

  function ActionNumber(a: BootAction): int {
    match a
    case KernelBoot => 0
    case InsfileBoot => 1
    case BootmapBoot => 2
    case Reboot => 3
    case Halt => 4
    case Shell => 5
    case Exit => 6
  }

  function ToAction(n: int): BootAction {
    match n
    case 1 => InsfileBoot
    case 2 => BootmapBoot
    case 3 => Reboot
    case 4 => Halt
    case 5 => Shell
    case 6 => BootAction.Exit
    case _ => KernelBoot
  }

  datatype Datum = Text(text: string) | Number(number: int)

  function Show(d: Datum): string {
    match d
    case Text(s) => s
    case Number(n) => Decimal.Print(n)
  }

  function EntryDatum(b: Bentry, v: EntryVar): Datum {
    match v
    case Title => Text(b.title)
    case Tag => Text(b.tag)
    case Root => Text(b.root)
    case Kernel => Text(b.kernel)
    case Initrd => Text(b.initrd)
    case Cmdline => Text(b.cmdline)
    case Parmfile => Text(b.parmfile)
    case Insfile => Text(b.insfile)
    case Bootmap => Text(b.bootmap)
    case Locked => Number(b.locked)
    case Pause => Text(b.pause)
    case Action => Number(ActionNumber(b.action))
  }

  function DatumOf(c: Toplevel, x: Variable): Datum {
    match x
    case Global(Version) => Text("1.0")
    case Global(DefaultEntry) => Number(c.bootDefault)
    case Global(TimeoutSecs) => Number(c.timeout)
    case Global(Password) => Text(c.password)
    case Global(BentryCount) => Number(|c.bentries|)
    case Entry(i, v) => if i < |c.bentries| then EntryDatum(c.bentries[i], v) else Text("")
  }

  function Value(c: Toplevel, x: Variable): string { Show(DatumOf(c, x)) }

  type Names = Variable -> string
  type Values = (Toplevel, Variable) -> string

  /** The order in which the variables are set. */
  function Numbered(k: nat): Variable {
    if k < 5 then Global(GLOBALS[k]) else Entry((k - 5) / 12, ENTRY_VARS[(k - 5) % 12])
  }

  const GLOBALS: seq<GlobalVar> := [Version, DefaultEntry, TimeoutSecs, Password, BentryCount]

  const ENTRY_VARS: seq<EntryVar> :=
    [Title, Tag, Root, Kernel, Initrd, Cmdline, Parmfile, Insfile, Bootmap, Locked, Pause, Action]

  function GlobalPosition(g: GlobalVar): nat {
    match g
    case Version => 0
    case DefaultEntry => 1
    case TimeoutSecs => 2
    case Password => 3
    case BentryCount => 4
  }

  function Position(v: EntryVar): nat {
    match v
    case Title => 0
    case Tag => 1
    case Root => 2
    case Kernel => 3
    case Initrd => 4
    case Cmdline => 5
    case Parmfile => 6
    case Insfile => 7
    case Bootmap => 8
    case Locked => 9
    case Pause => 10
    case Action => 11
  }

  function PositionOf(x: Variable): nat {
    if x.Global? then GlobalPosition(x.g) else 5 + 12 * x.index + Position(x.v)
  }

  lemma NumberedPosition(x: Variable)
    ensures Numbered(PositionOf(x)) == x
  {
    if x.Entry? {
      assert (PositionOf(x) - 5) / 12 == x.index && (PositionOf(x) - 5) % 12 == Position(x.v);
      assert ENTRY_VARS[Position(x.v)] == x.v;
    }
  }

  function Count(c: Toplevel): nat { 5 + 12 * |c.bentries| }

  /** The environment after setting the first `k` variables of a configuration. */
  function SetFirst(key: Names, value: Values, env: map<string, string>, c: Toplevel, k: nat): map<string, string> {
    if k == 0 then env
    else SetFirst(key, value, env, c, k - 1)[key(Numbered(k - 1)) := value(c, Numbered(k - 1))]
  }

  /** A variable that is set holds its value, whatever it held before. */
  lemma {:induction false} SetHolds(key: Names, value: Values, env: map<string, string>, c: Toplevel, k: nat, j: nat)
    requires j < k && forall y, z :: key(y) == key(z) ==> y == z
    ensures var r, x := SetFirst(key, value, env, c, k), Numbered(j); key(x) in r && r[key(x)] == value(c, x)
  {
    if j < k - 1 {
      SetHolds(key, value, env, c, k - 1, j);
    }
  }

  lemma {:induction false} SetKeeps(key: Names, value: Values, env: map<string, string>, c: Toplevel, k: nat,
                                    name: string)
    requires forall x :: key(x) != name
    ensures var r := SetFirst(key, value, env, c, k);
            (name in r <==> name in env) && (name in env ==> r[name] == env[name])
  {
    if k > 0 {
      SetKeeps(key, value, env, c, k - 1, name);
    }
  }

  /** The whole hand-over. */
  function HandOver(env: map<string, string>, c: Toplevel): map<string, string> {
    SetFirst(Key, Value, env, c, Count(c))
  }

  // ---------- reading it back ----------

  function GetStr(env: map<string, string>, name: string, before: string): string {
    if name in env then env[name] else before
  }

  function GetInt(env: map<string, string>, name: string, before: int): int {
    if name in env && Decimal.Scan(env[name]).Some? then Decimal.Scan(env[name]).value else before
  }

  function Assemble(str: EntryVar -> string, locked: int, action: int): Bentry {
    Bentry(str(Title), str(Tag), str(Root), str(Kernel), str(Initrd), str(Cmdline), str(Parmfile), str(Insfile),
           str(Bootmap), locked, str(Pause), ToAction(action))
  }

  function ReadEntry(key: Names, env: map<string, string>, i: nat): Bentry {
    Assemble(v => GetStr(env, key(Entry(i, v)), ""), GetInt(env, key(Entry(i, Locked)), 0),
             GetInt(env, key(Entry(i, Action)), 0))
  }

  function Collect(entry: nat -> Bentry, n: int): (bs: seq<Bentry>)
    ensures |bs| == if n < 0 then 0 else n
    ensures forall i: nat :: i < n ==> bs[i] == entry(i)
  {
    if n <= 0 then [] else Collect(entry, n - 1) + [entry(n - 1)]
  }

  function ReadEntries(key: Names, env: map<string, string>, n: int): seq<Bentry> {
    Collect((i: nat) => ReadEntry(key, env, i), n)
  }

  /** What cfg_get_env() makes of a configuration. */
  function ReadAll(key: Names, env: map<string, string>, c: Toplevel): Toplevel {
    c.(bootDefault := GetInt(env, key(Global(DefaultEntry)), c.bootDefault),
       timeout := GetInt(env, key(Global(TimeoutSecs)), c.timeout),
       password := GetStr(env, key(Global(Password)), c.password),
       bentries := c.bentries + ReadEntries(key, env, GetInt(env, key(Global(BentryCount)), 0)))
  }

  function Read(env: map<string, string>, c: Toplevel): Toplevel { ReadAll(Key, env, c) }

  predicate IsInt(n: int) { Decimal.INT_MIN <= n <= Decimal.INT_MAX }

  /** The integers of the C structure. */
  predicate Representable(c: Toplevel) {
    && IsInt(c.bootDefault) && IsInt(c.timeout) && IsInt(|c.bentries|)
    && forall b :: b in c.bentries ==> IsInt(b.locked)
  }

  /** The environment holds the values of a configuration. */
  ghost predicate HoldsAll(key: Names, env: map<string, string>, c: Toplevel) {
    forall x: Variable :: (x.Entry? ==> x.index < |c.bentries|) ==> Holds(key, env, c, x)
  }

  predicate Holds(key: Names, env: map<string, string>, c: Toplevel, x: Variable) {
    key(x) in env && env[key(x)] == Value(c, x)
  }

  lemma HandedOver(env: map<string, string>, c: Toplevel)
    ensures HoldsAll(Key, HandOver(env, c), c)
  {
    forall x, y | Key(x) == Key(y) ensures x == y {
      KeyInjective(x, y);
    }
    forall x: Variable | x.Entry? ==> x.index < |c.bentries| ensures Holds(Key, HandOver(env, c), c, x) {
      NumberedPosition(x);
      SetHolds(Key, Value, env, c, Count(c), PositionOf(x));
    }
  }

  lemma GotText(key: Names, env: map<string, string>, c: Toplevel, x: Variable, before: string, text: string)
    requires Holds(key, env, c, x) && DatumOf(c, x) == Text(text)
    ensures GetStr(env, key(x), before) == text
  {
  }

  lemma GotInt(key: Names, env: map<string, string>, c: Toplevel, x: Variable, before: int, n: int)
    requires Holds(key, env, c, x) && DatumOf(c, x) == Number(n) && IsInt(n)
    ensures GetInt(env, key(x), before) == n
  {
    Decimal.ScanPrint(n);
  }

  lemma Assembled(str: EntryVar -> string, b: Bentry)
    requires forall v: EntryVar :: EntryDatum(b, v).Text? ==> str(v) == EntryDatum(b, v).text
    ensures Assemble(str, b.locked, ActionNumber(b.action)) == b
  {
    assert str(Title) == b.title && str(Tag) == b.tag && str(Root) == b.root && str(Kernel) == b.kernel;
    assert str(Initrd) == b.initrd && str(Cmdline) == b.cmdline && str(Parmfile) == b.parmfile;
    assert str(Insfile) == b.insfile && str(Bootmap) == b.bootmap && str(Pause) == b.pause;
    assert ToAction(ActionNumber(b.action)) == b.action;
  }

  lemma EntryRead(key: Names, env: map<string, string>, c: Toplevel, i: nat)
    requires Representable(c) && HoldsAll(key, env, c) && i < |c.bentries|
    ensures ReadEntry(key, env, i) == c.bentries[i]
  {
    var b := c.bentries[i];
    var str := v => GetStr(env, key(Entry(i, v)), "");
    assert b in c.bentries;
    forall v: EntryVar | EntryDatum(b, v).Text? ensures GetStr(env, key(Entry(i, v)), "") == EntryDatum(b, v).text {
      assert Holds(key, env, c, Entry(i, v));
      GotText(key, env, c, Entry(i, v), "", EntryDatum(b, v).text);
    }
    assert Holds(key, env, c, Entry(i, Locked)) && Holds(key, env, c, Entry(i, Action));
    GotInt(key, env, c, Entry(i, Locked), 0, b.locked);
    GotInt(key, env, c, Entry(i, Action), 0, ActionNumber(b.action));
    Assembled(str, b);
    SameAssembly(key, env, i, str);
  }

  lemma SameAssembly(key: Names, env: map<string, string>, i: nat, str: EntryVar -> string)
    requires forall v: EntryVar :: str(v) == GetStr(env, key(Entry(i, v)), "")
    ensures ReadEntry(key, env, i)
         == Assemble(str, GetInt(env, key(Entry(i, Locked)), 0), GetInt(env, key(Entry(i, Action)), 0))
  {
  }

  lemma GlobalsRead(key: Names, env: map<string, string>, c: Toplevel, before: Toplevel)
    requires Representable(c) && HoldsAll(key, env, c)
    ensures ReadAll(key, env, before)
         == c.(uis := before.uis, bentries := before.bentries + ReadEntries(key, env, |c.bentries|))
  {
    assert Holds(key, env, c, Global(DefaultEntry)) && Holds(key, env, c, Global(TimeoutSecs));
    assert Holds(key, env, c, Global(Password)) && Holds(key, env, c, Global(BentryCount));
    GotInt(key, env, c, Global(DefaultEntry), before.bootDefault, c.bootDefault);
    GotInt(key, env, c, Global(TimeoutSecs), before.timeout, c.timeout);
    GotText(key, env, c, Global(Password), before.password, c.password);
    GotInt(key, env, c, Global(BentryCount), 0, |c.bentries|);
  }

  lemma EntriesRead(key: Names, env: map<string, string>, c: Toplevel)
    requires Representable(c) && HoldsAll(key, env, c)
    ensures ReadEntries(key, env, |c.bentries|) == c.bentries
  {
    forall i: nat | i < |c.bentries| ensures ReadEntry(key, env, i) == c.bentries[i] {
      EntryRead(key, env, c, i);
    }
    var bs := ReadEntries(key, env, |c.bentries|);
    assert forall i: nat :: i < |bs| ==> bs[i] == ReadEntry(key, env, i);
  }

  /** The user interface gets all of the configuration except the list of user
      interfaces, whatever the environment held before. */
  lemma HandOverRead(env: map<string, string>, c: Toplevel, before: Toplevel)
    requires Representable(c)
    ensures Read(HandOver(env, c), before) == c.(uis := before.uis, bentries := before.bentries + c.bentries)
  {
    HandedOver(env, c);
    GlobalsRead(Key, HandOver(env, c), c, before);
    EntriesRead(Key, HandOver(env, c), c);
  }

  /** Variables the hand-over has no business with: those of other programs, and the two
      of this program that are set and read around it. */
  predicate Foreign(name: string) {
    !(PREFIX + "_" <= name) || name == Prefixed("STARTUP_MESSAGE") || name == Prefixed("PATH")
  }

  lemma ForeignName(x: Variable)
    ensures Name(x) != "STARTUP_MESSAGE" && Name(x) != "PATH"
  {
    match x
    case Global(g) =>
      assert GlobalName(g)[0] != 'S' && (GlobalName(g)[0] == 'P' ==> |GlobalName(g)| == 8);
    case Entry(i, v) =>
      assert Indexed(i, EntryName(v))[0] == 'B';
  }

  lemma ForeignKey(x: Variable, name: string)
    requires Foreign(name)
    ensures Key(x) != name
  {
    if PREFIX + "_" <= name {
      ForeignName(x);
      if name == Prefixed("PATH") && Key(x) == name {
        PrefixSplits(Name(x), "PATH");
      } else if Key(x) == name {
        PrefixSplits(Name(x), "STARTUP_MESSAGE");
      }
    } else {
      assert Key(x)[..|PREFIX + "_"|] == PREFIX + "_";
    }
  }

  /** They survive the hand-over. */
  lemma OthersKept(env: map<string, string>, c: Toplevel, name: string)
    requires Foreign(name)
    ensures (name in HandOver(env, c) <==> name in env) && (name in env ==> HandOver(env, c)[name] == env[name])
  {
    forall x ensures Key(x) != name {
      ForeignKey(x, name);
    }
    SetKeeps(Key, Value, env, c, Count(c), name);
  }

  /** Setting one more variable is one more update. */
  ghost predicate Step(key: Names, after: nat -> map<string, string>, k: nat, x: Variable, d: Datum) {
    after(k + 1) == after(k)[key(x) := Show(d)]
  }

  ghost predicate EntrySteps(key: Names, after: nat -> map<string, string>, k: nat, i: nat, b: Bentry) {
    forall v :: Step(key, after, k + Position(v), Entry(i, v), EntryDatum(b, v))
  }

  ghost predicate GlobalSteps(key: Names, after: nat -> map<string, string>, c: Toplevel) {
    forall g :: Step(key, after, GlobalPosition(g), Global(g), DatumOf(c, Global(g)))
  }

  ghost predicate AllEntrySteps(key: Names, after: nat -> map<string, string>, bs: seq<Bentry>) {
    forall i: nat :: i < |bs| ==> EntrySteps(key, after, 5 + 12 * i, i, bs[i])
  }

  ghost predicate Steps(key: Names, after: nat -> map<string, string>, env: map<string, string>, c: Toplevel) {
    after(0) == env && GlobalSteps(key, after, c) && AllEntrySteps(key, after, c.bentries)
  }

  lemma SetStep(key: Names, env: map<string, string>, c: Toplevel, after: nat -> map<string, string>, x: Variable)
    requires forall j :: after(j) == SetFirst(key, Value, env, c, j)
    ensures Step(key, after, PositionOf(x), x, DatumOf(c, x))
  {
    NumberedPosition(x);
  }

  /** The environment after setting the first variables of a configuration. */
  lemma AfterSome(key: Names, env: map<string, string>, c: Toplevel) returns (after: nat -> map<string, string>)
    ensures Steps(key, after, env, c) && after(Count(c)) == SetFirst(key, Value, env, c, Count(c))
  {
    after := (k: nat) => SetFirst(key, Value, env, c, k);
    forall g ensures Step(key, after, GlobalPosition(g), Global(g), DatumOf(c, Global(g))) {
      SetStep(key, env, c, after, Global(g));
    }
    forall i: nat | i < |c.bentries| ensures EntrySteps(key, after, 5 + 12 * i, i, c.bentries[i]) {
      forall v ensures Step(key, after, 5 + 12 * i + Position(v), Entry(i, v), EntryDatum(c.bentries[i], v)) {
        SetStep(key, env, c, after, Entry(i, v));
      }
    }
  }

  class Environ {
    var vars: map<string, string>

    method SetEnvStr(variable: string, value: string)
      modifies this
      ensures vars == PutEnv(old(vars), Prefixed(variable) + "=" + value)
      ensures '=' !in variable ==> vars == old(vars)[Prefixed(variable) := value]
    {
      var lostStr := Prefixed(variable) + "=" + value;
      if '=' !in variable {
        PutEnvName(vars, Prefixed(variable), value);
      }
      vars := PutEnv(vars, lostStr);
    }

    method SetEnvInt(variable: string, value: int)
      modifies this
      ensures vars == PutEnv(old(vars), Prefixed(variable) + "=" + Decimal.Print(value))
      ensures '=' !in variable ==> vars == old(vars)[Prefixed(variable) := Decimal.Print(value)]
    {
      var lostStr := Prefixed(variable) + "=" + Decimal.Print(value);
      if '=' !in variable {
        PutEnvName(vars, Prefixed(variable), Decimal.Print(value));
      }
      vars := PutEnv(vars, lostStr);
    }

    /** Sets the variable number `k` of a configuration; `after` is the environment
        after setting a number of them. */
    method SetStr(x: Variable, value: string, ghost after: nat -> map<string, string>, ghost k: nat)
      requires vars == after(k) && Step(Key, after, k, x, Text(value))
      modifies this
      ensures vars == after(k + 1)
    {
      NoEquals(x);
      SetEnvStr(Name(x), value);
    }

    method SetInt(x: Variable, value: int, ghost after: nat -> map<string, string>, ghost k: nat)
      requires vars == after(k) && Step(Key, after, k, x, Number(value))
      modifies this
      ensures vars == after(k + 1)
    {
      NoEquals(x);
      SetEnvInt(Name(x), value);
    }

    method SetNames(i: nat, b: Bentry, ghost after: nat -> map<string, string>, ghost k: nat)
      requires vars == after(k) && EntrySteps(Key, after, k, i, b)
      modifies this
      ensures vars == after(k + 4)
    {
      assert Step(Key, after, k, Entry(i, Title), EntryDatum(b, Title));
      SetStr(Entry(i, Title), b.title, after, k);
      assert Step(Key, after, k + 1, Entry(i, Tag), EntryDatum(b, Tag));
      SetStr(Entry(i, Tag), b.tag, after, k + 1);
      assert Step(Key, after, k + 2, Entry(i, Root), EntryDatum(b, Root));
      SetStr(Entry(i, Root), b.root, after, k + 2);
      assert Step(Key, after, k + 3, Entry(i, Kernel), EntryDatum(b, Kernel));
      SetStr(Entry(i, Kernel), b.kernel, after, k + 3);
    }

    method SetFiles(i: nat, b: Bentry, ghost after: nat -> map<string, string>, ghost k: nat)
      requires vars == after(k + 4) && EntrySteps(Key, after, k, i, b)
      modifies this
      ensures vars == after(k + 8)
    {
      assert Step(Key, after, k + 4, Entry(i, Initrd), EntryDatum(b, Initrd));
      SetStr(Entry(i, Initrd), b.initrd, after, k + 4);
      assert Step(Key, after, k + 5, Entry(i, Cmdline), EntryDatum(b, Cmdline));
      SetStr(Entry(i, Cmdline), b.cmdline, after, k + 5);
      assert Step(Key, after, k + 6, Entry(i, Parmfile), EntryDatum(b, Parmfile));
      SetStr(Entry(i, Parmfile), b.parmfile, after, k + 6);
      assert Step(Key, after, k + 7, Entry(i, Insfile), EntryDatum(b, Insfile));
      SetStr(Entry(i, Insfile), b.insfile, after, k + 7);
    }

    method SetRest(i: nat, b: Bentry, ghost after: nat -> map<string, string>, ghost k: nat)
      requires vars == after(k + 8) && EntrySteps(Key, after, k, i, b)
      modifies this
      ensures vars == after(k + 12)
    {
      assert Step(Key, after, k + 8, Entry(i, Bootmap), EntryDatum(b, Bootmap));
      SetStr(Entry(i, Bootmap), b.bootmap, after, k + 8);
      assert Step(Key, after, k + 9, Entry(i, Locked), EntryDatum(b, Locked));
      SetInt(Entry(i, Locked), b.locked, after, k + 9);
      assert Step(Key, after, k + 10, Entry(i, Pause), EntryDatum(b, Pause));
      SetStr(Entry(i, Pause), b.pause, after, k + 10);
      assert Step(Key, after, k + 11, Entry(i, Action), EntryDatum(b, Action));
      SetInt(Entry(i, Action), ActionNumber(b.action), after, k + 11);
    }

    /** The body of the loop of cfg_set_env(). */
    method SetEntry(i: nat, b: Bentry, ghost after: nat -> map<string, string>, ghost k: nat)
      requires vars == after(k) && EntrySteps(Key, after, k, i, b)
      modifies this
      ensures vars == after(k + 12)
    {
      SetNames(i, b, after, k);
      SetFiles(i, b, after, k);
      SetRest(i, b, after, k);
    }

    method SetFirstGlobals(c: Toplevel, ghost after: nat -> map<string, string>)
      requires vars == after(0) && GlobalSteps(Key, after, c)
      modifies this
      ensures vars == after(2)
    {
      assert Step(Key, after, 0, Global(Version), DatumOf(c, Global(Version)));
      SetStr(Global(Version), "1.0", after, 0);
      assert Step(Key, after, 1, Global(DefaultEntry), DatumOf(c, Global(DefaultEntry)));
      SetInt(Global(DefaultEntry), c.bootDefault, after, 1);
    }

    method SetGlobals(c: Toplevel, ghost after: nat -> map<string, string>)
      requires vars == after(0) && GlobalSteps(Key, after, c)
      modifies this
      ensures vars == after(5)
    {
      SetFirstGlobals(c, after);
      assert Step(Key, after, 2, Global(TimeoutSecs), DatumOf(c, Global(TimeoutSecs)));
      SetInt(Global(TimeoutSecs), c.timeout, after, 2);
      assert Step(Key, after, 3, Global(Password), DatumOf(c, Global(Password)));
      SetStr(Global(Password), c.password, after, 3);
      assert Step(Key, after, 4, Global(BentryCount), DatumOf(c, Global(BentryCount)));
      SetInt(Global(BentryCount), |c.bentries|, after, 4);
    }

    method SetEntries(bs: seq<Bentry>, ghost after: nat -> map<string, string>)
      requires vars == after(5) && AllEntrySteps(Key, after, bs)
      modifies this
      ensures vars == after(5 + 12 * |bs|)
    {
      var i: nat := 0;
      while i < |bs|
        invariant i <= |bs| && vars == after(5 + 12 * i)
      {
        assert EntrySteps(Key, after, 5 + 12 * i, i, bs[i]);
        SetEntry(i, bs[i], after, 5 + 12 * i);
        i := i + 1;
      }
    }

    method SetConfig(c: Toplevel, ghost after: nat -> map<string, string>)
      requires Steps(Key, after, vars, c)
      modifies this
      ensures vars == after(Count(c))
    {
      SetGlobals(c, after);
      SetEntries(c.bentries, after);
    }

    /** cfg_set_env() */
    method SetEnv(c: Toplevel)
      modifies this
      ensures vars == HandOver(old(vars), c)
    {
      ghost var after := AfterSome(Key, vars, c);
      SetConfig(c, after);
    }

    method GetEnvStr(x: Variable, before: string) returns (value: string)
      ensures value == GetStr(vars, Key(x), before)
    {
      value := before;
      if Key(x) in vars {
        value := vars[Key(x)];
      }
    }

    method GetEnvInt(x: Variable, before: int) returns (value: int)
      ensures value == GetInt(vars, Key(x), before)
    {
      value := before;
      if Key(x) in vars {
        var n := Decimal.Scan(vars[Key(x)]);
        if n.Some? {
          value := n.value;
        }
      }
    }

    /** The body of the loop of cfg_get_env(). */
    method GetEntry(i: nat) returns (b: Bentry)
      ensures b == ReadEntry(Key, vars, i)
    {
      var title := GetEnvStr(Entry(i, Title), "");
      var tag := GetEnvStr(Entry(i, Tag), "");
      var root := GetEnvStr(Entry(i, Root), "");
      var kernel := GetEnvStr(Entry(i, Kernel), "");
      var initrd := GetEnvStr(Entry(i, Initrd), "");
      var cmdline := GetEnvStr(Entry(i, Cmdline), "");
      var parmfile := GetEnvStr(Entry(i, Parmfile), "");
      var insfile := GetEnvStr(Entry(i, Insfile), "");
      var bootmap := GetEnvStr(Entry(i, Bootmap), "");
      var locked := GetEnvInt(Entry(i, Locked), 0);
      var pause := GetEnvStr(Entry(i, Pause), "");
      var action := GetEnvInt(Entry(i, Action), 0);
      b := Bentry(title, tag, root, kernel, initrd, cmdline, parmfile, insfile, bootmap, locked, pause,
                  ToAction(action));
    }

    /** cfg_get_env() */
    method GetEnv(config: Toplevel) returns (c: Toplevel)
      ensures c == Read(vars, config)
    {
      c := config;
      var bootDefault := GetEnvInt(Global(DefaultEntry), c.bootDefault);
      var timeout := GetEnvInt(Global(TimeoutSecs), c.timeout);
      var password := GetEnvStr(Global(Password), c.password);
      c := c.(bootDefault := bootDefault, timeout := timeout, password := password);
      var maxEntryCount := GetEnvInt(Global(BentryCount), 0);
      var i := 0;
      while i < maxEntryCount
        invariant 0 <= i && (i <= maxEntryCount || i == 0)
        invariant c == config.(bootDefault := bootDefault, timeout := timeout, password := password,
                               bentries := config.bentries + ReadEntries(Key, vars, i))
      {
        var b := GetEntry(i);
        c := c.(bentries := c.bentries + [b]);
        i := i + 1;
      }
    }
  }
}
