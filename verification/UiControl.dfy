/**
 The controller of the user interface processes as a state machine: every step of
 the controller and every step of its environment (clients that write and exit,
 signals, the alarm clock) is one action, in any order the system allows
 (core/ui_control.c, core/sysload.c).
 */
module UiControl {
  import opened Config
  import opened CText
  import opened Lists
  import ScannerState

  datatype Signal = NoSignal | Usr1 | Alrm

  datatype Status = Running | CleanExit | ProblemExit

  /** What the kernel knows about a child. */
  datatype Process = Alive | Zombie(clean: bool) | Reaped(clean: bool)

  /** A client: `written` is what it wrote to its pipe so far, of which `taken`
      characters were read; the rest is the record the controller keeps. */
  datatype Client = Client(
    pid: int, fd: nat, process: Process, written: string, taken: nat, collected: string, status: Status)

  datatype Result = Ok(boot: Bentry) | Error

  type Flex = ScannerState.Flex

  /** Where an answer comes from: a client, whose text was scanned in a state that is
      recorded. */
  datatype Origin = FromClient(cnr: nat, scanner: Flex) | FromDefault | Nowhere

  /** The place the controller is in. */
  datatype Control =
    | Outside
    | Build
    | Arm(waitset: set<nat>)
    | Select(waitset: set<nat>)   // the alarm is set; not in select() yet
    | Blocked(waitset: set<nat>, interrupted: bool)
    | Interrupted
    | Service(fds: seq<nat>)
    | Wait(cnr: nat, fds: seq<nat>)
    | Decide(cnr: nat, fds: seq<nat>)
    | Cleanup(result: Result, origin: Origin)
    | Stopped

  /** `scanner` is what the last text left in the scanner, `calls` counts the calls of
      userinterface(), `handled` records that the main loop acted on a SIGUSR1. */
  datatype State = State(
    config: Toplevel, clients: seq<Client>, rcvdSig: Signal, armed: bool, endtime: int, control: Control,
    scanner: Flex, calls: nat, handled: bool)

  datatype Action =
    // the environment
    | Write(cnr: nat, text: string) | ExitClient(cnr: nat, clean: bool) | SendUsr1 | FireAlarm
    // the controller, with what the system calls answer
    | Enter(pids: seq<int>, fds: seq<nat>)
    | BuildWaitset | SetAlarm | Block
    | SelectReady(fds: seq<nat>) | SelectInterrupted | SelectFails
    | HandleInterrupt
    | Read | ReadFails | AllServed
    | WaitPid(pid: int) | NoneLeft
    | CheckClient
    | CleanupWait(pid: int) | Leave

  const STR_MAX_LEN := 512

  /** parse_sysload_boot_entry(): it reads a text in the state in which the scanner is, and
      leaves the scanner in another one. */
  type Parser = (Flex, string) -> (Option<Bentry>, Flex)

  // ---------- single steps ----------

  function NewClient(pid: int, fd: nat): Client { Client(pid, fd, Alive, "", 0, "", Running) }

  function MarkReaped(c: Client): Client {
    if c.process.Zombie? then
      c.(process := Reaped(c.process.clean), status := if c.process.clean then CleanExit else ProblemExit)
    else c
  }

  /** remove_terminated_clients() after waitpid() returned a pid. */
  function MarkPid(cs: seq<Client>, pid: int): seq<Client> {
    seq(|cs|, i requires 0 <= i < |cs| => if cs[i].pid == pid then MarkReaped(cs[i]) else cs[i])
  }

  predicate HasZombie(cs: seq<Client>, pid: int) { exists c :: c in cs && c.pid == pid && c.process.Zombie? }

  function Collect(c: Client, n: nat): Client
    requires c.taken + n <= |c.written|
  {
    c.(taken := c.taken + n, collected := c.collected + CString(c.written[c.taken..c.taken + n]))
  }

  /** What one read returns: all that is there, as far as it fits the buffer. */
  function Piece(c: Client): nat
    requires c.taken <= |c.written|
  {
    if |c.written| - c.taken <= STR_MAX_LEN then |c.written| - c.taken else STR_MAX_LEN
  }

  function SearchFd(cs: seq<Client>, fd: nat): (i: nat)
    ensures i <= |cs| && (i < |cs| ==> cs[i].fd == fd)
    ensures forall j :: 0 <= j < i ==> cs[j].fd != fd
  {
    if cs == [] || cs[0].fd == fd then 0
    else
      var i := 1 + SearchFd(cs[1..], fd);
      assert forall j :: 1 <= j < i ==> cs[j] == cs[1..][j - 1];
      i
  }

  /** ui_timeout() */
  function DefaultEntry(c: Toplevel): Result {
    if c.bootDefault < 0 || c.bootDefault >= |c.bentries| then Error else Ok(c.bentries[c.bootDefault])
  }

  /** A signal handler ran. */
  function Deliver(s: State, sig: Signal): State {
    s.(rcvdSig := sig, control := if s.control.Blocked? then s.control.(interrupted := true) else s.control)
  }

  /** There is something to read from the pipe of a client, or its end. */
  predicate Readable(c: Client) { c.taken < |c.written| || !c.process.Alive? }

  predicate ReadyFd(cs: seq<Client>, fd: nat) { exists i :: 0 <= i < |cs| && cs[i].fd == fd && Readable(cs[i]) }

  /** select() reports all pipes that can be read; they are served in this order. */
  predicate Reports(cs: seq<Client>, waitset: set<nat>, fds: seq<nat>) {
    && Ascending(fds) && (forall fd :: fd in fds ==> fd in waitset && ReadyFd(cs, fd))
    && forall fd :: fd in waitset && ReadyFd(cs, fd) ==> fd in fds
  }

  /** The system allows the action. */
  predicate Enabled(s: State, a: Action) {
    match a
    case Write(cnr, _) => cnr < |s.clients| && s.clients[cnr].process.Alive?
    case ExitClient(cnr, _) => cnr < |s.clients| && s.clients[cnr].process.Alive?
    case SendUsr1 => true
    case FireAlarm => s.armed
    case Enter(pids, fds) =>
      s.control.Outside? && |pids| == |fds| == |s.config.uis| && Distinct(pids) && Distinct(fds)
      && forall p :: p in pids ==> p > 0
    case BuildWaitset => s.control.Build?
    case SetAlarm => s.control.Arm?
    case Block => s.control.Select?
    case SelectReady(fds) => s.control.Blocked? && fds != [] && Reports(s.clients, s.control.waitset, fds)
    case SelectInterrupted => s.control.Blocked? && s.control.interrupted
    case SelectFails => s.control.Blocked?
    case HandleInterrupt => s.control.Interrupted?
    case Read =>
      && s.control.Service? && s.control.fds != []
      && var i := SearchFd(s.clients, s.control.fds[0]);
         i < |s.clients| && s.clients[i].taken <= |s.clients[i].written|
    case ReadFails => s.control.Service? && s.control.fds != [] && SearchFd(s.clients, s.control.fds[0]) < |s.clients|
    case AllServed => s.control.Service? && s.control.fds == []
    case WaitPid(pid) => s.control.Wait? && HasZombie(s.clients, pid)
    case NoneLeft => s.control.Wait? && forall c :: c in s.clients ==> !c.process.Zombie?
    case CheckClient => s.control.Decide? && s.control.cnr < |s.clients|
    case CleanupWait(pid) => s.control.Cleanup? && HasZombie(s.clients, pid)
    case Leave => s.control.Cleanup?
  }

  function EnterCall(s: State, pids: seq<int>, fds: seq<nat>): State
    requires |pids| == |fds|
  {
    if s.config.timeout <= 0 && |s.config.uis| <= 0 then
      s.(clients := [], control := Cleanup(Error, Nowhere), calls := s.calls + 1)
    else
      s.(clients := seq(|pids|, i requires 0 <= i < |pids| => NewClient(pids[i], fds[i])), calls := s.calls + 1,
         endtime := if s.config.timeout > 0 then s.config.timeout else 0, control := Build)
  }

  function Handle(s: State): State {
    if s.rcvdSig == Usr1 then
      s.(config := if s.endtime != 0 then s.config.(timeout := 0) else s.config, endtime := 0, control := Build,
         handled := true)
    else s.(control := Cleanup(DefaultEntry(s.config), FromDefault))
  }

  function Check(parse: Parser, s: State): State
    requires s.control.Decide? && s.control.cnr < |s.clients|
  {
    var c := s.clients[s.control.cnr];
    if c.status != CleanExit then s.(control := Service(s.control.fds))
    else
      var (boot, flex) := parse(s.scanner, c.collected);
      if boot.Some? then
        s.(scanner := flex, control := Cleanup(Ok(boot.value), FromClient(s.control.cnr, s.scanner)))
      else s.(scanner := flex, control := Service(s.control.fds))
  }

  /** The fds of the clients that exist. */
  function Waitset(cs: seq<Client>): set<nat> {
    set c <- cs | !c.process.Reaped? :: c.fd
  }

  /** One action; an action that is not enabled does nothing. */
  function Step(parse: Parser, s: State, a: Action): State {
    if !Enabled(s, a) then s
    else
      match a
      case Write(cnr, text) =>
        s.(clients := s.clients[cnr := s.clients[cnr].(written := s.clients[cnr].written + text)])
      case ExitClient(cnr, clean) => s.(clients := s.clients[cnr := s.clients[cnr].(process := Zombie(clean))])
      case SendUsr1 => Deliver(s, Usr1)
      case FireAlarm => Deliver(s.(armed := false), Alrm)
      case Enter(pids, fds) => EnterCall(s, pids, fds)
      case BuildWaitset => s.(control := Arm(Waitset(s.clients)))
      case SetAlarm => s.(armed := s.endtime > 0, control := Select(s.control.waitset))
      case Block => s.(control := Blocked(s.control.waitset, false))
      case SelectReady(fds) => s.(control := Service(fds))
      case SelectInterrupted => s.(control := Interrupted)
      case SelectFails => s.(control := Cleanup(Error, Nowhere))
      case HandleInterrupt => Handle(s)
      case Read =>
        var i := SearchFd(s.clients, s.control.fds[0]);
        var c := Collect(s.clients[i], Piece(s.clients[i]));
        s.(clients := s.clients[i := c], control := Wait(i, s.control.fds[1..]))
      case ReadFails => s.(control := Wait(SearchFd(s.clients, s.control.fds[0]), s.control.fds[1..]))
      case AllServed => s.(control := Build)
      case WaitPid(pid) => s.(clients := MarkPid(s.clients, pid))
      case NoneLeft => s.(control := Decide(s.control.cnr, s.control.fds))
      case CheckClient => Check(parse, s)
      case CleanupWait(pid) => s.(clients := MarkPid(s.clients, pid))
      case Leave => s.(control := if s.control.result.Ok? then Outside else Stopped)
  }

  /** A run from the start of the program: any sequence of actions. */
  function Run(parse: Parser, s: State, actions: seq<Action>): State
    decreases |actions|
  {
    if actions == [] then s else Run(parse, Step(parse, s, actions[0]), actions[1..])
  }

  /** The configuration was parsed; userinterface() was not called yet. */
  predicate Initial(s: State) {
    s.clients == [] && s.rcvdSig == NoSignal && !s.armed && s.control == Outside && !s.handled
  }

  // ---------- what every step keeps ----------

  function StatusOf(p: Process): Status {
    match p
    case Alive | Zombie(_) => Running
    case Reaped(clean) => if clean then CleanExit else ProblemExit
  }

  /** The record of a client matches the client: what was collected is a prefix of
      what was written, as far as it contains no NUL, and the status is that of
      the process. */
  predicate Consistent(c: Client) {
    && c.taken <= |c.written|
    && (NulFree(c.written[..c.taken]) ==> c.collected == c.written[..c.taken])
    && c.status == StatusOf(c.process)
  }

  predicate AllConsistent(cs: seq<Client>) { forall c :: c in cs ==> Consistent(c) }

  /** An answer is a client's, or the default entry. */
  predicate Justified(parse: Parser, s: State) {
    s.control.Cleanup? && s.control.result.Ok? ==>
      match s.control.origin
      case FromClient(cnr, flex) =>
        && cnr < |s.clients| && s.clients[cnr].status == CleanExit
        && parse(flex, s.clients[cnr].collected).0 == Some(s.control.result.boot)
      case FromDefault =>
        && 0 <= s.config.bootDefault < |s.config.bentries|
        && s.config.bentries[s.config.bootDefault] == s.control.result.boot
      case Nowhere => false
  }

  predicate InLoop(c: Control) { !c.Outside? && !c.Cleanup? && !c.Stopped? }

  /** While there is no timeout, a pending alarm is one from before, and it can only
      fire before the next select(); only a SIGUSR1 interrupts. */
  predicate Quiet(s: State) {
    && (s.armed ==> s.control.Build? || s.control.Arm?)
    && (s.control.Interrupted? || (s.control.Blocked? && s.control.interrupted) ==> s.rcvdSig == Usr1)
  }

  /** There is a time to end at exactly if there is a timeout, and none after a SIGUSR1 was
      handled. */
  predicate ClockIsRight(s: State) {
    && (InLoop(s.control) ==> s.endtime == if s.config.timeout > 0 then s.config.timeout else 0)
    && (s.config.timeout <= 0 ==> Quiet(s))
    && (s.handled ==> s.config.timeout <= 0)
  }

  predicate Unique(cs: seq<Client>) {
    forall i, j :: 0 <= i < j < |cs| ==> cs[i].fd != cs[j].fd && cs[i].pid != cs[j].pid
  }

  /** Pipes that are still to be served. */
  predicate Pending(cs: seq<Client>, fds: seq<nat>) {
    Distinct(fds) && forall fd :: fd in fds ==> ReadyFd(cs, fd)
  }

  /** The controller looks at the pipes of its clients. */
  predicate Placed(cs: seq<Client>, control: Control) {
    match control
    case Arm(waitset) => waitset == Waitset(cs)
    case Select(waitset) => waitset == Waitset(cs)
    case Blocked(waitset, _) => waitset == Waitset(cs)
    case Service(fds) => Pending(cs, fds)
    case Wait(cnr, fds) => cnr < |cs| && Pending(cs, fds)
    case Decide(cnr, fds) => cnr < |cs| && Pending(cs, fds)
    case _ => true
  }

  predicate Good(parse: Parser, s: State) {
    && AllConsistent(s.clients) && Unique(s.clients) && Placed(s.clients, s.control) && Justified(parse, s)
    && ClockIsRight(s)
  }

  lemma CollectConsistent(c: Client, n: nat)
    requires Consistent(c) && c.taken + n <= |c.written|
    ensures Consistent(Collect(c, n))
  {
    NextPiece(c.written, c.taken, n, c.collected);
  }

  lemma WriteConsistent(c: Client, text: string)
    requires Consistent(c)
    ensures Consistent(c.(written := c.written + text))
  {
    assert (c.written + text)[..c.taken] == c.written[..c.taken];
  }

  lemma MarkConsistent(cs: seq<Client>, pid: int)
    requires AllConsistent(cs)
    ensures AllConsistent(MarkPid(cs, pid))
    ensures forall i :: 0 <= i < |cs| ==> MarkPid(cs, pid)[i].collected == cs[i].collected
    ensures forall i :: 0 <= i < |cs| ==> MarkPid(cs, pid)[i].status == cs[i].status || cs[i].status == Running
  {
    var m := MarkPid(cs, pid);
    forall i | 0 <= i < |cs|
      ensures Consistent(m[i]) && m[i].collected == cs[i].collected
              && (m[i].status == cs[i].status || cs[i].status == Running)
    {
      assert cs[i] in cs && Consistent(cs[i]);
      assert m[i] == cs[i] || m[i] == MarkReaped(cs[i]);
    }
  }

  lemma UpdateConsistent(cs: seq<Client>, i: nat, c: Client)
    requires AllConsistent(cs) && i < |cs| && Consistent(c)
    ensures AllConsistent(cs[i := c])
  {
  }

  /** What an action does to the clients. */
  lemma ClientsStep(parse: Parser, s: State, a: Action)
    requires AllConsistent(s.clients)
    ensures AllConsistent(Step(parse, s, a).clients)
    ensures !a.Enter? ==> |Step(parse, s, a).clients| == |s.clients|
    ensures !a.Enter? ==> forall i :: 0 <= i < |s.clients| ==>
              var c, c' := s.clients[i], Step(parse, s, a).clients[i];
              && (c'.status == c.status || c.status == Running)
              && (c'.collected == c.collected || a.Read?)
  {
    if Enabled(s, a) {
      match a
      case Write(cnr, text) =>
        WriteConsistent(s.clients[cnr], text);
        UpdateConsistent(s.clients, cnr, s.clients[cnr].(written := s.clients[cnr].written + text));
      case ExitClient(cnr, clean) =>
        assert Consistent(s.clients[cnr]);
        UpdateConsistent(s.clients, cnr, s.clients[cnr].(process := Zombie(clean)));
      case Read =>
        var i := SearchFd(s.clients, s.control.fds[0]);
        CollectConsistent(s.clients[i], Piece(s.clients[i]));
        UpdateConsistent(s.clients, i, Collect(s.clients[i], Piece(s.clients[i])));
      case WaitPid(pid) => MarkConsistent(s.clients, pid);
      case CleanupWait(pid) => MarkConsistent(s.clients, pid);
      case _ =>
    }
  }

  lemma ResultStep(parse: Parser, s: State, a: Action)
    requires AllConsistent(s.clients) && Justified(parse, s)
    ensures Justified(parse, Step(parse, s, a))
  {
    ClientsStep(parse, s, a);
  }

  lemma ClockStep(parse: Parser, s: State, a: Action)
    requires ClockIsRight(s)
    ensures ClockIsRight(Step(parse, s, a)) && (s.handled ==> Step(parse, s, a).handled)
  {
  }

  // ---------- the pipes ----------

  /** Clients keep pid and pipe. */
  predicate SameNames(cs: seq<Client>, ds: seq<Client>) {
    |cs| == |ds| && forall i :: 0 <= i < |cs| ==> ds[i].fd == cs[i].fd && ds[i].pid == cs[i].pid
  }

  lemma UniqueKept(cs: seq<Client>, ds: seq<Client>)
    requires Unique(cs) && SameNames(cs, ds)
    ensures Unique(ds)
  {
  }

  lemma InWaitset(cs: seq<Client>, fd: nat)
    ensures fd in Waitset(cs) <==> exists i :: 0 <= i < |cs| && !cs[i].process.Reaped? && cs[i].fd == fd
  {
    if fd in Waitset(cs) {
      var c :| c in cs && !c.process.Reaped? && c.fd == fd;
      var i :| 0 <= i < |cs| && cs[i] == c;
      assert cs[i].fd == fd;
    }
    if i :| 0 <= i < |cs| && !cs[i].process.Reaped? && cs[i].fd == fd {
      assert cs[i] in cs;
    }
  }

  lemma WaitsetKept(cs: seq<Client>, ds: seq<Client>)
    requires SameNames(cs, ds) && forall i :: 0 <= i < |cs| ==> (cs[i].process.Reaped? <==> ds[i].process.Reaped?)
    ensures Waitset(ds) == Waitset(cs)
  {
    forall fd ensures fd in Waitset(ds) <==> fd in Waitset(cs) {
      InWaitset(cs, fd);
      InWaitset(ds, fd);
      if i :| 0 <= i < |cs| && !cs[i].process.Reaped? && cs[i].fd == fd {
        assert ds[i].fd == fd;
      }
      if i :| 0 <= i < |ds| && !ds[i].process.Reaped? && ds[i].fd == fd {
        assert cs[i].fd == fd;
      }
    }
  }

  lemma PendingKept(cs: seq<Client>, ds: seq<Client>, fds: seq<nat>)
    requires SameNames(cs, ds) && Pending(cs, fds)
    requires forall i :: 0 <= i < |cs| && cs[i].fd in fds && Readable(cs[i]) ==> Readable(ds[i])
    ensures Pending(ds, fds)
  {
    forall fd | fd in fds ensures ReadyFd(ds, fd) {
      var i :| 0 <= i < |cs| && cs[i].fd == fd && Readable(cs[i]);
      assert ds[i].fd == fd;
    }
  }

  lemma PendingTail(cs: seq<Client>, fds: seq<nat>)
    requires Pending(cs, fds) && fds != []
    ensures Pending(cs, fds[1..]) && fds[0] !in fds[1..]
  {
    assert forall fd :: fd in fds[1..] ==> fd in fds;
    assert forall k :: 0 <= k < |fds[1..]| ==> fds[1..][k] == fds[k + 1];
  }

  /** A change of the clients that takes nothing from the pipes and reaps nobody. */
  predicate Lively(cs: seq<Client>, ds: seq<Client>) {
    && SameNames(cs, ds)
    && forall i :: 0 <= i < |cs| ==>
         (cs[i].process.Reaped? <==> ds[i].process.Reaped?) && (Readable(cs[i]) ==> Readable(ds[i]))
  }

  lemma PlacedKept(cs: seq<Client>, ds: seq<Client>, control: Control)
    requires Lively(cs, ds) && Placed(cs, control)
    ensures Placed(ds, control)
  {
    WaitsetKept(cs, ds);
    match control
    case Service(fds) => PendingKept(cs, ds, fds);
    case Wait(_, fds) => PendingKept(cs, ds, fds);
    case Decide(_, fds) => PendingKept(cs, ds, fds);
    case _ =>
  }

  lemma ReadPlaced(cs: seq<Client>, i: nat, c: Client, fds: seq<nat>)
    requires Pending(cs, fds) && fds != [] && i < |cs| && cs[i].fd == fds[0] == c.fd && cs[i].pid == c.pid
    ensures SameNames(cs, cs[i := c]) && Pending(cs[i := c], fds[1..])
  {
    PendingTail(cs, fds);
    PendingKept(cs, cs[i := c], fds[1..]);
  }

  lemma MarkPlaced(cs: seq<Client>, pid: int, fds: seq<nat>)
    requires Pending(cs, fds)
    ensures SameNames(cs, MarkPid(cs, pid)) && Pending(MarkPid(cs, pid), fds)
  {
    PendingKept(cs, MarkPid(cs, pid), fds);
  }

  predicate StaysPlaced(s: State, t: State) {
    Unique(t.clients) && Placed(t.clients, t.control) && SameNames(s.clients, t.clients)
  }

  lemma ClientPlaced(parse: Parser, s: State, a: Action)
    requires Unique(s.clients) && Placed(s.clients, s.control) && (a.Write? || a.ExitClient?)
    ensures StaysPlaced(s, Step(parse, s, a))
  {
    var t := Step(parse, s, a);
    PlacedKept(s.clients, t.clients, s.control);
    UniqueKept(s.clients, t.clients);
  }

  lemma ReadKeepsPlace(parse: Parser, s: State, a: Action)
    requires Unique(s.clients) && Placed(s.clients, s.control) && (a.Read? || a.ReadFails?) && Enabled(s, a)
    ensures StaysPlaced(s, Step(parse, s, a))
  {
    var t, i := Step(parse, s, a), SearchFd(s.clients, s.control.fds[0]);
    ReadPlaced(s.clients, i, t.clients[i], s.control.fds);
    assert a.ReadFails? ==> s.clients[i := t.clients[i]] == s.clients;
    UniqueKept(s.clients, t.clients);
  }

  lemma ReapPlaced(parse: Parser, s: State, a: Action)
    requires Unique(s.clients) && Placed(s.clients, s.control) && (a.WaitPid? || a.CleanupWait?) && Enabled(s, a)
    ensures StaysPlaced(s, Step(parse, s, a))
  {
    MarkPlaced(s.clients, a.pid, if a.WaitPid? then s.control.fds else []);
    UniqueKept(s.clients, MarkPid(s.clients, a.pid));
  }

  lemma ControlPlaced(parse: Parser, s: State, a: Action)
    requires Unique(s.clients) && Placed(s.clients, s.control) && Enabled(s, a)
    requires !a.Write? && !a.ExitClient? && !a.Read? && !a.ReadFails? && !a.WaitPid? && !a.CleanupWait? && !a.Enter?
    ensures StaysPlaced(s, Step(parse, s, a))
  {
  }

  lemma PlacedStep(parse: Parser, s: State, a: Action)
    requires Unique(s.clients) && Placed(s.clients, s.control)
    ensures Unique(Step(parse, s, a).clients) && Placed(Step(parse, s, a).clients, Step(parse, s, a).control)
    ensures !a.Enter? ==> SameNames(s.clients, Step(parse, s, a).clients)
  {
    if Enabled(s, a) {
      match a
      case Write(_, _) => ClientPlaced(parse, s, a);
      case ExitClient(_, _) => ClientPlaced(parse, s, a);
      case Read => ReadKeepsPlace(parse, s, a);
      case ReadFails => ReadKeepsPlace(parse, s, a);
      case WaitPid(_) => ReapPlaced(parse, s, a);
      case CleanupWait(_) => ReapPlaced(parse, s, a);
      case Enter(pids, fds) => EnterPlaced(s, pids, fds);
      case _ => ControlPlaced(parse, s, a);
    }
  }

  lemma EnterPlaced(s: State, pids: seq<int>, fds: seq<nat>)
    requires |pids| == |fds| && Distinct(pids) && Distinct(fds)
    ensures Unique(EnterCall(s, pids, fds).clients)
    ensures EnterCall(s, pids, fds).control.Build? || EnterCall(s, pids, fds).control.Cleanup?
  {
  }

  /** Every action keeps the invariant. */
  lemma GoodStep(parse: Parser, s: State, a: Action)
    requires Good(parse, s)
    ensures Good(parse, Step(parse, s, a))
  {
    ClientsStep(parse, s, a);
    PlacedStep(parse, s, a);
    ResultStep(parse, s, a);
    ClockStep(parse, s, a);
  }

  lemma {:induction false} GoodRun(parse: Parser, s: State, actions: seq<Action>)
    requires Good(parse, s)
    ensures Good(parse, Run(parse, s, actions))
    ensures s.handled ==> Run(parse, s, actions).handled
    decreases |actions|
  {
    if actions != [] {
      GoodStep(parse, s, actions[0]);
      ClockStep(parse, s, actions[0]);
      GoodRun(parse, Step(parse, s, actions[0]), actions[1..]);
    }
  }

  // ---------- whole runs ----------

  /** In every run, an answer of userinterface() is the parse of what was collected
      from a client that exited cleanly, which is a prefix of what that client
      wrote, or it is the default entry, whose index is in range. */
  lemma AnswerIsJustified(parse: Parser, init: State, actions: seq<Action>)
    requires Initial(init)
    ensures var s := Run(parse, init, actions);
            s.control.Cleanup? && s.control.result.Ok? ==>
              match s.control.origin
              case FromClient(cnr, flex) =>
                && cnr < |s.clients|
                && var c := s.clients[cnr];
                   c.process == Reaped(true) && parse(flex, c.collected).0 == Some(s.control.result.boot)
                   && (NulFree(c.written) ==> c.collected <= c.written)
              case FromDefault =>
                && 0 <= s.config.bootDefault < |s.config.bentries|
                && s.config.bentries[s.config.bootDefault] == s.control.result.boot
              case Nowhere => false
  {
    GoodRun(parse, init, actions);
    var s := Run(parse, init, actions);
    if s.control.Cleanup? && s.control.result.Ok? && s.control.origin.FromClient? {
      var c := s.clients[s.control.origin.cnr];
      assert c in s.clients && Consistent(c);
    }
  }

  /** A client that is not running any more keeps its status until userinterface()
      is called again. */
  lemma {:induction false} StatusIsFinal(parse: Parser, s: State, actions: seq<Action>, i: nat)
    requires Good(parse, s) && i < |s.clients| && s.clients[i].status != Running
    requires forall a :: a in actions ==> !a.Enter?
    ensures i < |Run(parse, s, actions).clients| && Run(parse, s, actions).clients[i].status == s.clients[i].status
    decreases |actions|
  {
    if actions != [] {
      assert actions[0] in actions && forall a :: a in actions[1..] ==> a in actions;
      ClientsStep(parse, s, actions[0]);
      GoodStep(parse, s, actions[0]);
      StatusIsFinal(parse, Step(parse, s, actions[0]), actions[1..], i);
    }
  }

  /** The branch of the main loop that boots the default entry. */
  predicate TimesOut(s: State) { s.control.Interrupted? && s.rcvdSig != Usr1 }

  lemma {:induction false} RunConcat(parse: Parser, s: State, a: seq<Action>, b: seq<Action>)
    ensures Run(parse, s, a + b) == Run(parse, Run(parse, s, a), b)
    decreases |a|
  {
    if a == [] {
      assert a + b == b;
    } else {
      assert (a + b)[1..] == a[1..] + b;
      RunConcat(parse, Step(parse, s, a[0]), a[1..], b);
    }
  }

  /** Once the main loop acted on a SIGUSR1, no later iteration takes the timeout
      branch, and no later call of userinterface() does. */
  lemma NoTimeoutAfterUsr1(parse: Parser, init: State, before: seq<Action>, after: seq<Action>)
    requires Initial(init) && Run(parse, init, before).handled
    ensures !TimesOut(Run(parse, init, before + after))
  {
    RunConcat(parse, init, before, after);
    GoodRun(parse, init, before);
    GoodRun(parse, Run(parse, init, before), after);
  }

  // ---------- the program ----------

  /** The state of sysload while it controls the user interfaces; `u` is the array
      of client records. */
  class Controller {
    const parse: Parser
    var config: Toplevel
    var u: array<Client>
    var rcvdSig: Signal
    var armed: bool
    var endtime: int
    var control: Control
    var scanner: Flex
    var calls: nat
    var handled: bool

    function Abs(): State
      reads this, u
    {
      State(config, u[..], rcvdSig, armed, endtime, control, scanner, calls, handled)
    }

    constructor (parse: Parser, config: Toplevel, scanner: Flex)
      ensures this.parse == parse && fresh(u) && Initial(Abs())
      ensures Abs().config == config && Abs().scanner == scanner
    {
      this.parse, this.config, this.scanner := parse, config, scanner;
      u := new Client[0];
      rcvdSig, armed, endtime, control, calls, handled := NoSignal, false, 0, Outside, 0, false;
    }

    /** build_waitset() */
    method BuildWait() returns (wset: set<nat>)
      ensures wset == Waitset(u[..])
    {
      wset := {};
      var i := 0;
      while i < u.Length
        invariant i <= u.Length && wset == Waitset(u[..i])
      {
        if !u[i].process.Reaped? {
          wset := wset + {u[i].fd};
        }
        assert u[..i + 1] == u[..i] + [u[i]];
        i := i + 1;
      }
      assert u[..i] == u[..];
    }

    /** search_for_client() */
    method SearchForClient(fd: nat) returns (cnr: nat)
      ensures cnr == SearchFd(u[..], fd)
    {
      cnr := 0;
      while cnr < u.Length
        invariant cnr <= u.Length && forall j :: 0 <= j < cnr ==> u[j].fd != fd
      {
        if u[cnr].fd == fd {
          break;
        }
        cnr := cnr + 1;
      }
      SearchFdIs(u[..], fd, cnr);
    }

    /** The inner loop of remove_terminated_clients(). */
    method MarkTerminated(pid: int)
      modifies u
      ensures u[..] == MarkPid(old(u[..]), pid)
    {
      var cnr := 0;
      while cnr < u.Length
        invariant cnr <= u.Length
        invariant forall i :: 0 <= i < cnr ==> u[i] == MarkPid(old(u[..]), pid)[i]
        invariant forall i :: cnr <= i < u.Length ==> u[i] == old(u[..])[i]
      {
        if u[cnr].pid == pid {
          u[cnr] := MarkReaped(u[cnr]);
        }
        cnr := cnr + 1;
      }
    }

    /** userinterface() up to the main loop. */
    method Start(pids: seq<int>, fds: seq<nat>)
      requires |pids| == |fds| == |config.uis|
      modifies this
      ensures Abs() == EnterCall(old(Abs()), pids, fds) && fresh(u)
    {
      calls := calls + 1;
      if config.timeout <= 0 && |config.uis| <= 0 {
        u := new Client[0];
        control := Cleanup(Error, Nowhere);
        return;
      }
      u := new Client[|config.uis|](_ => NewClient(0, 0));
      var i := 0;
      while i < |config.uis|
        invariant i <= |config.uis| == u.Length && fresh(u)
        invariant forall j :: 0 <= j < i ==> u[j] == NewClient(pids[j], fds[j])
        modifies u
      {
        u[i] := NewClient(pids[i], fds[i]);
        i := i + 1;
      }
      endtime := if config.timeout > 0 then config.timeout else 0;
      control := Build;
    }

    /** The interrupted select() of the main loop. */
    method Interrupt()
      modifies this
      ensures Abs() == Handle(old(Abs())) && u == old(u)
    {
      if rcvdSig == Usr1 {
        if endtime != 0 {
          config := config.(timeout := 0);
        }
        endtime := 0;
        handled := true;
        control := Build;
      } else {
        control := Cleanup(DefaultEntry(config), FromDefault);
      }
    }

    /** The end of check_input_from_client(). */
    method Judge()
      requires control.Decide? && control.cnr < u.Length
      modifies this
      ensures Abs() == Check(parse, old(Abs())) && u == old(u)
    {
      var cnr := control.cnr;
      if u[cnr].status == CleanExit {
        var before := scanner;
        var (boot, flex) := parse(scanner, u[cnr].collected);
        scanner := flex;
        if boot.Some? {
          control := Cleanup(Ok(boot.value), FromClient(cnr, before));
          return;
        }
      }
      control := Service(control.fds);
    }
  
    /** One action of the environment or of the controller. */
    method Perform(a: Action)
      requires Enabled(Abs(), a)
      modifies this, u
      ensures Abs() == Step(parse, old(Abs()), a) && (u == old(u) || fresh(u))
    {
      match a
      case Write(cnr, text) => u[cnr] := u[cnr].(written := u[cnr].written + text);
      case ExitClient(cnr, clean) => u[cnr] := u[cnr].(process := Zombie(clean));
      case SendUsr1 =>
        rcvdSig := Usr1;
        control := if control.Blocked? then control.(interrupted := true) else control;
      case FireAlarm =>
        armed, rcvdSig := false, Alrm;
        control := if control.Blocked? then control.(interrupted := true) else control;
      case Enter(pids, fds) => Start(pids, fds);
      case BuildWaitset =>
        var wset := BuildWait();
        control := Arm(wset);
      case SetAlarm => armed, control := endtime > 0, Select(control.waitset);
      case Block => control := Blocked(control.waitset, false);
      case SelectReady(fds) => control := Service(fds);
      case SelectInterrupted => control := Interrupted;
      case SelectFails => control := Cleanup(Error, Nowhere);
      case HandleInterrupt => Interrupt();
      case Read =>
        var cnr := SearchForClient(control.fds[0]);
        u[cnr] := Collect(u[cnr], Piece(u[cnr]));
        control := Wait(cnr, control.fds[1..]);
      case ReadFails =>
        var cnr := SearchForClient(control.fds[0]);
        control := Wait(cnr, control.fds[1..]);
      case AllServed => control := Build;
      case WaitPid(pid) => MarkTerminated(pid);
      case NoneLeft => control := Decide(control.cnr, control.fds);
      case CheckClient => Judge();
      case CleanupWait(pid) => MarkTerminated(pid);
      case Leave => control := if control.result.Ok? then Outside else Stopped;
    }

    /** A run of the program; actions the system does not allow are skipped. */
    method Execute(actions: seq<Action>)
      modifies this, u
      ensures Abs() == Run(parse, old(Abs()), actions)
      ensures old(Good(parse, Abs())) ==> Good(parse, Abs())
    {
      ghost var before := Abs();
      var i := 0;
      while i < |actions|
        invariant i <= |actions| && (u == old(u) || fresh(u))
        invariant Run(parse, Abs(), actions[i..]) == Run(parse, before, actions)
        modifies this, u
      {
        ghost var now := Abs();
        assert actions[i..][1..] == actions[i + 1..];
        if Enabled(Abs(), actions[i]) {
          Perform(actions[i]);
        }
        assert Abs() == Step(parse, now, actions[i]);
        i := i + 1;
      }
      if Good(parse, before) {
        GoodRun(parse, before, actions);
      }
    }
  }

  lemma SearchFdIs(cs: seq<Client>, fd: nat, i: nat)
    requires i <= |cs| && (i < |cs| ==> cs[i].fd == fd) && forall j :: 0 <= j < i ==> cs[j].fd != fd
    ensures SearchFd(cs, fd) == i
  {
  }
}
