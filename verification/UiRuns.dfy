/**
 What the runs of the controller can come to. Every run that is constructed here
 does without failing system calls, so that the exact conditions below do not rest
 on them (core/ui_control.c, core/sysload.c).
 */
module UiRuns {
  import opened Lists
  import opened UiControl

  predicate NoFailure(a: Action) { !a.SelectFails? && !a.ReadFails? }

  predicate Calm(actions: seq<Action>) { forall a :: a in actions ==> NoFailure(a) }

  /** A run without failing system calls. */
  ghost predicate LeadsTo(parse: Parser, s: State, t: State) {
    exists actions :: Calm(actions) && Run(parse, s, actions) == t
  }

  lemma Stays(parse: Parser, s: State)
    ensures LeadsTo(parse, s, s)
  {
    assert Calm([]) && Run(parse, s, []) == s;
  }

  lemma Onward(parse: Parser, s: State, t: State, u: State)
    requires LeadsTo(parse, s, t) && LeadsTo(parse, t, u)
    ensures LeadsTo(parse, s, u)
  {
    var a :| Calm(a) && Run(parse, s, a) == t;
    var b :| Calm(b) && Run(parse, t, b) == u;
    RunConcat(parse, s, a, b);
    assert Calm(a + b);
  }

  /** One action more. */
  lemma Then(parse: Parser, s: State, t: State, a: Action)
    requires LeadsTo(parse, s, t) && NoFailure(a)
    ensures LeadsTo(parse, s, Step(parse, t, a))
  {
    assert Run(parse, t, [a]) == Step(parse, t, a) by {
      assert [a][1..] == [];
    }
    assert Calm([a]);
    Onward(parse, s, t, Step(parse, t, a));
  }

  lemma LeadsGood(parse: Parser, s: State, t: State)
    requires Good(parse, s) && LeadsTo(parse, s, t)
    ensures Good(parse, t)
  {
    var a :| Calm(a) && Run(parse, s, a) == t;
    GoodRun(parse, s, a);
  }

  // ---------- serving the clients ----------

  function ReapUpTo(cs: seq<Client>, k: nat): seq<Client> {
    seq(|cs|, i requires 0 <= i < |cs| => if i < k then MarkReaped(cs[i]) else cs[i])
  }

  lemma ReapNext(cs: seq<Client>, k: nat)
    requires Unique(cs) && k < |cs|
    ensures ReapUpTo(cs, k + 1) == MarkPid(ReapUpTo(cs, k), cs[k].pid)
    ensures if cs[k].process.Zombie? then HasZombie(ReapUpTo(cs, k), cs[k].pid)
            else ReapUpTo(cs, k + 1) == ReapUpTo(cs, k)
  {
    var ds := ReapUpTo(cs, k);
    assert ds[k] == cs[k] && ds[k] in ds;
    var es := MarkPid(ds, cs[k].pid);
    forall i | 0 <= i < |cs| ensures es[i] == ReapUpTo(cs, k + 1)[i] {
      assert i != k ==> ds[i].pid != cs[k].pid;
    }
  }

  lemma {:induction false} Reaping(parse: Parser, s: State, k: nat)
    requires s.control.Wait? && Unique(s.clients) && k <= |s.clients|
    ensures LeadsTo(parse, s, s.(clients := ReapUpTo(s.clients, k)))
  {
    var t := s.(clients := ReapUpTo(s.clients, k));
    if k == 0 {
      assert t.clients == s.clients;
      Stays(parse, s);
    } else {
      var before := s.(clients := ReapUpTo(s.clients, k - 1));
      Reaping(parse, s, k - 1);
      ReapNext(s.clients, k - 1);
      if s.clients[k - 1].process.Zombie? {
        Then(parse, s, before, WaitPid(s.clients[k - 1].pid));
        assert Step(parse, before, WaitPid(s.clients[k - 1].pid)) == t;
      }
    }
  }

  /** The clients after all that ended were reaped. */
  function Reap(cs: seq<Client>): seq<Client> { ReapUpTo(cs, |cs|) }

  lemma NoZombies(cs: seq<Client>)
    ensures forall c :: c in Reap(cs) ==> !c.process.Zombie?
  {
  }

  /** What the controller does about a client that it has looked at. */
  function Verdict(parse: Parser, scanner: Flex, c: Client, cnr: nat, fds: seq<nat>): (Control, Flex) {
    if c.status != CleanExit then (Service(fds), scanner)
    else
      var (boot, flex) := parse(scanner, c.collected);
      (if boot.Some? then Cleanup(Ok(boot.value), FromClient(cnr, scanner)) else Service(fds), flex)
  }

  lemma NoneLeftThenCheck(parse: Parser, s: State) returns (t: State)
    requires s.control.Wait? && s.control.cnr < |s.clients| && forall c :: c in s.clients ==> !c.process.Zombie?
    ensures LeadsTo(parse, s, t) && t == Check(parse, s.(control := Decide(s.control.cnr, s.control.fds)))
  {
    var s1 := Step(parse, s, NoneLeft);
    Stays(parse, s);
    Then(parse, s, s, NoneLeft);
    Then(parse, s, s1, CheckClient);
    t := Step(parse, s1, CheckClient);
  }

  /** From waitpid() to the end of check_input_from_client(). */
  lemma Judged(parse: Parser, s: State) returns (t: State)
    requires s.control.Wait? && s.control.cnr < |s.clients| && Unique(s.clients)
    ensures LeadsTo(parse, s, t)
    ensures var v := Verdict(parse, s.scanner, Reap(s.clients)[s.control.cnr], s.control.cnr, s.control.fds);
            t == s.(clients := Reap(s.clients), control := v.0, scanner := v.1)
  {
    var s1 := s.(clients := Reap(s.clients));
    Reaping(parse, s, |s.clients|);
    NoZombies(s.clients);
    t := NoneLeftThenCheck(parse, s1);
    Onward(parse, s, s1, t);
  }

  lemma SearchFinds(cs: seq<Client>, fd: nat)
    requires ReadyFd(cs, fd)
    ensures SearchFd(cs, fd) < |cs| && cs[SearchFd(cs, fd)].fd == fd
  {
  }

  lemma SearchIs(cs: seq<Client>, i: nat)
    requires Unique(cs) && i < |cs|
    ensures SearchFd(cs, cs[i].fd) == i
  {
    SearchFdIs(cs, cs[i].fd, i);
  }

  /** The clients after one of them was served. */
  function Served(cs: seq<Client>, i: nat): seq<Client>
    requires i < |cs| && cs[i].taken <= |cs[i].written|
  {
    Reap(cs[i := Collect(cs[i], Piece(cs[i]))])
  }

  /** check_input_from_client() for the next pipe. */
  lemma ServeClient(parse: Parser, s: State, i: nat) returns (t: State)
    requires Good(parse, s) && s.control.Service? && s.control.fds != []
    requires i < |s.clients| && s.clients[i].fd == s.control.fds[0]
    ensures LeadsTo(parse, s, t) && Consistent(s.clients[i])
    ensures var v := Verdict(parse, s.scanner, Served(s.clients, i)[i], i, s.control.fds[1..]);
            t == s.(clients := Served(s.clients, i), control := v.0, scanner := v.1)
  {
    var s1 := Step(parse, s, Read);
    assert s.clients[i] in s.clients;
    SearchIs(s.clients, i);
    Stays(parse, s);
    Then(parse, s, s, Read);
    GoodStep(parse, s, Read);
    t := Judged(parse, s1);
    Onward(parse, s, s1, t);
  }

  lemma ServeOne(parse: Parser, s: State) returns (t: State, i: nat)
    requires Good(parse, s) && s.control.Service? && s.control.fds != []
    ensures LeadsTo(parse, s, t) && i < |s.clients| && s.clients[i].fd == s.control.fds[0] && Consistent(s.clients[i])
    ensures var v := Verdict(parse, s.scanner, Served(s.clients, i)[i], i, s.control.fds[1..]);
            t == s.(clients := Served(s.clients, i), control := v.0, scanner := v.1)
  {
    var fd := s.control.fds[0];
    assert ReadyFd(s.clients, fd);
    SearchFinds(s.clients, fd);
    i := SearchFd(s.clients, fd);
    t := ServeClient(parse, s, i);
  }

  predicate AliveStay(cs: seq<Client>, ds: seq<Client>) {
    |cs| == |ds| && forall i :: 0 <= i < |cs| && cs[i].process.Alive? ==> ds[i].process.Alive?
  }

  /** The controller is done with what select() reported, or has an answer. */
  predicate RoundDone(s: State, t: State) {
    && t == s.(clients := t.clients, control := t.control, scanner := t.scanner)
    && (t.control.Build? || (t.control.Cleanup? && t.control.result.Ok?))
  }

  lemma {:induction false} ServeAll(parse: Parser, s: State) returns (t: State)
    requires Good(parse, s) && s.control.Service?
    ensures LeadsTo(parse, s, t) && RoundDone(s, t) && AliveStay(s.clients, t.clients)
    decreases |s.control.fds|
  {
    if s.control.fds == [] {
      Stays(parse, s);
      Then(parse, s, s, AllServed);
      t := Step(parse, s, AllServed);
    } else {
      var s1, i := ServeOne(parse, s);
      t := s1;
      if s1.control.Service? {
        LeadsGood(parse, s, s1);
        t := ServeAll(parse, s1);
        Onward(parse, s, s1, t);
      }
    }
  }

  lemma FinishFrom(parse: Parser, s: State, s1: State) returns (t: State)
    requires Good(parse, s) && LeadsTo(parse, s, s1)
    requires s1 == s.(clients := s1.clients, control := s1.control, scanner := s1.scanner)
    requires s1.control.Service? || (s1.control.Cleanup? && s1.control.result.Ok?)
    requires AliveStay(s.clients, s1.clients)
    ensures LeadsTo(parse, s, t) && RoundDone(s, t) && AliveStay(s.clients, t.clients)
  {
    t := s1;
    if s1.control.Service? {
      LeadsGood(parse, s, s1);
      t := ServeAll(parse, s1);
      Onward(parse, s, s1, t);
    }
  }

  /** The rest of a round. */
  lemma FinishRound(parse: Parser, s: State) returns (t: State)
    requires Good(parse, s) && (s.control.Service? || s.control.Wait? || s.control.Decide?)
    ensures LeadsTo(parse, s, t) && RoundDone(s, t) && AliveStay(s.clients, t.clients)
  {
    var s1 := s;
    Stays(parse, s);
    if s.control.Wait? {
      s1 := Judged(parse, s);
    } else if s.control.Decide? {
      Then(parse, s, s, CheckClient);
      s1 := Step(parse, s, CheckClient);
    }
    t := FinishFrom(parse, s, s1);
  }

  // ---------- when a SIGUSR1 stops the clock ----------

  lemma FireAndWake(parse: Parser, s: State) returns (t: State)
    requires s.control.Blocked? && s.armed
    ensures LeadsTo(parse, s, t) && TimesOut(t)
  {
    Stays(parse, s);
    Then(parse, s, s, FireAlarm);
    var s1 := Step(parse, s, FireAlarm);
    Then(parse, s, s1, SelectInterrupted);
    t := Step(parse, s1, SelectInterrupted);
  }

  /** From the start of a round to select(). */
  lemma ToSelect(parse: Parser, s: State) returns (t: State)
    requires s.control.Build? || s.control.Arm?
    ensures LeadsTo(parse, s, t)
    ensures t == s.(armed := s.endtime > 0, control := t.control) && t.control.Blocked? && !t.control.interrupted
    ensures t.control.waitset == if s.control.Arm? then s.control.waitset else Waitset(s.clients)
  {
    Stays(parse, s);
    var s1 := s;
    if s.control.Build? {
      Then(parse, s, s, BuildWaitset);
      s1 := Step(parse, s, BuildWaitset);
    }
    Then(parse, s, s1, SetAlarm);
    var s2 := Step(parse, s1, SetAlarm);
    Then(parse, s, s2, Block);
    t := Step(parse, s2, Block);
  }

  lemma BackToSelect(parse: Parser, s: State) returns (t: State)
    requires s.control == Service([])
    ensures LeadsTo(parse, s, t) && t == s.(armed := t.armed, control := t.control) && t.control.Blocked?
    ensures Good(parse, s) ==> Good(parse, t)
  {
    Stays(parse, s);
    Then(parse, s, s, AllServed);
    var s1 := Step(parse, s, AllServed);
    t := ToSelect(parse, s1);
    Onward(parse, s, s1, t);
    if Good(parse, s) {
      LeadsGood(parse, s, t);
    }
  }

  lemma BuildAndFire(parse: Parser, s: State) returns (t: State)
    requires (s.control.Build? || s.control.Arm?) && s.endtime > 0
    ensures LeadsTo(parse, s, t) && TimesOut(t)
  {
    var s1 := ToSelect(parse, s);
    t := FireAndWake(parse, s1);
    Onward(parse, s, s1, t);
  }

  function Pids(n: nat): (pids: seq<int>)
    ensures |pids| == n && Distinct(pids) && forall p :: p in pids ==> p > 0
  {
    seq(n, i => i + 1)
  }

  function Fds(n: nat): (fds: seq<nat>)
    ensures |fds| == n && Distinct(fds) && forall i :: 0 <= i < n ==> fds[i] == i
  {
    seq(n, (i: nat) => i)
  }

  /** userinterface() is called, possibly after an earlier call gave an answer that
      could not be booted. */
  lemma EnterAndFire(parse: Parser, s: State) returns (t: State)
    requires s.control.Outside? || (s.control.Cleanup? && s.control.result.Ok?)
    requires s.config.timeout > 0
    ensures LeadsTo(parse, s, t) && TimesOut(t)
  {
    Stays(parse, s);
    var s1 := s;
    if s.control.Cleanup? {
      Then(parse, s, s, Leave);
      s1 := Step(parse, s, Leave);
    }
    var n := |s.config.uis|;
    Then(parse, s, s1, Enter(Pids(n), Fds(n)));
    var s2 := Step(parse, s1, Enter(Pids(n), Fds(n)));
    t := BuildAndFire(parse, s2);
    Onward(parse, s, s2, t);
  }

  /** A client that exists writes something, or has ended. */
  lemma MakeReadable(parse: Parser, s: State, i: nat) returns (t: State)
    requires Good(parse, s) && i < |s.clients| && !s.clients[i].process.Reaped?
    ensures LeadsTo(parse, s, t) && t == s.(clients := t.clients)
    ensures SameNames(s.clients, t.clients) && Readable(t.clients[i])
  {
    Stays(parse, s);
    t := s;
    if s.clients[i].process.Alive? {
      assert s.clients[i] in s.clients && Consistent(s.clients[i]);
      Then(parse, s, s, Write(i, "\n"));
      t := Step(parse, s, Write(i, "\n"));
    }
  }

  lemma SelectAll(parse: Parser, s: State, fds: seq<nat>) returns (t: State)
    requires s.control.Blocked? && fds != [] && Reports(s.clients, s.control.waitset, fds)
    ensures LeadsTo(parse, s, t) && t == s.(control := Service(fds))
  {
    Stays(parse, s);
    Then(parse, s, s, SelectReady(fds));
    t := Step(parse, s, SelectReady(fds));
  }

  lemma AllReports(cs: seq<Client>, waitset: set<nat>) returns (fds: seq<nat>)
    ensures Reports(cs, waitset, fds)
  {
    fds := InOrder(set fd | fd in waitset && ReadyFd(cs, fd));
  }

  /** select() returns, because there is a client to read from. */
  lemma SelectSome(parse: Parser, s: State, i: nat) returns (t: State)
    requires s.control.Blocked? && i < |s.clients| && s.clients[i].fd in s.control.waitset && Readable(s.clients[i])
    ensures LeadsTo(parse, s, t) && t.control.Service? && t == s.(control := t.control)
  {
    var fds := AllReports(s.clients, s.control.waitset);
    assert ReadyFd(s.clients, s.clients[i].fd);
    assert s.clients[i].fd in fds;
    t := SelectAll(parse, s, fds);
  }

  /** select() returns with the only client to read from. */
  lemma SelectOnly(parse: Parser, s: State, i: nat) returns (t: State)
    requires s.control.Blocked? && i < |s.clients| && s.clients[i].fd in s.control.waitset && Readable(s.clients[i])
    requires forall j :: 0 <= j < |s.clients| && j != i ==> !Readable(s.clients[j])
    ensures LeadsTo(parse, s, t) && t == s.(control := Service([s.clients[i].fd]))
  {
    assert ReadyFd(s.clients, s.clients[i].fd);
    t := SelectAll(parse, s, [s.clients[i].fd]);
  }

  /** Input makes select() return although it was interrupted. */
  lemma InputOvertakes(parse: Parser, s: State) returns (t: State)
    requires Good(parse, s) && s.control.Blocked? && s.control.waitset != {}
    ensures LeadsTo(parse, s, t) && RoundDone(s, t)
  {
    var fd :| fd in s.control.waitset;
    InWaitset(s.clients, fd);
    var i :| 0 <= i < |s.clients| && !s.clients[i].process.Reaped? && s.clients[i].fd == fd;
    var s1 := MakeReadable(parse, s, i);
    assert s1.clients[i].fd == fd;
    var s2 := SelectSome(parse, s1, i);
    Onward(parse, s, s1, s2);
    LeadsGood(parse, s, s2);
    t := ServeAll(parse, s2);
    Onward(parse, s, s2, t);
  }

  /** The controller is about to handle a SIGUSR1: no alarm is pending, and no input
      can come first. */
  predicate Settled(s: State) {
    && !s.armed && s.rcvdSig == Usr1
    && (s.control.Interrupted? || (s.control.Blocked? && s.control.interrupted && s.control.waitset == {}))
  }

  /** The alarm was lost between alarm() and select(), and no input can wake the
      controller. */
  predicate Stuck(s: State) {
    && !s.armed
    && match s.control
       case Select(waitset) => waitset == {}
       case Blocked(waitset, interrupted) => waitset == {} && !interrupted
       case _ => false
  }

  /** No timeout can happen any more. */
  predicate Safe(s: State) {
    || s.config.timeout <= 0 || s.control.Stopped? || (s.control.Cleanup? && s.control.result.Error?)
    || Settled(s) || Stuck(s)
  }

  lemma SafeStep(parse: Parser, s: State, a: Action)
    requires Good(parse, s) && Safe(s)
    ensures Safe(Step(parse, s, a)) && !TimesOut(s)
  {
    assert a.SelectReady? && a.fds != [] ==> a.fds[0] in a.fds;
  }

  lemma {:induction false} SafeRun(parse: Parser, s: State, actions: seq<Action>)
    requires Good(parse, s) && Safe(s)
    ensures Safe(Run(parse, s, actions)) && !TimesOut(Run(parse, s, actions))
    decreases |actions|
  {
    if actions == [] {
      SafeStep(parse, s, FireAlarm);
    } else {
      SafeStep(parse, s, actions[0]);
      GoodStep(parse, s, actions[0]);
      SafeRun(parse, Step(parse, s, actions[0]), actions[1..]);
    }
  }

  lemma TimeOutAfterRound(parse: Parser, s: State) returns (t: State)
    requires Good(parse, s) && s.config.timeout > 0
    requires s.control.Build? || (s.control.Cleanup? && s.control.result.Ok?)
    ensures LeadsTo(parse, s, t) && TimesOut(t)
  {
    if s.control.Build? {
      t := BuildAndFire(parse, s);
    } else {
      t := EnterAndFire(parse, s);
    }
  }

  lemma TimeOutBlocked(parse: Parser, s: State) returns (t: State)
    requires Good(parse, s) && s.control.Blocked? && !Safe(s)
    ensures LeadsTo(parse, s, t) && TimesOut(t)
  {
    if s.armed {
      t := FireAndWake(parse, s);
    } else if s.control.interrupted && s.rcvdSig != Usr1 {
      Stays(parse, s);
      Then(parse, s, s, SelectInterrupted);
      t := Step(parse, s, SelectInterrupted);
    } else {
      var s1 := InputOvertakes(parse, s);
      LeadsGood(parse, s, s1);
      t := TimeOutAfterRound(parse, s1);
      Onward(parse, s, s1, t);
    }
  }

  lemma TimeOutSelect(parse: Parser, s: State) returns (t: State)
    requires Good(parse, s) && s.control.Select? && !Safe(s)
    ensures LeadsTo(parse, s, t) && TimesOut(t)
  {
    Stays(parse, s);
    Then(parse, s, s, Block);
    var s1 := Step(parse, s, Block);
    GoodStep(parse, s, Block);
    t := TimeOutBlocked(parse, s1);
    Onward(parse, s, s1, t);
  }

  lemma TimeOutInterrupted(parse: Parser, s: State) returns (t: State)
    requires s.control.Interrupted? && !Settled(s)
    ensures LeadsTo(parse, s, t) && TimesOut(t)
  {
    Stays(parse, s);
    t := s;
    if s.rcvdSig == Usr1 {
      Then(parse, s, s, FireAlarm);
      t := Step(parse, s, FireAlarm);
    }
  }

  /** Everywhere else a timeout can still happen. */
  lemma UnsafeTimesOut(parse: Parser, s: State) returns (t: State)
    requires Good(parse, s) && !Safe(s)
    ensures LeadsTo(parse, s, t) && TimesOut(t)
  {
    match s.control
    case Outside => t := EnterAndFire(parse, s);
    case Cleanup(_, _) => t := EnterAndFire(parse, s);
    case Build => t := BuildAndFire(parse, s);
    case Arm(_) => t := BuildAndFire(parse, s);
    case Select(_) => t := TimeOutSelect(parse, s);
    case Blocked(_, _) => t := TimeOutBlocked(parse, s);
    case Interrupted => t := TimeOutInterrupted(parse, s);
    case _ =>
      var s1 := FinishRound(parse, s);
      LeadsGood(parse, s, s1);
      t := TimeOutAfterRound(parse, s1);
      Onward(parse, s, s1, t);
  }

  /** An alarm that fires between alarm() and select() is lost: then only input or a signal
      ends the wait, although there is a timeout. */
  lemma AlarmIsLost(parse: Parser, s: State, a: Action)
    requires Good(parse, s) && s.control.Select? && s.armed
    requires forall c :: c in s.clients ==> !Readable(c)
    ensures var t := Step(parse, Step(parse, s, FireAlarm), Block);
            && t.control.Blocked? && t.clients == s.clients && t.endtime == s.endtime
            && (Enabled(t, a) ==> a.Write? || a.ExitClient? || a.SendUsr1? || a.SelectFails?)
  {
    if a.SelectReady? && a.fds != [] {
      assert a.fds[0] in a.fds;
    }
  }

  /** A SIGUSR1 that arrives here stops the clock for good: no timeout is left, or the
      alarm has fired already, and either the main loop is about to look at the signal
      without any input that could come first, or nothing wakes it any more. */
  predicate StopsClock(s: State) {
    || s.config.timeout <= 0 || s.control.Stopped? || (s.control.Cleanup? && s.control.result.Error?)
    || (!s.armed && match s.control
                    case Interrupted => true
                    case Select(waitset) => waitset == {}
                    case Blocked(waitset, _) => waitset == {}
                    case _ => false)
  }

  /** The exact condition under which a SIGUSR1 stops the clock, for every state in
      which it can arrive. */
  lemma Usr1StopsClock(parse: Parser, init: State, before: seq<Action>)
    requires Initial(init)
    ensures (forall after :: !TimesOut(Run(parse, init, before + [SendUsr1] + after)))
       <==> StopsClock(Run(parse, init, before))
  {
    var s := Run(parse, init, before);
    var t := Run(parse, init, before + [SendUsr1]);
    GoodRun(parse, init, before);
    RunConcat(parse, init, before, [SendUsr1]);
    assert t == Step(parse, s, SendUsr1) by {
      assert [SendUsr1][1..] == [];
    }
    GoodStep(parse, s, SendUsr1);
    if StopsClock(s) {
      forall after ensures !TimesOut(Run(parse, init, before + [SendUsr1] + after)) {
        RunConcat(parse, init, before + [SendUsr1], after);
        SafeRun(parse, t, after);
      }
    } else {
      var u := UnsafeTimesOut(parse, t);
      var after :| Calm(after) && Run(parse, t, after) == u;
      RunConcat(parse, init, before + [SendUsr1], after);
    }
  }
}
