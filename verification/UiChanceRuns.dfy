/**
 Who can give the answer gives it in some run, and nobody else does: the exact
 conditions for an answer, and for waiting forever (core/ui_control.c).
 */
module UiChanceRuns {
  import opened UiControl
  import opened UiRuns
  import opened UiChances
  import opened UiChancePlan
  import opened UiChanceSteps

  // ---------- the run that gives the answer ----------

  lemma PassesVerdict(parse: Parser, c: Client, scanner: Flex, k: nat, fds: seq<nat>)
    requires Consistent(c)
    ensures match Passes(parse, c, scanner)
            case Some(flex) => Verdict(parse, scanner, c, k, fds) == (Service(fds), flex)
            case None =>
              && c.process == Reaped(true)
              && Verdict(parse, scanner, c, k, fds).0
                 == Cleanup(Ok(parse(scanner, c.collected).0.value), FromClient(k, scanner))
  {
  }

  /** A client writes on, and ends if it is to. */
  lemma GoOn(parse: Parser, s: State, k: nat, more: string, p: Process) returns (t: State, c: Client)
    requires Good(parse, s) && k < |s.clients| && MayGo(s.clients[k], more, p)
    ensures LeadsTo(parse, s, t) && Good(parse, t)
    ensures t == s.(clients := s.clients[k := c]) && MarkReaped(c) == Goes(s.clients[k], more, p)
    ensures c == s.clients[k].(written := s.clients[k].written + more, process := c.process)
  {
    c := s.clients[k];
    assert c in s.clients && Consistent(c);
    Stays(parse, s);
    t := s;
    assert c.written + "" == c.written;
    assert s.clients[k := c] == s.clients;
    if c.process.Alive? {
      Then(parse, s, s, Write(k, more));
      t := Step(parse, s, Write(k, more));
      if p.Reaped? {
        Then(parse, s, t, ExitClient(k, p.clean));
        t := Step(parse, t, ExitClient(k, p.clean));
      }
      c := t.clients[k];
    }
    LeadsGood(parse, s, t);
  }

  lemma SameReap(cs: seq<Client>, k: nat, c: Client, d: Client)
    requires k < |cs| && MarkReaped(c) == d && !d.process.Zombie?
    ensures Reap(cs[k := c]) == Reap(cs[k := d])
  {
  }

  function ActUpTo(cs: seq<Client>, ds: seq<Client>, m: nat): seq<Client>
    requires |cs| == |ds|
  {
    seq(|cs|, k requires 0 <= k < |cs| => if k < m then ds[k] else cs[k])
  }

  lemma ActOne(parse: Parser, s: State, k: nat, d: Client) returns (t: State)
    requires k < |s.clients| && Acts(s.clients[k], d)
    ensures LeadsTo(parse, s, t) && t == s.(clients := s.clients[k := d])
  {
    var c := s.clients[k];
    Stays(parse, s);
    t := s;
    assert s.clients[k := c] == s.clients;
    if c.process.Alive? {
      var more := d.written[|c.written|..];
      assert c.written + more == d.written;
      Then(parse, s, s, Write(k, more));
      t := Step(parse, s, Write(k, more));
      if d.process.Zombie? {
        Then(parse, s, t, ExitClient(k, d.process.clean));
        t := Step(parse, t, ExitClient(k, d.process.clean));
      }
    }
  }

  lemma {:induction false} ActAll(parse: Parser, s: State, cs: seq<Client>, ds: seq<Client>, m: nat) returns (t: State)
    requires AllAct(cs, ds) && m <= |cs| && s.clients == ActUpTo(cs, ds, m)
    ensures LeadsTo(parse, s, t) && t == s.(clients := ds)
    decreases |cs| - m
  {
    if m == |cs| {
      Stays(parse, s);
      t := s;
      assert s.clients == ds;
    } else {
      assert Acts(cs[m], ds[m]);
      var s1 := ActOne(parse, s, m, ds[m]);
      assert s1.clients == ActUpTo(cs, ds, m + 1);
      t := ActAll(parse, s1, cs, ds, m + 1);
      Onward(parse, s, s1, t);
    }
  }

  lemma ReapedNone(cs: seq<Client>)
    requires Unique(cs) && AllConsistent(cs)
    ensures NoneEnded(Reap(cs))
  {
    UniqueKept(cs, Reap(cs));
    forall c | c in Reap(cs) ensures c.taken <= |c.written| && !c.process.Zombie? {
      var k :| 0 <= k < |cs| && Reap(cs)[k] == c;
      assert cs[k] in cs && Consistent(cs[k]);
    }
  }

  /** If select() has nothing to report, then no client has ended. */
  lemma NobodyReported(cs: seq<Client>, ds: seq<Client>)
    requires AllConsistent(cs) && Unique(cs) && AllAct(cs, ds) && Reports(ds, Waitset(ds), [])
    ensures NoneEnded(ds)
  {
    ActsAllEarlier(cs, ds);
    UniqueKept(cs, ds);
    forall c | c in ds ensures c.taken <= |c.written| && !c.process.Zombie? {
      var k :| 0 <= k < |ds| && ds[k] == c;
      assert cs[k] in cs && Consistent(cs[k]) && Acts(cs[k], ds[k]);
      Reported(ds, [], k);
    }
  }

  /** The clients end in the order of a schedule. */
  lemma {:induction false} RunOneByOne(parse: Parser, s: State, chances: seq<Chance>, i: nat) returns (t: State)
    requires Good(parse, s) && s.control.Blocked? && NoneEnded(s.clients)
    requires OneByOne(parse, s.clients, s.scanner, chances, i)
    ensures LeadsTo(parse, s, t) && AnsweredBy(t, i) && t.calls == s.calls
    decreases Total(chances), 0
  {
    var ds := Plan(s.clients, chances);
    var fds := AllReports(ds, Waitset(ds));
    PlanGoes(parse, s.clients, s.scanner, chances, fds, i);
    if fds == [] {
      NobodyReported(s.clients, ds);
    }
    t := RunPlanned(parse, s, ds, fds, Strip(chances), i);
  }

  /** The clients act, and what select() reports is served. */
  lemma {:induction false} RunPlanned(parse: Parser, s: State, ds: seq<Client>, fds: seq<nat>, chances: seq<Chance>,
                                      i: nat) returns (t: State)
    requires Good(parse, s) && s.control.Blocked? && AllAct(s.clients, ds) && Reports(ds, Waitset(ds), fds)
    requires Round(parse, ds, s.scanner, fds, chances, i) && (fds == [] ==> NoneEnded(ds))
    ensures LeadsTo(parse, s, t) && AnsweredBy(t, i) && t.calls == s.calls
    decreases Total(chances), 2
  {
    assert s.clients == ActUpTo(s.clients, ds, 0);
    var s1 := ActAll(parse, s, s.clients, ds, 0);
    LeadsGood(parse, s, s1);
    if fds == [] {
      t := RunOneByOne(parse, s1, chances, i);
    } else {
      var s2 := SelectAll(parse, s1, fds);
      LeadsGood(parse, s1, s2);
      t := RunRound(parse, s2, chances, i);
      Onward(parse, s1, s2, t);
    }
    Onward(parse, s, s1, t);
  }

  /** The next pipe is read. */
  lemma ReadTurn(parse: Parser, s: State, k: nat, turn: Turn) returns (t: State, c: Client)
    requires Good(parse, s) && s.control.Service? && s.control.fds != [] && k < |s.clients|
    requires SearchFd(s.clients, s.control.fds[0]) == k && MayServe(s.clients[k], turn)
    ensures LeadsTo(parse, s, t) && Good(parse, t)
    ensures t == s.(clients := s.clients[k := c], control := Wait(k, s.control.fds[1..]))
    ensures MayGo(c, turn.later, turn.process) && Goes(c, turn.later, turn.process) == After(s.clients[k], turn)
  {
    Stays(parse, s);
    var s1 := s;
    assert s.clients[k].written + "" == s.clients[k].written;
    if s.clients[k].process.Alive? {
      Then(parse, s, s, Write(k, turn.more));
      s1 := Step(parse, s, Write(k, turn.more));
    }
    assert s1 == s.(clients := s.clients[k := Grown(s.clients[k], turn.more)]);
    SameSearch(s.clients, s1.clients, s.control.fds[0]);
    Then(parse, s, s1, Read);
    t := Step(parse, s1, Read);
    c := OneRound(s.clients[k], turn.more);
    LeadsGood(parse, s, t);
  }

  lemma ReadNext(parse: Parser, s: State, chances: seq<Chance>, i: nat) returns (t: State, turn: Turn)
    requires Good(parse, s) && s.control.Service? && s.control.fds != []
    requires Round(parse, s.clients, s.scanner, s.control.fds, chances, i)
    ensures LeadsTo(parse, s, t) && Good(parse, t) && t == s.(clients := t.clients, control := t.control)
    ensures t.control.Wait? && t.control.fds == s.control.fds[1..]
    ensures var k := t.control.cnr;
            && MayGo(t.clients[k], turn.later, turn.process)
            && Looks(parse, Reap(t.clients[k := Goes(t.clients[k], turn.later, turn.process)]), t.scanner, k,
                     t.control.fds, chances, i)
  {
    var fds, cs := s.control.fds, s.clients;
    var k := SearchFd(cs, fds[0]);
    turn :| MayServe(cs[k], turn)
            && Looks(parse, Reap(cs[k := After(cs[k], turn)]), s.scanner, k, fds[1..], chances, i);
    var c;
    t, c := ReadTurn(parse, s, k, turn);
    assert cs[k := c][k := Goes(c, turn.later, turn.process)] == cs[k := After(cs[k], turn)];
  }

  lemma {:induction false} RunRound(parse: Parser, s: State, chances: seq<Chance>, i: nat) returns (t: State)
    requires Good(parse, s) && s.control.Service?
    requires Round(parse, s.clients, s.scanner, s.control.fds, chances, i)
    requires s.control.fds == [] ==> NoneEnded(s.clients)
    ensures LeadsTo(parse, s, t) && AnsweredBy(t, i) && t.calls == s.calls
    decreases Total(chances), 1, |s.control.fds|, 0
  {
    if s.control.fds == [] {
      var s1 := BackToSelect(parse, s);
      t := RunOneByOne(parse, s1, chances, i);
      Onward(parse, s, s1, t);
    } else {
      var s1, turn := ReadNext(parse, s, chances, i);
      t := RunWait(parse, s1, turn.later, turn.process, chances, i);
      Onward(parse, s, s1, t);
    }
  }

  /** The client that was read writes on, and ends if it is to. */
  lemma {:induction false} RunWait(parse: Parser, s: State, more: string, p: Process, chances: seq<Chance>, i: nat)
    returns (t: State)
    requires Good(parse, s) && s.control.Wait? && MayGo(s.clients[s.control.cnr], more, p)
    requires var k := s.control.cnr;
             Looks(parse, Reap(s.clients[k := Goes(s.clients[k], more, p)]), s.scanner, k, s.control.fds, chances, i)
    ensures LeadsTo(parse, s, t) && AnsweredBy(t, i) && t.calls == s.calls
    decreases Total(chances), 1, |s.control.fds|, 2
  {
    var k, fds, cs := s.control.cnr, s.control.fds, s.clients;
    var s1, c := GoOn(parse, s, k, more, p);
    SameReap(cs, k, c, Goes(cs[k], more, p));
    var s2 := Judged(parse, s1);
    Onward(parse, s, s1, s2);
    LeadsGood(parse, s, s2);
    ReapedNone(s1.clients);
    t := RunLooked(parse, s2, s.scanner, k, fds, chances, i);
    Onward(parse, s, s2, t);
  }

  /** After a client was looked at. */
  lemma {:induction false} RunLooked(parse: Parser, s: State, scanner: Flex, k: nat, fds: seq<nat>,
                                     chances: seq<Chance>, i: nat) returns (t: State)
    requires Good(parse, s) && NoneEnded(s.clients) && Looks(parse, s.clients, scanner, k, fds, chances, i)
    requires (s.control, s.scanner) == Verdict(parse, scanner, s.clients[k], k, fds)
    ensures LeadsTo(parse, s, t) && AnsweredBy(t, i) && t.calls == s.calls
    decreases Total(chances), 1, |fds|, 1
  {
    assert Consistent(s.clients[k]) by {
      assert s.clients[k] in s.clients;
    }
    PassesVerdict(parse, s.clients[k], scanner, k, fds);
    if Passes(parse, s.clients[k], scanner).None? {
      Stays(parse, s);
      t := s;
    } else {
      t := RunRound(parse, s, chances, i);
    }
  }

  lemma RunNext(parse: Parser, s: State, chances: seq<Chance>, i: nat) returns (t: State)
    requires Good(parse, s) && s.control.Blocked? && NextRound(parse, s.clients, s.scanner, chances, i)
    ensures LeadsTo(parse, s, t) && AnsweredBy(t, i) && t.calls == s.calls
  {
    var cs := s.clients;
    var ds, fds :| AllAct(cs, ds) && Reports(ds, Waitset(ds), fds) && Round(parse, ds, s.scanner, fds, chances, i);
    if fds == [] {
      NobodyReported(cs, ds);
    }
    t := RunPlanned(parse, s, ds, fds, chances, i);
  }

  lemma RunBegins(parse: Parser, s: State, chances: seq<Chance>, i: nat) returns (t: State)
    requires Good(parse, s) && s.control.Service?
    requires Begins(parse, s.clients, s.scanner, s.control.fds, chances, i)
    ensures LeadsTo(parse, s, t) && AnsweredBy(t, i) && t.calls == s.calls
  {
    if s.control.fds == [] {
      var s1 := BackToSelect(parse, s);
      t := RunNext(parse, s1, chances, i);
      Onward(parse, s, s1, t);
    } else {
      t := RunRound(parse, s, chances, i);
    }
  }

  lemma RunFromWait(parse: Parser, s: State, chances: seq<Chance>, i: nat) returns (t: State)
    requires Good(parse, s) && s.control.Wait? && AnswersWith(parse, s, chances, i)
    ensures LeadsTo(parse, s, t) && AnsweredBy(t, i) && t.calls == s.calls
  {
    var k, fds, cs := s.control.cnr, s.control.fds, s.clients;
    var more, p :| MayGo(cs[k], more, p)
                   && Looks(parse, Reap(cs[k := Goes(cs[k], more, p)]), s.scanner, k, fds, chances, i);
    t := RunWait(parse, s, more, p, chances, i);
  }

  /** check_input_from_client() ends. */
  lemma Decided(parse: Parser, s: State) returns (t: State)
    requires Good(parse, s) && s.control.Decide?
    ensures LeadsTo(parse, s, t) && Good(parse, t) && Consistent(s.clients[s.control.cnr])
    ensures var v := Verdict(parse, s.scanner, s.clients[s.control.cnr], s.control.cnr, s.control.fds);
            t == s.(control := v.0, scanner := v.1)
  {
    assert s.clients[s.control.cnr] in s.clients;
    Stays(parse, s);
    Then(parse, s, s, CheckClient);
    t := Step(parse, s, CheckClient);
    GoodStep(parse, s, CheckClient);
  }

  lemma RunDecide(parse: Parser, s: State, chances: seq<Chance>, i: nat) returns (t: State)
    requires Good(parse, s) && s.control.Decide? && AnswersWith(parse, s, chances, i)
    ensures LeadsTo(parse, s, t) && AnsweredBy(t, i) && t.calls == s.calls
  {
    var k := s.control.cnr;
    t := Decided(parse, s);
    PassesVerdict(parse, s.clients[k], s.scanner, k, s.control.fds);
    if Passes(parse, s.clients[k], s.scanner).Some? {
      var s1 := t;
      t := RunBegins(parse, s1, chances, i);
      Onward(parse, s, s1, t);
    }
  }

  lemma RunInterrupted(parse: Parser, s: State, chances: seq<Chance>, i: nat) returns (t: State)
    requires Good(parse, s) && s.control.Interrupted? && AnswersWith(parse, s, chances, i)
    ensures LeadsTo(parse, s, t) && AnsweredBy(t, i) && t.calls == s.calls
  {
    Stays(parse, s);
    Then(parse, s, s, SendUsr1);
    var s1 := Step(parse, s, SendUsr1);
    Then(parse, s, s1, HandleInterrupt);
    var s2 := Step(parse, s1, HandleInterrupt);
    var s3 := ToSelect(parse, s2);
    Onward(parse, s, s2, s3);
    LeadsGood(parse, s, s3);
    t := RunNext(parse, s3, chances, i);
    Onward(parse, s, s3, t);
  }

  lemma RunSelect(parse: Parser, s: State, chances: seq<Chance>, i: nat) returns (t: State)
    requires Good(parse, s) && (s.control.Build? || s.control.Arm? || s.control.Select? || s.control.Blocked?)
    requires AnswersWith(parse, s, chances, i)
    ensures LeadsTo(parse, s, t) && AnsweredBy(t, i) && t.calls == s.calls
  {
    Stays(parse, s);
    var s1 := s;
    if s.control.Build? || s.control.Arm? {
      s1 := ToSelect(parse, s);
    } else if s.control.Select? {
      Then(parse, s, s, Block);
      s1 := Step(parse, s, Block);
    }
    LeadsGood(parse, s, s1);
    t := RunNext(parse, s1, chances, i);
    Onward(parse, s, s1, t);
  }

  /** Whoever can give the answer gives it in some run. */
  lemma RunAnswer(parse: Parser, s: State, i: nat) returns (t: State)
    requires Good(parse, s) && CanAnswer(parse, s, i)
    ensures LeadsTo(parse, s, t) && AnsweredBy(t, i) && t.calls == s.calls
  {
    var chances :| AnswersWith(parse, s, chances, i);
    match s.control
    case Service(_) => t := RunBegins(parse, s, chances, i);
    case Wait(_, _) => t := RunFromWait(parse, s, chances, i);
    case Decide(_, _) => t := RunDecide(parse, s, chances, i);
    case Interrupted => t := RunInterrupted(parse, s, chances, i);
    case Cleanup(_, _) =>
      Stays(parse, s);
      t := s;
    case _ => t := RunSelect(parse, s, chances, i);
  }

  // ---------- the exact conditions ----------

  lemma {:induction false} CallsGrow(parse: Parser, s: State, actions: seq<Action>)
    ensures Run(parse, s, actions).calls >= s.calls
    decreases |actions|
  {
    if actions != [] {
      CallsGrow(parse, Step(parse, s, actions[0]), actions[1..]);
    }
  }

  /** No other call begins before the next action. */
  lemma SameCall(parse: Parser, s: State, actions: seq<Action>)
    requires actions != [] && Run(parse, s, actions).calls == s.calls
    ensures !(actions[0].Enter? && Enabled(s, actions[0])) && Step(parse, s, actions[0]).calls == s.calls
  {
    CallsGrow(parse, Step(parse, s, actions[0]), actions[1..]);
  }

  lemma {:induction false} RunBack(parse: Parser, s: State, actions: seq<Action>, i: nat)
    requires Good(parse, s) && Calm(actions)
    requires AnsweredBy(Run(parse, s, actions), i) && Run(parse, s, actions).calls == s.calls
    ensures CanAnswer(parse, s, i)
    decreases |actions|
  {
    if actions != [] {
      var a, t := actions[0], Step(parse, s, actions[0]);
      assert a in actions && forall b :: b in actions[1..] ==> b in actions;
      SameCall(parse, s, actions);
      GoodStep(parse, s, a);
      RunBack(parse, t, actions[1..], i);
      if !a.Enter? {
        ChanceBack(parse, s, a, i);
      }
    } else {
      IsAnswered(parse, s, i);
    }
  }

  lemma IsAnswered(parse: Parser, s: State, i: nat)
    requires AnsweredBy(s, i)
    ensures CanAnswer(parse, s, i)
  {
    assert AnswersWith(parse, s, [], i);
  }

  /** For every way to read a text, every state of the main loop that the program can be
      in, and every client: some run without failing system calls ends this call with
      the answer of that client exactly if it can give the answer. */
  lemma AnswersExactly(parse: Parser, init: State, before: seq<Action>, i: nat)
    requires Initial(init) && InLoop(Run(parse, init, before).control)
    ensures var s := Run(parse, init, before);
            (exists after ::
               Calm(after) && AnsweredBy(Run(parse, s, after), i) && Run(parse, s, after).calls == s.calls)
            <==> CanAnswer(parse, s, i)
  {
    var s := Run(parse, init, before);
    GoodRun(parse, init, before);
    if CanAnswer(parse, s, i) {
      var t := RunAnswer(parse, s, i);
      var after :| Calm(after) && Run(parse, s, after) == t;
    }
    if after :| Calm(after) && AnsweredBy(Run(parse, s, after), i) && Run(parse, s, after).calls == s.calls {
      RunBack(parse, s, after, i);
    }
  }

  /** No client can give the answer, and no timeout can happen. */
  ghost predicate Hopeless(parse: Parser, s: State) {
    InLoop(s.control) && Safe(s) && forall i: nat :: !CanAnswer(parse, s, i)
  }

  lemma NoAnswerYet(parse: Parser, s: State, a: Action)
    requires Good(parse, s) && NoFailure(a) && Hopeless(parse, s)
    ensures forall i: nat :: !CanAnswer(parse, Step(parse, s, a), i)
  {
    forall i: nat ensures !CanAnswer(parse, Step(parse, s, a), i) {
      if !a.Enter? && CanAnswer(parse, Step(parse, s, a), i) {
        ChanceBack(parse, s, a, i);
      }
    }
  }

  lemma HopelessStep(parse: Parser, s: State, a: Action)
    requires Good(parse, s) && NoFailure(a) && Hopeless(parse, s)
    ensures Hopeless(parse, Step(parse, s, a))
  {
    var t := Step(parse, s, a);
    SafeStep(parse, s, a);
    NoAnswerYet(parse, s, a);
    if t.control.Cleanup? && t.control.origin.FromClient? && t.control.result.Ok? {
      IsAnswered(parse, t, t.control.origin.cnr);
    }
  }

  lemma {:induction false} HopelessRun(parse: Parser, s: State, actions: seq<Action>)
    requires Good(parse, s) && Calm(actions) && Hopeless(parse, s)
    ensures Hopeless(parse, Run(parse, s, actions))
    decreases |actions|
  {
    if actions != [] {
      assert actions[0] in actions && forall b :: b in actions[1..] ==> b in actions;
      HopelessStep(parse, s, actions[0]);
      GoodStep(parse, s, actions[0]);
      HopelessRun(parse, Step(parse, s, actions[0]), actions[1..]);
    }
  }

  lemma TimeOutEnds(parse: Parser, s: State) returns (t: State)
    requires Good(parse, s) && !Safe(s)
    ensures LeadsTo(parse, s, t) && t.control.Cleanup?
  {
    var s1 := UnsafeTimesOut(parse, s);
    Then(parse, s, s1, HandleInterrupt);
    t := Step(parse, s1, HandleInterrupt);
  }

  /** sysload waits forever from here, unless a system call fails, exactly if no timeout
      can happen and no client can give the answer. */
  lemma WaitsForeverExactly(parse: Parser, init: State, before: seq<Action>)
    requires Initial(init) && InLoop(Run(parse, init, before).control)
    ensures var s := Run(parse, init, before);
            (forall after :: Calm(after) ==> !Run(parse, s, after).control.Cleanup?)
            <==> Safe(s) && forall i: nat :: !CanAnswer(parse, s, i)
  {
    var s := Run(parse, init, before);
    GoodRun(parse, init, before);
    if Hopeless(parse, s) {
      forall after | Calm(after) ensures !Run(parse, s, after).control.Cleanup? {
        HopelessRun(parse, s, after);
      }
    } else {
      var t;
      if !Safe(s) {
        t := TimeOutEnds(parse, s);
      } else {
        var i: nat :| CanAnswer(parse, s, i);
        t := RunAnswer(parse, s, i);
      }
      var after :| Calm(after) && Run(parse, s, after) == t;
    }
  }
}
