/**
 How sysload comes to wait forever: no client is left that could be looked at
 (core/ui_control.c).
 */
module UiAnswers {
  import opened UiControl
  import opened UiRuns

  // ---------- waiting forever ----------

  /** Before the controller blocks in select() again it reaps all clients that have
      ended by then. */
  predicate ReapsFirst(control: Control) {
    match control
    case Service(fds) => fds != []
    case Wait(_, _) => true
    case Decide(_, fds) => fds != []
    case _ => false
  }

  /** The controller is going to look at the text of a client in this round. */
  predicate InRound(s: State, i: nat)
    requires i < |s.clients|
  {
    match s.control
    case Service(fds) => s.clients[i].fd in fds
    case Wait(cnr, fds) => cnr == i || s.clients[i].fd in fds
    case Decide(cnr, fds) => (cnr == i && !s.clients[i].process.Zombie?) || s.clients[i].fd in fds
    case _ => false
  }

  /** A client can still give an answer. One that has ended with success cannot if it
      is reaped while another one is served: its pipe is not looked at any more. */
  predicate Willing(s: State, i: nat)
    requires i < |s.clients|
  {
    match s.clients[i].process
    case Alive => true
    case Zombie(clean) => clean && (ReapsFirst(s.control) ==> InRound(s, i))
    case Reaped(clean) => clean && InRound(s, i)
  }

  /** No client can give an answer, and no timeout can happen. */
  predicate Deserted(s: State) {
    InLoop(s.control) && Safe(s) && forall i :: 0 <= i < |s.clients| ==> !Willing(s, i)
  }

  lemma MarkUnwilling(s: State, pid: int, i: nat)
    requires s.control.Wait? && i < |s.clients| && !Willing(s, i)
    ensures !Willing(s.(clients := MarkPid(s.clients, pid)), i)
  {
  }

  lemma ReadUnwilling(s: State, c: Client, i: nat)
    requires s.control.Service? && s.control.fds != [] && i < |s.clients| && !Willing(s, i)
    requires var k := SearchFd(s.clients, s.control.fds[0]);
             k < |s.clients| && c.process == s.clients[k].process && c.fd == s.clients[k].fd
    ensures var k := SearchFd(s.clients, s.control.fds[0]);
            !Willing(s.(clients := s.clients[k := c], control := Wait(k, s.control.fds[1..])), i)
  {
    assert forall fd :: fd in s.control.fds[1..] ==> fd in s.control.fds;
  }

  lemma SelectUnwilling(s: State, fds: seq<nat>, i: nat)
    requires s.control.Blocked? && Unique(s.clients) && Placed(s.clients, s.control)
    requires i < |s.clients| && !Willing(s, i) && forall fd :: fd in fds ==> fd in s.control.waitset
    ensures !Willing(s.(control := Service(fds)), i)
  {
    if s.clients[i].fd in fds {
      InWaitset(s.clients, s.clients[i].fd);
      var j :| 0 <= j < |s.clients| && !s.clients[j].process.Reaped? && s.clients[j].fd == s.clients[i].fd;
      assert j == i;
    }
  }

  lemma CheckUnwilling(parse: Parser, s: State)
    requires s.control.Decide? && AllConsistent(s.clients) && s.control.cnr < |s.clients|
    requires forall i :: 0 <= i < |s.clients| ==> !Willing(s, i)
    ensures Check(parse, s) == s.(control := Service(s.control.fds))
    ensures forall i :: 0 <= i < |s.clients| ==> !Willing(s.(control := Service(s.control.fds)), i)
  {
    var c := s.clients[s.control.cnr];
    assert c in s.clients && Consistent(c) && !Willing(s, s.control.cnr);
    forall i | 0 <= i < |s.clients| ensures !Willing(s.(control := Service(s.control.fds)), i) {
      assert !Willing(s, i);
    }
  }

  lemma DesertedStep(parse: Parser, s: State, a: Action)
    requires Good(parse, s) && Deserted(s) && !a.SelectFails?
    ensures Deserted(Step(parse, s, a))
  {
    if Enabled(s, a) {
      var t := Step(parse, s, a);
      SafeStep(parse, s, a);
      if a.CheckClient? {
        CheckUnwilling(parse, s);
      } else {
        forall i | 0 <= i < |t.clients| ensures !Willing(t, i) {
          UnwillingStep(parse, s, a, i);
        }
      }
    }
  }

  lemma UnwillingStep(parse: Parser, s: State, a: Action, i: nat)
    requires Good(parse, s) && Deserted(s) && !a.SelectFails? && !a.CheckClient? && Enabled(s, a) && i < |s.clients|
    ensures |Step(parse, s, a).clients| == |s.clients| && InLoop(Step(parse, s, a).control)
            && !Willing(Step(parse, s, a), i)
  {
    assert !Willing(s, i) && (a.Write? || a.ExitClient? ==> !Willing(s, a.cnr));
    match a
    case SelectReady(fds) => SelectUnwilling(s, fds, i);
    case Read =>
      var k := SearchFd(s.clients, s.control.fds[0]);
      ReadUnwilling(s, Collect(s.clients[k], Piece(s.clients[k])), i);
    case ReadFails =>
      var k := SearchFd(s.clients, s.control.fds[0]);
      assert s.clients[k := s.clients[k]] == s.clients;
      ReadUnwilling(s, s.clients[k], i);
    case WaitPid(pid) => MarkUnwilling(s, pid, i);
    case HandleInterrupt => SafeStep(parse, s, a);
    case _ =>
  }

  /** Then nothing but a failing select() ends the wait, whatever happens and whatever
      counts as an entry. */
  lemma {:induction false} DesertedForever(parse: Parser, s: State, actions: seq<Action>)
    requires Good(parse, s) && Deserted(s) && forall a :: a in actions ==> !a.SelectFails?
    ensures Deserted(Run(parse, s, actions)) && !Run(parse, s, actions).control.Cleanup?
    decreases |actions|
  {
    if actions != [] {
      assert actions[0] in actions && forall a :: a in actions[1..] ==> a in actions;
      DesertedStep(parse, s, actions[0]);
      GoodStep(parse, s, actions[0]);
      DesertedForever(parse, Step(parse, s, actions[0]), actions[1..]);
    }
  }

  /** A client that has ended with a problem. */
  predicate Failed(c: Client) { c.process == Zombie(false) || c.process == Reaped(false) }

  /** Once all user interfaces have ended with a problem, and no timeout can happen, sysload
      waits forever. */
  lemma ProblemsDesert(parse: Parser, init: State, before: seq<Action>, after: seq<Action>)
    requires Initial(init) && forall a :: a in after ==> !a.SelectFails?
    requires var s := Run(parse, init, before); InLoop(s.control) && Safe(s) && forall c :: c in s.clients ==> Failed(c)
    ensures Deserted(Run(parse, init, before)) && !Run(parse, init, before + after).control.Cleanup?
  {
    var s := Run(parse, init, before);
    GoodRun(parse, init, before);
    forall i | 0 <= i < |s.clients| ensures !Willing(s, i) {
      assert s.clients[i] in s.clients;
    }
    RunConcat(parse, init, before, after);
    DesertedForever(parse, s, after);
  }

  // ---------- an answer that is overlooked ----------

  /** userinterface() was called, and the controller blocks in select(). */
  predicate Started(init: State, s: State) {
    && s.control.Blocked? && s.config == init.config && s.scanner == init.scanner && |s.clients| == |init.config.uis|
    && forall i :: 0 <= i < |s.clients| ==> s.clients[i] == NewClient(i + 1, i)
  }

  lemma Start(parse: Parser, init: State) returns (s: State)
    requires Initial(init) && |init.config.uis| > 0
    ensures LeadsTo(parse, init, s) && Started(init, s) && Good(parse, s)
  {
    var n := |init.config.uis|;
    Stays(parse, init);
    Then(parse, init, init, Enter(Pids(n), Fds(n)));
    var s1 := Step(parse, init, Enter(Pids(n), Fds(n)));
    s := ToSelect(parse, s1);
    Onward(parse, init, s1, s);
    LeadsGood(parse, init, s);
  }

  /** Client `k` writes a text and ends with success, the others end with a problem. */
  function EndedClient(i: nat, k: nat, text: string): Client {
    if i == k then Client(i + 1, i, Zombie(true), text, 0, "", Running)
    else Client(i + 1, i, Zombie(false), "", 0, "", Running)
  }

  function EndedUpTo(n: nat, m: nat, k: nat, text: string): seq<Client> {
    seq(n, i requires 0 <= i < n => if i < m then EndedClient(i, k, text) else NewClient(i + 1, i))
  }

  lemma EndOne(parse: Parser, s: State, m: nat, k: nat, text: string) returns (t: State)
    requires m < |s.clients| && s.clients == EndedUpTo(|s.clients|, m, k, text)
    ensures LeadsTo(parse, s, t) && t == s.(clients := EndedUpTo(|s.clients|, m + 1, k, text))
  {
    Stays(parse, s);
    var s1 := s;
    if m == k {
      Then(parse, s, s, Write(m, text));
      s1 := Step(parse, s, Write(m, text));
      assert "" + text == text;
    }
    Then(parse, s, s1, ExitClient(m, m == k));
    t := Step(parse, s1, ExitClient(m, m == k));
    EndedNext(s.clients, t.clients, m, k, text);
  }

  lemma EndedNext(cs: seq<Client>, ds: seq<Client>, m: nat, k: nat, text: string)
    requires m < |cs| && cs == EndedUpTo(|cs|, m, k, text) && |ds| == |cs| && ds[m] == EndedClient(m, k, text)
    requires forall i :: 0 <= i < |cs| && i != m ==> ds[i] == cs[i]
    ensures ds == EndedUpTo(|cs|, m + 1, k, text)
  {
  }

  lemma {:induction false} EndOthers(parse: Parser, s: State, m: nat, k: nat, text: string) returns (t: State)
    requires m <= |s.clients| && s.clients == EndedUpTo(|s.clients|, m, k, text)
    ensures LeadsTo(parse, s, t) && t == s.(clients := EndedUpTo(|s.clients|, |s.clients|, k, text))
    decreases |s.clients| - m
  {
    if m == |s.clients| {
      Stays(parse, s);
      t := s;
    } else {
      var s1 := EndOne(parse, s, m, k, text);
      t := EndOthers(parse, s1, m + 1, k, text);
      Onward(parse, s, s1, t);
    }
  }

  lemma ReapEnded(n: nat, k: nat, text: string)
    requires n > 0 && k > 0
    ensures var cs := EndedUpTo(n, n, k, text);
            && Collect(cs[0], Piece(cs[0])) == cs[0] && Served(cs, 0) == Reap(cs)
            && Reap(cs)[0].status == ProblemExit
            && (forall i :: 0 <= i < n && i != k ==> Reap(cs)[i].process == Reaped(false))
            && (k < n ==> Reap(cs)[k] == Client(k + 1, k, Reaped(true), text, 0, "", CleanExit))
  {
    var cs := EndedUpTo(n, n, k, text);
    assert ""[0..0] == "" && "" + "" == "";
    assert cs[0 := cs[0]] == cs;
  }

  /** The first client ends, and select() returns. */
  lemma FirstEnds(parse: Parser, init: State, k: nat, text: string) returns (s: State)
    requires Initial(init) && 0 < k <= |init.config.uis|
    ensures LeadsTo(parse, init, s) && s.control == Service([0]) && s.config == init.config
    ensures |s.clients| == |init.config.uis| && s.clients == EndedUpTo(|s.clients|, 1, k, text)
  {
    var s1 := Start(parse, init);
    assert s1.clients == EndedUpTo(|s1.clients|, 0, k, text);
    var s2 := EndOne(parse, s1, 0, k, text);
    Onward(parse, init, s1, s2);
    InWaitset(s1.clients, 0);
    assert s1.clients[0].fd == 0;
    forall j | 0 < j < |s2.clients| ensures !Readable(s2.clients[j]) {
      assert s2.clients[j] == NewClient(j + 1, j);
    }
    s := SelectOnly(parse, s2, 0);
    Onward(parse, init, s2, s);
  }

  /** Then the others end. */
  lemma StartAndEnd(parse: Parser, init: State, k: nat, text: string) returns (s: State)
    requires Initial(init) && 0 < k <= |init.config.uis|
    ensures LeadsTo(parse, init, s) && Good(parse, s) && s.control == Service([0]) && s.config == init.config
    ensures |s.clients| == |init.config.uis| && s.clients == EndedUpTo(|s.clients|, |s.clients|, k, text)
  {
    var s1 := FirstEnds(parse, init, k, text);
    s := EndOthers(parse, s1, 1, k, text);
    Onward(parse, init, s1, s);
    LeadsGood(parse, init, s);
  }

  lemma ServeFailed(parse: Parser, s: State, k: nat, text: string) returns (t: State)
    requires Good(parse, s) && s.control == Service([0]) && s.clients != [] && k > 0
    requires s.clients == EndedUpTo(|s.clients|, |s.clients|, k, text)
    ensures LeadsTo(parse, s, t) && t == s.(clients := Reap(s.clients), control := Service([]))
    ensures forall i :: 0 <= i < |t.clients| && i != k ==> t.clients[i].process == Reaped(false)
    ensures k < |t.clients| ==> t.clients[k] == Client(k + 1, k, Reaped(true), text, 0, "", CleanExit)
  {
    t := ServeClient(parse, s, 0);
    ReapEnded(|s.clients|, k, text);
    assert s.control.fds[1..] == [];
  }

  /** All clients end while the first one, which has a problem, is served. */
  lemma AllEnd(parse: Parser, init: State, k: nat, text: string) returns (s: State)
    requires Initial(init) && init.config.timeout <= 0 && 0 < k <= |init.config.uis|
    ensures LeadsTo(parse, init, s) && Deserted(s) && |s.clients| == |init.config.uis|
    ensures forall i :: 0 <= i < |s.clients| && i != k ==> s.clients[i].process == Reaped(false)
    ensures k < |s.clients| ==> s.clients[k] == Client(k + 1, k, Reaped(true), text, 0, "", CleanExit)
  {
    var s1 := StartAndEnd(parse, init, k, text);
    var s2 := ServeFailed(parse, s1, k, text);
    Onward(parse, init, s1, s2);
    s := BackToSelect(parse, s2);
    Onward(parse, init, s2, s);
    forall i | 0 <= i < |s.clients| ensures !Willing(s, i) {
      assert i != k ==> s2.clients[i].process == Reaped(false);
    }
  }

  /** A user interface that writes a valid entry and ends with success can be
      overlooked: if it ends while another one is served, its text is never read. */
  lemma AnswerOverlooked(parse: Parser, init: State, k: nat, text: string) returns (actions: seq<Action>)
    requires Initial(init) && init.config.timeout <= 0 && 0 < k < |init.config.uis|
    ensures Calm(actions)
    ensures var s := Run(parse, init, actions);
            Deserted(s) && k < |s.clients| && s.clients[k].written == text && s.clients[k].process == Reaped(true)
  {
    var s := AllEnd(parse, init, k, text);
    actions :| Calm(actions) && Run(parse, init, actions) == s;
  }
}
