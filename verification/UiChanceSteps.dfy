/**
 No step of the controller or of its environment makes an answer possible that was not
 possible before (core/ui_control.c).
 */
module UiChanceSteps {
  import opened UiControl
  import opened UiRuns
  import opened UiChances

  lemma ActsThen(c: Client, d: Client, e: Client)
    requires Acts(c, d) && Acts(d, e)
    ensures Acts(c, e)
  {
  }

  lemma NextBack(parse: Parser, cs: seq<Client>, ds: seq<Client>, scanner: Flex, chances: seq<Chance>, i: nat)
    requires AllAct(cs, ds) && NextRound(parse, ds, scanner, chances, i)
    ensures NextRound(parse, cs, scanner, chances, i)
  {
    var es, fds :| AllAct(ds, es) && Reports(es, Waitset(es), fds) && Round(parse, es, scanner, fds, chances, i);
    forall k | 0 <= k < |cs| ensures Acts(cs[k], es[k]) {
      ActsThen(cs[k], ds[k], es[k]);
    }
    assert AllAct(cs, es);
  }

  lemma BeginsBack(parse: Parser, cs: seq<Client>, ds: seq<Client>, scanner: Flex, fds: seq<nat>,
                   chances: seq<Chance>, i: nat) returns (before: seq<Chance>)
    requires AllAct(cs, ds) && AllConsistent(cs) && Begins(parse, ds, scanner, fds, chances, i)
    ensures Begins(parse, cs, scanner, fds, before, i)
  {
    if fds == [] {
      NextBack(parse, cs, ds, scanner, chances, i);
      before := chances;
    } else {
      ActsAllEarlier(cs, ds);
      before := RoundEarlier(parse, cs, ds, scanner, fds, chances, i);
    }
  }

  lemma WaitBack(parse: Parser, cs: seq<Client>, ds: seq<Client>, scanner: Flex, k: nat, more: string, p: Process,
                 fds: seq<nat>, chances: seq<Chance>, i: nat) returns (first: string, before: seq<Chance>)
    requires AllEarlier(cs, ds) && k < |cs| && MayGo(ds[k], more, p)
    requires Looks(parse, Reap(ds[k := Goes(ds[k], more, p)]), scanner, k, fds, chances, i)
    ensures MayGo(cs[k], first + more, p)
    ensures Looks(parse, Reap(cs[k := Goes(cs[k], first + more, p)]), scanner, k, fds, before, i)
  {
    assert Earlier(cs[k], ds[k]);
    first := ds[k].written[|cs[k].written|..];
    assert cs[k].written + (first + more) == ds[k].written + more;
    var e := Goes(ds[k], more, p);
    assert Goes(cs[k], first + more, p) == e;
    ReapEarlier(cs, ds, k, e);
    before := LooksEarlier(parse, Reap(cs[k := e]), Reap(ds[k := e]), scanner, k, fds, chances, i);
  }

  /** A client writes or ends. */
  lemma ClientBack(parse: Parser, s: State, a: Action, chances: seq<Chance>, i: nat) returns (before: seq<Chance>)
    requires Good(parse, s) && (a.Write? || a.ExitClient?) && Enabled(s, a)
    requires AnswersWith(parse, Step(parse, s, a), chances, i)
    ensures AnswersWith(parse, s, before, i)
  {
    var cs, ds := s.clients, Step(parse, s, a).clients;
    assert AllAct(cs, ds);
    ActsAllEarlier(cs, ds);
    before := chances;
    match s.control
    case Service(fds) => before := BeginsBack(parse, cs, ds, s.scanner, fds, chances, i);
    case Wait(k, fds) =>
      var more, p :| MayGo(ds[k], more, p)
                     && Looks(parse, Reap(ds[k := Goes(ds[k], more, p)]), s.scanner, k, fds, chances, i);
      var first;
      first, before := WaitBack(parse, cs, ds, s.scanner, k, more, p, fds, chances, i);
    case Decide(k, fds) =>
      assert Acts(cs[k], ds[k]) && Passes(parse, cs[k], s.scanner) == Passes(parse, ds[k], s.scanner);
      if Passes(parse, cs[k], s.scanner).Some? {
        before := BeginsBack(parse, cs, ds, Passes(parse, cs[k], s.scanner).value, fds, chances, i);
      }
    case Cleanup(_, _) =>
    case Outside =>
    case Stopped =>
    case _ => NextBack(parse, cs, ds, s.scanner, chances, i);
  }

  /** What happens to a client after a read. */
  lemma ReadFirst(c: Client, more: string, p: Process) returns (t: Turn)
    requires c.taken <= |c.written| && MayGo(c, more, p) && (Piece(c) == 0 ==> !c.process.Alive?)
    ensures MayServe(c, t) && After(c, t) == Goes(Collect(c, Piece(c)), more, p)
  {
    t := Turn("", more, p);
    assert c.written + "" == c.written;
  }

  lemma ReadBack(parse: Parser, s: State, chances: seq<Chance>, i: nat)
    requires Good(parse, s) && Enabled(s, Read) && AnswersWith(parse, Step(parse, s, Read), chances, i)
    ensures AnswersWith(parse, s, chances, i)
  {
    var cs, fds := s.clients, s.control.fds;
    var k := SearchFd(cs, fds[0]);
    var c := Collect(cs[k], Piece(cs[k]));
    ServedReadable(cs, fds);
    var more, p :| MayGo(c, more, p)
                   && Looks(parse, Reap(cs[k := c][k := Goes(c, more, p)]), s.scanner, k, fds[1..], chances, i);
    assert cs[k := c][k := Goes(c, more, p)] == cs[k := Goes(c, more, p)];
    RoundReads(parse, cs, s.scanner, fds, k, more, p, chances, i);
  }

  lemma RoundReads(parse: Parser, cs: seq<Client>, scanner: Flex, fds: seq<nat>, k: nat, more: string, p: Process,
                   chances: seq<Chance>, i: nat)
    requires fds != [] && k == SearchFd(cs, fds[0]) < |cs| && cs[k].taken <= |cs[k].written| && Readable(cs[k])
    requires var c := Collect(cs[k], Piece(cs[k]));
             MayGo(c, more, p) && Looks(parse, Reap(cs[k := Goes(c, more, p)]), scanner, k, fds[1..], chances, i)
    ensures Round(parse, cs, scanner, fds, chances, i)
  {
    var t := ReadFirst(cs[k], more, p);
    assert MayServe(cs[k], t) && Looks(parse, Reap(cs[k := After(cs[k], t)]), scanner, k, fds[1..], chances, i);
  }

  lemma ServedReadable(cs: seq<Client>, fds: seq<nat>)
    requires Unique(cs) && Pending(cs, fds) && fds != []
    ensures SearchFd(cs, fds[0]) < |cs| && Readable(cs[SearchFd(cs, fds[0])])
  {
    assert ReadyFd(cs, fds[0]);
    var j :| 0 <= j < |cs| && cs[j].fd == fds[0] && Readable(cs[j]);
    SearchIs(cs, j);
  }

  lemma WaitPidBack(parse: Parser, s: State, pid: int, chances: seq<Chance>, i: nat) returns (before: seq<Chance>)
    requires Good(parse, s) && Enabled(s, WaitPid(pid)) && AnswersWith(parse, Step(parse, s, WaitPid(pid)), chances, i)
    ensures AnswersWith(parse, s, before, i)
  {
    var k, cs, ds := s.control.cnr, s.clients, MarkPid(s.clients, pid);
    var more, p :| MayGo(ds[k], more, p)
                   && Looks(parse, Reap(ds[k := Goes(ds[k], more, p)]), s.scanner, k, s.control.fds, chances, i);
    forall j | 0 <= j < |cs| ensures Earlier(cs[j], ds[j]) {
      assert cs[j] in cs && Consistent(cs[j]);
      assert cs[j].written + "" == cs[j].written;
    }
    var first;
    first, before := WaitBack(parse, cs, ds, s.scanner, k, more, p, s.control.fds, chances, i);
  }

  lemma NoneLeftBack(parse: Parser, s: State, chances: seq<Chance>, i: nat) returns (before: seq<Chance>)
    requires Good(parse, s) && Enabled(s, NoneLeft) && AnswersWith(parse, Step(parse, s, NoneLeft), chances, i)
    ensures AnswersWith(parse, s, before, i)
  {
    var k, fds, cs := s.control.cnr, s.control.fds, s.clients;
    assert cs[k] in cs && Consistent(cs[k]);
    before := chances;
    if Passes(parse, cs[k], s.scanner).Some? && fds == [] {
      before := NextIsFree(parse, cs, Passes(parse, cs[k], s.scanner).value, chances, i);
    }
    assert cs[k].written + "" == cs[k].written;
    assert Goes(cs[k], "", cs[k].process) == cs[k];
    assert Reap(cs[k := cs[k]]) == cs by {
      forall j | 0 <= j < |cs| ensures MarkReaped(cs[j]) == cs[j] {
        assert cs[j] in cs;
      }
    }
    assert MayGo(cs[k], "", cs[k].process);
  }

  lemma SelectBack(parse: Parser, s: State, a: Action, chances: seq<Chance>, i: nat)
    requires Good(parse, s) && a.SelectReady? && Enabled(s, a) && AnswersWith(parse, Step(parse, s, a), chances, i)
    ensures AnswersWith(parse, s, chances, i)
  {
    assert AllAct(s.clients, s.clients) && Reports(s.clients, Waitset(s.clients), a.fds);
  }

  lemma CheckBack(parse: Parser, s: State, chances: seq<Chance>, i: nat)
    requires Good(parse, s) && Enabled(s, CheckClient) && AnswersWith(parse, Step(parse, s, CheckClient), chances, i)
    ensures AnswersWith(parse, s, chances, i)
  {
    assert Consistent(s.clients[s.control.cnr]) by {
      assert s.clients[s.control.cnr] in s.clients;
    }
  }

  lemma StepBack(parse: Parser, s: State, a: Action, chances: seq<Chance>, i: nat) returns (before: seq<Chance>)
    requires Good(parse, s) && NoFailure(a) && !a.Enter? && AnswersWith(parse, Step(parse, s, a), chances, i)
    ensures AnswersWith(parse, s, before, i)
  {
    before := chances;
    if Enabled(s, a) {
      match a
      case Write(_, _) => before := ClientBack(parse, s, a, chances, i);
      case ExitClient(_, _) => before := ClientBack(parse, s, a, chances, i);
      case SelectReady(_) => SelectBack(parse, s, a, chances, i);
      case Read => ReadBack(parse, s, chances, i);
      case WaitPid(pid) => before := WaitPidBack(parse, s, pid, chances, i);
      case NoneLeft => before := NoneLeftBack(parse, s, chances, i);
      case CheckClient => CheckBack(parse, s, chances, i);
      case _ =>
    }
  }

  /** Every action of the call: what can be answered after it, could be answered before. */
  lemma ChanceBack(parse: Parser, s: State, a: Action, i: nat)
    requires Good(parse, s) && NoFailure(a) && !a.Enter? && CanAnswer(parse, Step(parse, s, a), i)
    ensures CanAnswer(parse, s, i)
  {
    var chances :| AnswersWith(parse, Step(parse, s, a), chances, i);
    var before := StepBack(parse, s, a, chances, i);
  }
}
