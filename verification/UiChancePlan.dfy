/**
 A schedule of the clients that end is carried out round by round
 (core/ui_control.c).
 */
module UiChancePlan {
  import opened Lists
  import opened UiControl
  import opened UiRuns
  import opened UiChances

  /** What a client does before the next select() returns. */
  function Begin(c: Client, mores: seq<string>): Client
    requires mores != []
  {
    Grown(c, mores[0]).(process := if |mores| == 1 then Zombie(true) else Alive)
  }

  function Plan(cs: seq<Client>, chances: seq<Chance>): (ds: seq<Client>)
    requires forall j :: 0 <= j < |chances| ==> Possible(cs, chances[j])
    ensures |ds| == |cs|
    decreases |chances|
  {
    if chances == [] then cs
    else
      assert Possible(cs, chances[0]);
      var k := chances[0].cnr;
      Plan(cs, chances[1..])[k := Begin(cs[k], chances[0].mores)]
  }

  lemma {:induction false} Planned(cs: seq<Client>, chances: seq<Chance>)
    requires Schedule(cs, chances)
    ensures var ds := Plan(cs, chances);
            && (forall j :: 0 <= j < |chances| ==> ds[chances[j].cnr] == Begin(cs[chances[j].cnr], chances[j].mores))
            && forall k :: 0 <= k < |cs| && (forall j :: 0 <= j < |chances| ==> chances[j].cnr != k) ==> ds[k] == cs[k]
    decreases |chances|
  {
    if chances != [] {
      var rest := chances[1..];
      Planned(cs, rest);
      forall j | 0 <= j < |chances|
        ensures Plan(cs, chances)[chances[j].cnr] == Begin(cs[chances[j].cnr], chances[j].mores)
      {
        assert j > 0 ==> chances[j] == rest[j - 1];
      }
      forall k | 0 <= k < |cs| && (forall j :: 0 <= j < |chances| ==> chances[j].cnr != k)
        ensures Plan(cs, chances)[k] == cs[k]
      {
        assert forall j :: 0 <= j < |rest| ==> rest[j] == chances[j + 1];
        assert chances[0].cnr != k;
      }
    }
  }

  /** The chances that are left after a round. */
  function Strip(chances: seq<Chance>): seq<Chance>
    decreases |chances|
  {
    if chances == [] then []
    else if |chances[0].mores| <= 1 then Strip(chances[1..])
    else [Chance(chances[0].cnr, chances[0].mores[1..])] + Strip(chances[1..])
  }

  function Total(chances: seq<Chance>): nat
    decreases |chances|
  {
    if chances == [] then 0 else |chances[0].mores| + Total(chances[1..])
  }

  lemma {:induction false} StripIsLess(chances: seq<Chance>)
    requires forall j :: 0 <= j < |chances| ==> chances[j].mores != []
    ensures Total(Strip(chances)) <= Total(chances) && (chances != [] ==> Total(Strip(chances)) < Total(chances))
    decreases |chances|
  {
    if chances != [] {
      StripIsLess(chances[1..]);
      var rest := Strip(chances[1..]);
      if |chances[0].mores| > 1 {
        var all := [Chance(chances[0].cnr, chances[0].mores[1..])] + rest;
        assert all[1..] == rest;
      }
    }
  }

  /** Where a client with a chance is in the middle of a round. */
  predicate Underway(c: Client, d: Client, mores: seq<string>, pending: bool)
    requires c.taken <= |c.written| && mores != []
  {
    if |mores| == 1 then
      pending && (d.process == Zombie(true) || d.process == Reaped(true)) && SameText(d, Grown(c, mores[0]))
    else d.process.Alive? && SameText(d, if pending then Grown(c, mores[0]) else OneRound(c, mores[0]))
  }

  predicate EndsNow(chances: seq<Chance>, k: nat) {
    exists j :: 0 <= j < |chances| && chances[j].cnr == k && |chances[j].mores| == 1
  }

  predicate AllUnderway(cs: seq<Client>, ds: seq<Client>, fds: seq<nat>, chances: seq<Chance>)
    requires |cs| == |ds| && Schedule(cs, chances)
  {
    forall j :: 0 <= j < |chances| ==>
      var k := chances[j].cnr; Underway(cs[k], ds[k], chances[j].mores, ds[k].fd in fds)
  }

  /** What is pending can be read. */
  predicate AllPending(ds: seq<Client>, fds: seq<nat>, chances: seq<Chance>) {
    && (forall fd :: fd in fds ==> exists k :: 0 <= k < |ds| && ds[k].fd == fd)
    && (forall k :: 0 <= k < |ds| && ds[k].fd in fds ==>
          (ds[k].process.Alive? && ds[k].taken < |ds[k].written|) || EndsNow(chances, k))
  }

  /** The middle of a round in which the pipes `fds` are still to be served. */
  predicate Midway(cs: seq<Client>, ds: seq<Client>, fds: seq<nat>, chances: seq<Chance>) {
    && |cs| == |ds| && Unique(ds) && Ascending(fds) && Schedule(cs, chances)
    && (forall k :: 0 <= k < |cs| ==> ds[k].fd == cs[k].fd)
    && AllUnderway(cs, ds, fds, chances) && AllPending(ds, fds, chances)
  }

  lemma FirstEnds(cs: seq<Client>, ds: seq<Client>, fds: seq<nat>, chances: seq<Chance>, k: nat)
    requires Midway(cs, ds, fds, chances) && fds != [] && k < |ds| && ds[k].fd == fds[0] && EndsNow(chances, k)
    ensures chances[0].cnr == k && |chances[0].mores| == 1
  {
    var j :| 0 <= j < |chances| && chances[j].cnr == k && |chances[j].mores| == 1;
    var first := chances[0].cnr;
    assert Possible(cs, chances[0]) && Underway(cs[first], ds[first], chances[0].mores, ds[first].fd in fds);
  }

  lemma PendingServed(cs: seq<Client>, ds: seq<Client>, fds: seq<nat>, chances: seq<Chance>, rest: seq<Chance>,
                      k: nat, h: nat)
    requires Midway(cs, ds, fds, chances) && fds != [] && k < |ds| && ds[k].fd == fds[0] && h < |ds|
    requires if EndsNow(chances, k) then rest == chances[1..] else rest == chances
    requires ds[h].fd in fds[1..]
    ensures h != k && ((ds[h].process.Alive? && ds[h].taken < |ds[h].written|) || EndsNow(rest, h))
  {
    assert ds[h].fd in fds && ds[h].fd != fds[0];
    if EndsNow(chances, k) {
      FirstEnds(cs, ds, fds, chances, k);
      if EndsNow(chances, h) {
        var j :| 0 <= j < |chances| && chances[j].cnr == h && |chances[j].mores| == 1;
        assert j > 0 && rest[j - 1] == chances[j];
      }
    }
  }

  lemma ChanceServed(cs: seq<Client>, ds: seq<Client>, fds: seq<nat>, chances: seq<Chance>, rest: seq<Chance>,
                     k: nat, e: Client, j: nat)
    requires Midway(cs, ds, fds, chances) && fds != [] && k < |ds| && ds[k].fd == fds[0] == e.fd
    requires !e.process.Zombie? && ds[k].taken <= |ds[k].written| && j < |rest|
    requires if EndsNow(chances, k) then chances != [] && chances[0].cnr == k && rest == chances[1..]
             else rest == chances && e.process.Alive? && SameText(e, OneRound(ds[k], ""))
    ensures var h, ds' := rest[j].cnr, Reap(ds[k := e]);
            h < |cs| && Possible(cs, rest[j]) && Underway(cs[h], ds'[h], rest[j].mores, ds'[h].fd in fds[1..])
  {
    var n := if EndsNow(chances, k) then j + 1 else j;
    assert rest[j] == chances[n];
    var h := chances[n].cnr;
    assert Underway(cs[h], ds[h], chances[n].mores, ds[h].fd in fds) && Possible(cs, chances[n]);
    if h == k {
      assert |chances[n].mores| > 1;
      assert ds[k].written + "" == ds[k].written;
    } else {
      assert ds[h].fd != fds[0] && (ds[h].fd in fds <==> ds[h].fd in fds[1..]);
    }
  }

  lemma AllPendingServed(cs: seq<Client>, ds: seq<Client>, fds: seq<nat>, chances: seq<Chance>, rest: seq<Chance>,
                         k: nat, e: Client)
    requires Midway(cs, ds, fds, chances) && fds != [] && k < |ds| && ds[k].fd == fds[0] == e.fd
    requires if EndsNow(chances, k) then chances != [] && rest == chances[1..] else rest == chances
    ensures AllPending(Reap(ds[k := e]), fds[1..], rest)
  {
    var ds' := Reap(ds[k := e]);
    forall fd | fd in fds[1..] ensures exists h :: 0 <= h < |ds'| && ds'[h].fd == fd {
      assert fd in fds;
      var h :| 0 <= h < |ds| && ds[h].fd == fd;
      assert ds'[h].fd == fd;
    }
    forall h | 0 <= h < |ds'| && ds'[h].fd in fds[1..]
      ensures (ds'[h].process.Alive? && ds'[h].taken < |ds'[h].written|) || EndsNow(rest, h)
    {
      PendingServed(cs, ds, fds, chances, rest, k, h);
    }
  }

  lemma ScheduleTail(cs: seq<Client>, chances: seq<Chance>)
    requires Schedule(cs, chances) && chances != []
    ensures Schedule(cs, chances[1..])
  {
  }

  /** The next pipe is served. */
  lemma MidwayServed(cs: seq<Client>, ds: seq<Client>, fds: seq<nat>, chances: seq<Chance>, rest: seq<Chance>,
                     k: nat, e: Client)
    requires Midway(cs, ds, fds, chances) && fds != [] && k < |ds| && ds[k].fd == fds[0] == e.fd && e.pid == ds[k].pid
    requires !e.process.Zombie? && ds[k].taken <= |ds[k].written|
    requires if EndsNow(chances, k) then chances != [] && rest == chances[1..]
             else rest == chances && e.process.Alive? && SameText(e, OneRound(ds[k], ""))
    ensures Midway(cs, Reap(ds[k := e]), fds[1..], rest)
  {
    if EndsNow(chances, k) {
      FirstEnds(cs, ds, fds, chances, k);
      ScheduleTail(cs, chances);
    }
    AllPendingServed(cs, ds, fds, chances, rest, k, e);
    forall j | 0 <= j < |rest|
      ensures var h, ds' := rest[j].cnr, Reap(ds[k := e]);
              Underway(cs[h], ds'[h], rest[j].mores, ds'[h].fd in fds[1..])
    {
      ChanceServed(cs, ds, fds, chances, rest, k, e, j);
    }
    UniqueKept(ds, Reap(ds[k := e]));
  }

  // ---------- a schedule is carried out ----------

  lemma {:induction false} StripOne(cs: seq<Client>, ds: seq<Client>, chances: seq<Chance>)
    requires |cs| == |ds| && Schedule(cs, chances) && AllUnderway(cs, ds, [], chances)
    requires forall k :: 0 <= k < |cs| ==> ds[k].fd == cs[k].fd
    ensures Delayed(cs, ds, chances, Strip(chances), 1)
    decreases |chances|
  {
    if chances != [] {
      var a := chances[0];
      var k := a.cnr;
      assert Possible(cs, a) && Underway(cs[k], ds[k], a.mores, ds[k].fd in []);
      ScheduleTail(cs, chances);
      StripOne(cs, ds, chances[1..]);
      SameRounds(OneRound(cs[k], a.mores[0]), ds[k], a.mores[1..]);
      assert Later(cs, ds, a, Chance(k, a.mores[1..]), 1);
    }
  }

  lemma RoundOver(parse: Parser, cs: seq<Client>, ds: seq<Client>, scanner: Flex, chances: seq<Chance>, i: nat)
    requires Midway(cs, ds, [], chances) && LastAnswers(parse, cs, scanner, chances, i)
    ensures Round(parse, ds, scanner, [], Strip(chances), i)
  {
    StripOne(cs, ds, chances);
    DelayedSchedule(cs, ds, chances, Strip(chances), 1);
    DelayedAnswers(parse, cs, ds, scanner, chances, Strip(chances), 1, i);
  }

  lemma FindPending(cs: seq<Client>, ds: seq<Client>, fds: seq<nat>, chances: seq<Chance>) returns (k: nat)
    requires Midway(cs, ds, fds, chances) && fds != []
    ensures k < |ds| && ds[k].fd == fds[0] && SearchFd(ds, fds[0]) == k
  {
    assert fds[0] in fds;
    k :| k < |ds| && ds[k].fd == fds[0];
    SearchIs(ds, k);
  }

  /** The rest of a round. */
  lemma {:induction false} RoundGoes(parse: Parser, cs: seq<Client>, ds: seq<Client>, scanner: Flex, fds: seq<nat>,
                                     chances: seq<Chance>, i: nat)
    requires Midway(cs, ds, fds, chances) && LastAnswers(parse, cs, scanner, chances, i)
    ensures Round(parse, ds, scanner, fds, Strip(chances), i)
    decreases |fds|
  {
    if fds == [] {
      RoundOver(parse, cs, ds, scanner, chances, i);
    } else {
      var k := FindPending(cs, ds, fds, chances);
      assert ds[k].fd in fds;
      if EndsNow(chances, k) {
        FirstEnds(cs, ds, fds, chances, k);
        EndedServed(parse, cs, ds, scanner, fds, chances, i, k);
      } else {
        var t := Turn("", "", Alive);
        var e := After(ds[k], t);
        assert ds[k].written + "" == ds[k].written;
        MidwayServed(cs, ds, fds, chances, chances, k, e);
        RoundGoes(parse, cs, Reap(ds[k := e]), scanner, fds[1..], chances, i);
        assert MayServe(ds[k], t) && Looks(parse, Reap(ds[k := e]), scanner, k, fds[1..], Strip(chances), i);
      }
    }
  }

  lemma {:induction false} EndedServed(parse: Parser, cs: seq<Client>, ds: seq<Client>, scanner: Flex, fds: seq<nat>,
                                       chances: seq<Chance>, i: nat, k: nat)
    requires Midway(cs, ds, fds, chances) && LastAnswers(parse, cs, scanner, chances, i)
    requires fds != [] && k < |ds| && ds[k].fd == fds[0] && SearchFd(ds, fds[0]) == k
    requires chances[0].cnr == k && |chances[0].mores| == 1
    ensures Round(parse, ds, scanner, fds, Strip(chances), i)
    decreases |fds|, 0
  {
    var a, t := chances[0], Turn("", "", Reaped(true));
    assert Possible(cs, a) && Underway(cs[k], ds[k], a.mores, ds[k].fd in fds);
    var e := After(ds[k], t);
    SameRound(ds[k], "", Grown(cs[k], a.mores[0]), "");
    assert cs[k].written + a.mores[0] + "" == cs[k].written + a.mores[0];
    assert Rounds(OneRound(cs[k], a.mores[0]), a.mores[1..]) == OneRound(cs[k], a.mores[0]);
    assert Passes(parse, e, scanner) == Passes(parse, Ended(cs, a), scanner);
    if Passes(parse, e, scanner).Some? {
      assert EndsNow(chances, k);
      MidwayServed(cs, ds, fds, chances, chances[1..], k, e);
      RoundGoes(parse, cs, Reap(ds[k := e]), Passes(parse, e, scanner).value, fds[1..], chances[1..], i);
    }
    assert MayServe(ds[k], t) && Looks(parse, Reap(ds[k := e]), scanner, k, fds[1..], Strip(chances), i);
  }

  /** All clients are running, or reaped. */
  predicate NoneEnded(cs: seq<Client>) {
    && Unique(cs) && forall c :: c in cs ==> c.taken <= |c.written| && !c.process.Zombie?
  }

  lemma PlanActs(cs: seq<Client>, chances: seq<Chance>)
    requires Schedule(cs, chances)
    ensures AllAct(cs, Plan(cs, chances))
  {
    var ds := Plan(cs, chances);
    Planned(cs, chances);
    forall k | 0 <= k < |cs| ensures Acts(cs[k], ds[k]) {
      if j :| 0 <= j < |chances| && chances[j].cnr == k {
        assert Possible(cs, chances[j]) && ds[k] == Begin(cs[k], chances[j].mores);
      }
    }
  }

  /** The clients when they have acted, and what select() reports then. */
  lemma PlanUnderway(cs: seq<Client>, chances: seq<Chance>, fds: seq<nat>)
    requires NoneEnded(cs) && Schedule(cs, chances) && Reports(Plan(cs, chances), Waitset(Plan(cs, chances)), fds)
    requires Unique(Plan(cs, chances))
    ensures AllUnderway(cs, Plan(cs, chances), fds, chances)
  {
    var ds := Plan(cs, chances);
    Planned(cs, chances);
    forall j | 0 <= j < |chances|
      ensures var k := chances[j].cnr; Underway(cs[k], ds[k], chances[j].mores, ds[k].fd in fds)
    {
      var k, mores := chances[j].cnr, chances[j].mores;
      assert Possible(cs, chances[j]) && ds[k] == Begin(cs[k], mores);
      Reported(ds, fds, k);
      if ds[k].fd !in fds {
        assert ds[k].written[ds[k].taken..ds[k].taken] == "";
      }
    }
  }

  lemma PlanPending(cs: seq<Client>, chances: seq<Chance>, fds: seq<nat>)
    requires NoneEnded(cs) && Schedule(cs, chances) && Reports(Plan(cs, chances), Waitset(Plan(cs, chances)), fds)
    requires Unique(Plan(cs, chances))
    ensures AllPending(Plan(cs, chances), fds, chances)
  {
    var ds := Plan(cs, chances);
    Planned(cs, chances);
    forall k | 0 <= k < |ds| && ds[k].fd in fds
      ensures (ds[k].process.Alive? && ds[k].taken < |ds[k].written|) || EndsNow(chances, k)
    {
      Reported(ds, fds, k);
      assert cs[k] in cs;
      if j :| 0 <= j < |chances| && chances[j].cnr == k {
        assert Possible(cs, chances[j]) && ds[k] == Begin(cs[k], chances[j].mores);
      }
    }
  }

  /** A schedule can be carried out: the clients act, and the next round does its part. */
  lemma PlanGoes(parse: Parser, cs: seq<Client>, scanner: Flex, chances: seq<Chance>, fds: seq<nat>, i: nat)
    requires NoneEnded(cs) && OneByOne(parse, cs, scanner, chances, i)
    requires Reports(Plan(cs, chances), Waitset(Plan(cs, chances)), fds)
    ensures AllAct(cs, Plan(cs, chances)) && Round(parse, Plan(cs, chances), scanner, fds, Strip(chances), i)
    ensures Total(Strip(chances)) < Total(chances)
  {
    var ds := Plan(cs, chances);
    PlanActs(cs, chances);
    forall k | 0 <= k < |cs| ensures ds[k].fd == cs[k].fd && ds[k].pid == cs[k].pid {
      assert Acts(cs[k], ds[k]);
    }
    UniqueKept(cs, ds);
    PlanUnderway(cs, chances, fds);
    PlanPending(cs, chances, fds);
    RoundGoes(parse, cs, ds, scanner, fds, chances, i);
    forall j | 0 <= j < |chances| ensures chances[j].mores != [] {
      assert Possible(cs, chances[j]);
    }
    StripIsLess(chances);
  }
}
