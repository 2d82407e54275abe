/**
 Which user interface can still give the answer, for a given way to read a text: a
 running one needs a text that can still be collected from it, one that has ended needs
 the piece that is still read in this round, and the texts of the others must have been
 rejected before (core/ui_control.c).
 */
module UiChances {
  import opened Config
  import opened Lists
  import opened UiControl
  import opened UiRuns

  // ---------- what a client can still give ----------

  function Grown(c: Client, more: string): Client { c.(written := c.written + more) }

  /** A round of the main loop: the client writes on, and its pipe is read. If there is
      nothing to read, the pipe is not reported, which makes no difference. */
  function OneRound(c: Client, more: string): (d: Client)
    requires c.taken <= |c.written|
    ensures d.taken <= |d.written|
  {
    Collect(Grown(c, more), Piece(Grown(c, more)))
  }

  /** What it writes in the rounds to come. */
  function Rounds(c: Client, mores: seq<string>): (d: Client)
    requires c.taken <= |c.written|
    ensures d.taken <= |d.written|
    decreases |mores|
  {
    if mores == [] then c else Rounds(OneRound(c, mores[0]), mores[1..])
  }

  /** A running client goes on for so many rounds; it ends in the last one. */
  datatype Chance = Chance(cnr: nat, mores: seq<string>)

  /** The next read of a pipe: what the client writes before it, and after it until it has
      ended or the round goes on, and what has become of the client then. */
  datatype Turn = Turn(more: string, later: string, process: Process)

  /** All that have ended are reaped. */
  predicate Ends(p: Process, q: Process) {
    match p
    case Alive => !q.Zombie?
    case Zombie(clean) => q == Reaped(clean)
    case Reaped(_) => q == p
  }

  predicate MayGo(c: Client, more: string, p: Process) { Ends(c.process, p) && (more == "" || c.process.Alive?) }

  function Goes(c: Client, more: string, p: Process): Client {
    c.(written := c.written + more, process := p, status := StatusOf(p))
  }

  /** Nothing is read only if the client has ended before. */
  predicate MayServe(c: Client, t: Turn) {
    && MayGo(c, t.more, t.process) && MayGo(c, t.later, t.process) && c.taken <= |c.written|
    && (Piece(Grown(c, t.more)) == 0 ==> t.later == "" && !t.process.Alive?)
  }

  function After(c: Client, t: Turn): Client
    requires MayServe(c, t)
  {
    Goes(OneRound(c, t.more), t.later, t.process)
  }

  // ---------- who can give the answer ----------

  /** The state of the scanner after the controller looked at a client, if it goes on. */
  function Passes(parse: Parser, c: Client, scanner: Flex): Option<Flex> {
    if c.process != Reaped(true) then Some(scanner)
    else
      var (boot, flex) := parse(scanner, c.collected);
      if boot.Some? then None else Some(flex)
  }

  /** A client ends in an earlier round than another one, or in the same round and has the
      lower descriptor. */
  predicate Before(cs: seq<Client>, a: Chance, b: Chance)
    requires a.cnr < |cs| && b.cnr < |cs|
  {
    |a.mores| < |b.mores| || (|a.mores| == |b.mores| && cs[a.cnr].fd < cs[b.cnr].fd)
  }

  predicate Possible(cs: seq<Client>, a: Chance) {
    a.cnr < |cs| && cs[a.cnr].process.Alive? && cs[a.cnr].taken <= |cs[a.cnr].written| && a.mores != []
  }

  predicate Schedule(cs: seq<Client>, chances: seq<Chance>) {
    && (forall j :: 0 <= j < |chances| ==> Possible(cs, chances[j]))
    && (forall j, k :: 0 <= j < k < |chances| ==>
          chances[j].cnr != chances[k].cnr && Before(cs, chances[j], chances[k]))
  }

  /** The client when it has ended. */
  function Ended(cs: seq<Client>, a: Chance): Client
    requires Possible(cs, a)
  {
    Goes(Rounds(cs[a.cnr], a.mores), "", Reaped(true))
  }

  /** The texts of all but the last are rejected, and the last one is client `i`. */
  predicate LastAnswers(parse: Parser, cs: seq<Client>, scanner: Flex, chances: seq<Chance>, i: nat)
    requires Schedule(cs, chances)
    decreases |chances|
  {
    && chances != []
    && match Passes(parse, Ended(cs, chances[0]), scanner)
       case None => chances[0].cnr == i && |chances| == 1
       case Some(flex) => |chances| > 1 && LastAnswers(parse, cs, flex, chances[1..], i)
  }

  /** Running clients end one after the other, and the last one, which is client `i`, gives
      the answer. */
  predicate OneByOne(parse: Parser, cs: seq<Client>, scanner: Flex, chances: seq<Chance>, i: nat) {
    Schedule(cs, chances) && LastAnswers(parse, cs, scanner, chances, i)
  }

  /** The controller looks at client `k` after all that ended were reaped, and has other
      pipes to serve. */
  ghost predicate Looks(parse: Parser, cs: seq<Client>, scanner: Flex, k: nat, fds: seq<nat>,
                        chances: seq<Chance>, i: nat)
    decreases |fds|, 1
  {
    && k < |cs|
    && match Passes(parse, cs[k], scanner)
       case None => k == i
       case Some(flex) => Round(parse, cs, flex, fds, chances, i)
  }

  /** Client `i` can give the answer when these pipes are served, or in the rounds after
      that, where `chances` are those that end. */
  ghost predicate Round(parse: Parser, cs: seq<Client>, scanner: Flex, fds: seq<nat>, chances: seq<Chance>, i: nat)
    decreases |fds|, 0
  {
    if fds == [] then OneByOne(parse, cs, scanner, chances, i)
    else
      var k := SearchFd(cs, fds[0]);
      && k < |cs|
      && exists t :: MayServe(cs[k], t)
           && Looks(parse, Reap(cs[k := After(cs[k], t)]), scanner, k, fds[1..], chances, i)
  }

  /** What a client does before select() returns. */
  predicate Acts(c: Client, d: Client) {
    if c.process.Alive? then
      c.written <= d.written && !d.process.Reaped? && d == c.(written := d.written, process := d.process)
    else d == c
  }

  predicate AllAct(cs: seq<Client>, ds: seq<Client>) {
    |cs| == |ds| && forall k :: 0 <= k < |cs| ==> Acts(cs[k], ds[k])
  }

  /** Client `i` can give the answer from the next select() on. */
  ghost predicate NextRound(parse: Parser, cs: seq<Client>, scanner: Flex, chances: seq<Chance>, i: nat) {
    exists ds, fds :: AllAct(cs, ds) && Reports(ds, Waitset(ds), fds) && Round(parse, ds, scanner, fds, chances, i)
  }

  ghost predicate Begins(parse: Parser, cs: seq<Client>, scanner: Flex, fds: seq<nat>, chances: seq<Chance>, i: nat) {
    if fds == [] then NextRound(parse, cs, scanner, chances, i) else Round(parse, cs, scanner, fds, chances, i)
  }

  predicate AnsweredBy(s: State, i: nat) {
    s.control.Cleanup? && s.control.result.Ok? && s.control.origin.FromClient? && s.control.origin.cnr == i
  }

  ghost predicate AnswersWith(parse: Parser, s: State, chances: seq<Chance>, i: nat) {
    match s.control
    case Service(fds) => Begins(parse, s.clients, s.scanner, fds, chances, i)
    case Wait(k, fds) =>
      && k < |s.clients|
      && exists more, p :: MayGo(s.clients[k], more, p)
           && Looks(parse, Reap(s.clients[k := Goes(s.clients[k], more, p)]), s.scanner, k, fds, chances, i)
    case Decide(k, fds) =>
      && k < |s.clients|
      && (match Passes(parse, s.clients[k], s.scanner)
          case None => k == i
          case Some(flex) => Begins(parse, s.clients, flex, fds, chances, i))
    case Cleanup(_, _) => AnsweredBy(s, i)
    case Outside => false
    case Stopped => false
    case _ => NextRound(parse, s.clients, s.scanner, chances, i)
  }

  /** Client `i` can give the answer of this call. */
  ghost predicate CanAnswer(parse: Parser, s: State, i: nat) { exists chances :: AnswersWith(parse, s, chances, i) }

  // ---------- what can be given later can be given now ----------

  /** `d` is what `c` is or becomes before its pipe is read again. */
  predicate Earlier(c: Client, d: Client) {
    && c.status == StatusOf(c.process) && c.taken <= |c.written| && c.written <= d.written
    && d == Goes(c, d.written[|c.written|..], d.process)
    && (!c.process.Alive? ==> d.written == c.written && !d.process.Alive? && d.process.clean == c.process.clean)
  }

  predicate AllEarlier(cs: seq<Client>, ds: seq<Client>) {
    |cs| == |ds| && forall k :: 0 <= k < |cs| ==> Earlier(cs[k], ds[k])
  }

  /** What `d` can give, `c` can give `n` rounds later. */
  ghost predicate Covers(c: Client, d: Client, n: nat) {
    d.process.Alive? ==>
      && c.process.Alive? && c.fd == d.fd && c.taken <= |c.written| && d.taken <= |d.written|
      && forall mores {:trigger Rounds(d, mores)} :: mores != [] ==> CanGive(c, |mores| + n, Rounds(d, mores).collected)
  }

  /** A running client can give this text in this round. */
  ghost predicate CanGive(c: Client, n: nat, text: string)
    requires c.taken <= |c.written|
  {
    exists mores {:trigger Rounds(c, mores)} :: |mores| == n && Rounds(c, mores).collected == text
  }

  ghost predicate AllCover(cs: seq<Client>, ds: seq<Client>, n: nat) {
    |cs| == |ds| && forall k :: 0 <= k < |cs| ==> Covers(cs[k], ds[k], n)
  }

  lemma EarlierCovers(c: Client, d: Client)
    requires Earlier(c, d)
    ensures Covers(c, d, 0)
  {
    if d.process.Alive? {
      forall mores: seq<string> | mores != [] ensures CanGive(c, |mores|, Rounds(d, mores).collected) {
        var first := d.written[|c.written|..];
        var all := [first + mores[0]] + mores[1..];
        assert c.written + (first + mores[0]) == d.written + mores[0];
        assert Grown(c, all[0]) == Grown(d, mores[0]) && all[1..] == mores[1..];
        assert Rounds(c, all) == Rounds(d, mores);
      }
    }
  }

  /** The same chance, `n` rounds later. */
  predicate Later(cs: seq<Client>, ds: seq<Client>, b: Chance, a: Chance, n: nat) {
    && Possible(cs, b) && Possible(ds, a) && b.cnr == a.cnr && |b.mores| == |a.mores| + n
    && cs[b.cnr].fd == ds[b.cnr].fd && Ended(cs, b).collected == Ended(ds, a).collected
  }

  predicate Delayed(cs: seq<Client>, ds: seq<Client>, before: seq<Chance>, after: seq<Chance>, n: nat) {
    |before| == |after| && forall j :: 0 <= j < |before| ==> Later(cs, ds, before[j], after[j], n)
  }

  lemma DelayOne(cs: seq<Client>, ds: seq<Client>, a: Chance, n: nat) returns (b: Chance)
    requires Possible(ds, a) && |cs| == |ds| && Covers(cs[a.cnr], ds[a.cnr], n)
    ensures Later(cs, ds, b, a, n)
  {
    var text := Rounds(ds[a.cnr], a.mores).collected;
    assert CanGive(cs[a.cnr], |a.mores| + n, text);
    var mores :| |mores| == |a.mores| + n && Rounds(cs[a.cnr], mores).collected == text;
    b := Chance(a.cnr, mores);
  }

  lemma {:induction false} DelayAll(cs: seq<Client>, ds: seq<Client>, chances: seq<Chance>, n: nat)
    returns (before: seq<Chance>)
    requires AllCover(cs, ds, n) && forall a :: a in chances ==> Possible(ds, a)
    ensures Delayed(cs, ds, before, chances, n)
    decreases |chances|
  {
    if chances == [] {
      before := [];
    } else {
      var rest := DelayAll(cs, ds, chances[1..], n);
      assert chances[0] in chances;
      var b := DelayOne(cs, ds, chances[0], n);
      before := [b] + rest;
    }
  }

  lemma DelayedSchedule(cs: seq<Client>, ds: seq<Client>, before: seq<Chance>, after: seq<Chance>, n: nat)
    requires Delayed(cs, ds, before, after, n)
    ensures Schedule(ds, after) <==> Schedule(cs, before)
  {
    forall j | 0 <= j < |before| ensures Possible(cs, before[j]) && Possible(ds, after[j]) {
      assert Later(cs, ds, before[j], after[j], n);
    }
    forall j, k | 0 <= j < k < |before|
      ensures (before[j].cnr != before[k].cnr <==> after[j].cnr != after[k].cnr)
      ensures Before(cs, before[j], before[k]) <==> Before(ds, after[j], after[k])
    {
      assert Later(cs, ds, before[j], after[j], n) && Later(cs, ds, before[k], after[k], n);
    }
  }

  lemma {:induction false} DelayedAnswers(parse: Parser, cs: seq<Client>, ds: seq<Client>, scanner: Flex,
                                          before: seq<Chance>, after: seq<Chance>, n: nat, i: nat)
    requires Delayed(cs, ds, before, after, n) && Schedule(ds, after) && Schedule(cs, before)
    ensures LastAnswers(parse, ds, scanner, after, i) == LastAnswers(parse, cs, scanner, before, i)
    decreases |after|
  {
    if after != [] {
      assert Later(cs, ds, before[0], after[0], n);
      var c, d := Ended(cs, before[0]), Ended(ds, after[0]);
      assert Passes(parse, c, scanner) == Passes(parse, d, scanner);
      if Passes(parse, d, scanner).Some? {
        DelayedAnswers(parse, cs, ds, Passes(parse, d, scanner).value, before[1..], after[1..], n, i);
      }
    }
  }

  lemma OneByOneEarlier(parse: Parser, cs: seq<Client>, ds: seq<Client>, scanner: Flex, chances: seq<Chance>, n: nat,
                        i: nat) returns (before: seq<Chance>)
    requires AllCover(cs, ds, n) && OneByOne(parse, ds, scanner, chances, i)
    ensures Delayed(cs, ds, before, chances, n) && OneByOne(parse, cs, scanner, before, i)
  {
    forall a | a in chances ensures Possible(ds, a) {
      var j :| 0 <= j < |chances| && chances[j] == a;
    }
    before := DelayAll(cs, ds, chances, n);
    DelayedSchedule(cs, ds, before, chances, n);
    DelayedAnswers(parse, cs, ds, scanner, before, chances, n, i);
  }

  lemma ServedEarlier(c: Client, d: Client, t: Turn) returns (u: Turn)
    requires Earlier(c, d) && MayServe(d, t)
    ensures MayServe(c, u) && After(c, u) == After(d, t)
  {
    var first := d.written[|c.written|..];
    u := Turn(first + t.more, t.later, t.process);
    assert c.written + (first + t.more) == d.written + t.more;
    assert c.process.Alive? || first == "";
    assert Piece(Grown(c, u.more)) == Piece(Grown(d, t.more));
  }

  lemma SameSearch(cs: seq<Client>, ds: seq<Client>, fd: nat)
    requires |cs| == |ds| && forall k :: 0 <= k < |cs| ==> cs[k].fd == ds[k].fd
    ensures SearchFd(cs, fd) == SearchFd(ds, fd)
  {
    SearchFdIs(cs, fd, SearchFd(ds, fd));
  }

  lemma ReapEarlier(cs: seq<Client>, ds: seq<Client>, k: nat, e: Client)
    requires AllEarlier(cs, ds) && k < |cs| && e.status == StatusOf(e.process) && e.taken <= |e.written|
    ensures AllEarlier(Reap(cs[k := e]), Reap(ds[k := e]))
  {
    var cs', ds' := Reap(cs[k := e]), Reap(ds[k := e]);
    forall j | 0 <= j < |cs| ensures Earlier(cs'[j], ds'[j]) {
      assert Earlier(cs[j], ds[j]);
      assert e.written + "" == e.written;
    }
  }

  lemma {:induction false} RoundEarlier(parse: Parser, cs: seq<Client>, ds: seq<Client>, scanner: Flex, fds: seq<nat>,
                                        chances: seq<Chance>, i: nat) returns (before: seq<Chance>)
    requires AllEarlier(cs, ds) && Round(parse, ds, scanner, fds, chances, i)
    ensures Round(parse, cs, scanner, fds, before, i)
    decreases |fds|, 0
  {
    if fds == [] {
      forall k | 0 <= k < |cs| ensures Covers(cs[k], ds[k], 0) {
        EarlierCovers(cs[k], ds[k]);
      }
      before := OneByOneEarlier(parse, cs, ds, scanner, chances, 0, i);
    } else {
      SameSearch(cs, ds, fds[0]);
      var k := SearchFd(ds, fds[0]);
      var t :| MayServe(ds[k], t) && Looks(parse, Reap(ds[k := After(ds[k], t)]), scanner, k, fds[1..], chances, i);
      var u := ServedEarlier(cs[k], ds[k], t);
      var e := After(ds[k], t);
      ReapEarlier(cs, ds, k, e);
      before := LooksEarlier(parse, Reap(cs[k := e]), Reap(ds[k := e]), scanner, k, fds[1..], chances, i);
      assert MayServe(cs[k], u) && Looks(parse, Reap(cs[k := After(cs[k], u)]), scanner, k, fds[1..], before, i);
    }
  }

  lemma {:induction false} LooksEarlier(parse: Parser, cs: seq<Client>, ds: seq<Client>, scanner: Flex, k: nat,
                                        fds: seq<nat>, chances: seq<Chance>, i: nat) returns (before: seq<Chance>)
    requires AllEarlier(cs, ds) && k < |cs| && cs[k] == ds[k] && Looks(parse, ds, scanner, k, fds, chances, i)
    ensures Looks(parse, cs, scanner, k, fds, before, i)
    decreases |fds|, 1
  {
    before := chances;
    if Passes(parse, cs[k], scanner).Some? {
      before := RoundEarlier(parse, cs, ds, Passes(parse, cs[k], scanner).value, fds, chances, i);
    }
  }

  // ---------- a round without ended clients is part of a schedule ----------

  lemma RoundsThen(c: Client, more: string, mores: seq<string>)
    requires c.taken <= |c.written|
    ensures Rounds(c, [more] + mores) == Rounds(OneRound(c, more), mores)
  {
    assert ([more] + mores)[1..] == mores;
  }

  /** A client that was read, and goes on. */
  lemma AliveCovers(c: Client, u: Turn)
    requires MayServe(c, u) && c.process.Alive? && u.process.Alive?
    ensures Covers(c, After(c, u), 1)
  {
    var e, d := After(c, u), OneRound(c, u.more);
    forall mores: seq<string> | mores != [] ensures CanGive(c, |mores| + 1, Rounds(e, mores).collected) {
      var next := [u.later + mores[0]] + mores[1..];
      assert d.written + (u.later + mores[0]) == e.written + mores[0];
      SameRound(d, u.later + mores[0], e, mores[0]);
      SameRounds(OneRound(d, u.later + mores[0]), OneRound(e, mores[0]), mores[1..]);
      RoundsThen(d, u.later + mores[0], mores[1..]);
      RoundsThen(c, u.more, next);
    }
  }

  /** The text does not depend on the process. */
  predicate SameText(c: Client, d: Client) {
    c.written == d.written && c.taken == d.taken && c.collected == d.collected
  }

  lemma SameRound(c: Client, more: string, d: Client, other: string)
    requires c.taken == d.taken <= |c.written| && c.taken <= |d.written| && c.collected == d.collected
    requires c.written + more == d.written + other
    ensures SameText(OneRound(c, more), OneRound(d, other))
  {
  }

  lemma {:induction false} SameRounds(c: Client, d: Client, mores: seq<string>)
    requires c.taken <= |c.written| && SameText(c, d)
    ensures SameText(Rounds(c, mores), Rounds(d, mores))
    decreases |mores|
  {
    if mores != [] {
      SameRound(c, mores[0], d, mores[0]);
      SameRounds(OneRound(c, mores[0]), OneRound(d, mores[0]), mores[1..]);
    }
  }

  /** A client that has nothing to read is not reported. */
  lemma QuietCovers(c: Client, d: Client)
    requires Earlier(c, d) && d.taken == |d.written|
    ensures Covers(c, d, 1)
  {
    if d.process.Alive? {
      var first := d.written[|c.written|..];
      assert c.written + first == d.written && d.written[d.taken..d.taken] == "";
      assert OneRound(c, first) == d;
      forall mores: seq<string> | mores != [] ensures CanGive(c, |mores| + 1, Rounds(d, mores).collected) {
        RoundsThen(c, first, mores);
      }
    }
  }

  /** `ds` is a later state of `cs`, in the middle of a round in which the pipes `fds` are
      still to be served. */
  ghost predicate Loose(cs: seq<Client>, ds: seq<Client>, fds: seq<nat>) {
    && |cs| == |ds| && Unique(ds)
    && forall k :: 0 <= k < |cs| ==>
         && ds[k].fd == cs[k].fd
         && if ds[k].fd in fds then cs[k].process.Alive? && Earlier(cs[k], ds[k]) else Covers(cs[k], ds[k], 1)
  }

  lemma LooseServed(cs: seq<Client>, ds: seq<Client>, fds: seq<nat>, k: nat, e: Client)
    requires Loose(cs, ds, fds) && Ascending(fds) && fds != [] && k < |cs| && ds[k].fd == fds[0] == e.fd
    requires Covers(cs[k], e, 1) && e.pid == ds[k].pid && !e.process.Zombie?
    ensures Loose(cs, Reap(ds[k := e]), fds[1..]) && Reap(ds[k := e])[k] == e
    ensures Ascending(fds[1..]) && fds[0] !in fds[1..]
  {
    var ds' := Reap(ds[k := e]);
    forall j | 0 <= j < |cs|
      ensures ds'[j].fd == cs[j].fd
      ensures if ds'[j].fd in fds[1..] then cs[j].process.Alive? && Earlier(cs[j], ds'[j]) else Covers(cs[j], ds'[j], 1)
    {
      if j != k {
        assert ds[j].fd != ds[k].fd && (ds[j].fd in fds <==> ds[j].fd in fds[1..]);
      }
    }
  }

  /** Chances in this round or in later ones. */
  predicate FromNowOn(cs: seq<Client>, ds: seq<Client>, fds: seq<nat>, chances: seq<Chance>) {
    forall a :: a in chances ==>
      && a.cnr < |cs| == |ds|
      && if |a.mores| == 1 then cs[a.cnr].fd in fds
         else |a.mores| > 1 && (cs[a.cnr].fd in fds || ds[a.cnr].process.Alive?)
  }

  lemma FirstChance(parse: Parser, cs: seq<Client>, scanner: Flex, a: Chance, chances: seq<Chance>, flex: Flex, i: nat)
    requires Possible(cs, a) && Passes(parse, Ended(cs, a), scanner) == Some(flex)
    requires OneByOne(parse, cs, flex, chances, i)
    requires forall b :: b in chances ==> Possible(cs, b) && b.cnr != a.cnr && Before(cs, a, b)
    ensures OneByOne(parse, cs, scanner, [a] + chances, i)
  {
    var all := [a] + chances;
    assert all[1..] == chances;
    forall j | 0 <= j < |all| ensures Possible(cs, all[j]) {
    }
    forall j, k | 0 <= j < k < |all| ensures all[j].cnr != all[k].cnr && Before(cs, all[j], all[k]) {
      assert all[k] in chances;
    }
  }

  lemma TurnLoose(cs: seq<Client>, ds: seq<Client>, fds: seq<nat>, k: nat, t: Turn) returns (u: Turn)
    requires Loose(cs, ds, fds) && Ascending(fds) && fds != [] && k < |ds| && ds[k].fd == fds[0] && MayServe(ds[k], t)
    ensures cs[k].process.Alive? && cs[k].fd == fds[0] && MayServe(cs[k], u)
    ensures var ds' := Reap(ds[k := After(ds[k], t)]); Loose(cs, ds', fds[1..]) && ds'[k] == After(cs[k], u)
    ensures Ascending(fds[1..]) && forall fd :: fd in fds[1..] ==> fds[0] < fd
  {
    assert ds[k].fd in fds;
    u := ServedEarlier(cs[k], ds[k], t);
    if t.process.Alive? {
      AliveCovers(cs[k], u);
    }
    LooseServed(cs, ds, fds, k, After(ds[k], t));
  }

  lemma FreeAtEnd(parse: Parser, cs: seq<Client>, ds: seq<Client>, scanner: Flex, chances: seq<Chance>, i: nat)
    returns (all: seq<Chance>)
    requires Loose(cs, ds, []) && OneByOne(parse, ds, scanner, chances, i)
    ensures OneByOne(parse, cs, scanner, all, i) && FromNowOn(cs, ds, [], all)
  {
    all := OneByOneEarlier(parse, cs, ds, scanner, chances, 1, i);
    forall a | a in all ensures a.cnr < |ds| && |a.mores| > 1 && ds[a.cnr].process.Alive? {
      var j :| 0 <= j < |all| && all[j] == a;
      assert Later(cs, ds, all[j], chances[j], 1);
    }
  }

  lemma SameAlive(cs: seq<Client>, ds: seq<Client>, k: nat, e: Client, fds: seq<nat>, all: seq<Chance>)
    requires fds != [] && |ds| == |cs| && k < |cs| && cs[k].fd == fds[0]
    requires FromNowOn(cs, Reap(ds[k := e]), fds, all)
    ensures FromNowOn(cs, ds, fds, all)
  {
    forall a | a in all
      ensures |a.mores| == 1 || cs[a.cnr].fd in fds || ds[a.cnr].process.Alive?
    {
      assert a.cnr != k ==> (Reap(ds[k := e])[a.cnr].process.Alive? ==> ds[a.cnr].process.Alive?);
    }
  }

  /** Whoever can answer in a round with these pipes, or later, can answer by a schedule. */
  lemma {:induction false} RoundIsFree(parse: Parser, cs: seq<Client>, ds: seq<Client>, scanner: Flex, fds: seq<nat>,
                                       chances: seq<Chance>, i: nat) returns (all: seq<Chance>)
    requires Loose(cs, ds, fds) && Ascending(fds) && Round(parse, ds, scanner, fds, chances, i)
    ensures OneByOne(parse, cs, scanner, all, i) && FromNowOn(cs, ds, fds, all)
    decreases |fds|, 0
  {
    if fds == [] {
      all := FreeAtEnd(parse, cs, ds, scanner, chances, i);
    } else {
      var k := SearchFd(ds, fds[0]);
      var t :| MayServe(ds[k], t) && Looks(parse, Reap(ds[k := After(ds[k], t)]), scanner, k, fds[1..], chances, i);
      var u := TurnLoose(cs, ds, fds, k, t);
      all := LooksFree(parse, cs, Reap(ds[k := After(ds[k], t)]), scanner, k, u, fds, chances, i);
      SameAlive(cs, ds, k, After(ds[k], t), fds, all);
    }
  }

  lemma {:induction false} LooksFree(parse: Parser, cs: seq<Client>, ds: seq<Client>, scanner: Flex, k: nat, u: Turn,
                                     fds: seq<nat>, chances: seq<Chance>, i: nat) returns (all: seq<Chance>)
    requires fds != [] && Loose(cs, ds, fds[1..]) && Ascending(fds[1..])
    requires Looks(parse, ds, scanner, k, fds[1..], chances, i)
    requires k < |cs| && cs[k].process.Alive? && MayServe(cs[k], u) && ds[k] == After(cs[k], u)
    requires cs[k].fd == fds[0] && forall fd :: fd in fds[1..] ==> fds[0] < fd
    ensures OneByOne(parse, cs, scanner, all, i) && FromNowOn(cs, ds, fds, all)
    decreases |fds| - 1, 1
  {
    var a, rest := Chance(k, [u.more]), fds[1..];
    RoundsThen(cs[k], u.more, []);
    assert [u.more] + [] == [u.more];
    assert forall fd :: fd in rest ==> fd in fds;
    if ds[k].process != Reaped(true) {
      all := RoundIsFree(parse, cs, ds, scanner, rest, chances, i);
    } else if Passes(parse, ds[k], scanner).None? {
      all := [a];
      assert Passes(parse, Ended(cs, a), scanner).None?;
    } else {
      var flex := Passes(parse, ds[k], scanner).value;
      var later := RoundIsFree(parse, cs, ds, flex, rest, chances, i);
      RestIsLater(cs, ds, rest, later, a, fds[0]);
      FirstChance(parse, cs, scanner, a, later, flex, i);
      all := [a] + later;
    }
  }

  lemma RestIsLater(cs: seq<Client>, ds: seq<Client>, fds: seq<nat>, rest: seq<Chance>, a: Chance, fd: nat)
    requires Schedule(cs, rest) && FromNowOn(cs, ds, fds, rest) && |a.mores| == 1 && a.cnr < |cs| == |ds|
    requires cs[a.cnr].fd == fd && !ds[a.cnr].process.Alive? && forall other :: other in fds ==> fd < other
    ensures forall b :: b in rest ==> Possible(cs, b) && b.cnr != a.cnr && Before(cs, a, b)
  {
    forall b | b in rest ensures Possible(cs, b) && b.cnr != a.cnr && Before(cs, a, b) {
      var j :| 0 <= j < |rest| && rest[j] == b;
    }
  }

  lemma NextIsFree(parse: Parser, cs: seq<Client>, scanner: Flex, chances: seq<Chance>, i: nat)
    returns (all: seq<Chance>)
    requires Unique(cs) && AllConsistent(cs) && (forall c :: c in cs ==> !c.process.Zombie?)
    requires NextRound(parse, cs, scanner, chances, i)
    ensures OneByOne(parse, cs, scanner, all, i)
  {
    var ds, fds :| AllAct(cs, ds) && Reports(ds, Waitset(ds), fds) && Round(parse, ds, scanner, fds, chances, i);
    ActsLoose(cs, ds, fds);
    all := RoundIsFree(parse, cs, ds, scanner, fds, chances, i);
  }

  lemma ActsEarlier(c: Client, d: Client)
    requires Consistent(c) && Acts(c, d)
    ensures Earlier(c, d)
  {
    assert c.written + d.written[|c.written|..] == d.written;
  }

  lemma ActsAllEarlier(cs: seq<Client>, ds: seq<Client>)
    requires AllAct(cs, ds) && AllConsistent(cs)
    ensures AllEarlier(cs, ds) && SameNames(cs, ds)
  {
    forall k | 0 <= k < |cs| ensures Earlier(cs[k], ds[k]) && ds[k].fd == cs[k].fd && ds[k].pid == cs[k].pid {
      assert cs[k] in cs && Acts(cs[k], ds[k]);
      ActsEarlier(cs[k], ds[k]);
    }
  }

  lemma Reported(ds: seq<Client>, fds: seq<nat>, k: nat)
    requires Unique(ds) && Reports(ds, Waitset(ds), fds) && k < |ds|
    ensures ds[k].fd in fds ==> !ds[k].process.Reaped? && Readable(ds[k])
    ensures ds[k].fd !in fds && !ds[k].process.Reaped? ==> !Readable(ds[k])
  {
    InWaitset(ds, ds[k].fd);
    assert Readable(ds[k]) ==> ReadyFd(ds, ds[k].fd);
  }

  lemma ActsLoose(cs: seq<Client>, ds: seq<Client>, fds: seq<nat>)
    requires Unique(cs) && AllConsistent(cs) && (forall c :: c in cs ==> !c.process.Zombie?)
    requires AllAct(cs, ds) && Reports(ds, Waitset(ds), fds)
    ensures Loose(cs, ds, fds)
  {
    ActsAllEarlier(cs, ds);
    UniqueKept(cs, ds);
    forall k | 0 <= k < |cs|
      ensures if ds[k].fd in fds then cs[k].process.Alive? && Earlier(cs[k], ds[k]) else Covers(cs[k], ds[k], 1)
    {
      assert cs[k] in cs && Acts(cs[k], ds[k]) && Earlier(cs[k], ds[k]);
      Reported(ds, fds, k);
      if ds[k].fd !in fds && ds[k].process.Alive? {
        QuietCovers(cs[k], ds[k]);
      }
    }
  }
}
