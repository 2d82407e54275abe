/**
 How much of what a user interface writes counts: an answer is the parse of some
 beginning of the text, and every beginning can be the one (core/ui_control.c).
 */
module UiTexts {
  import opened Config
  import opened CText
  import opened UiControl
  import opened UiRuns
  import opened UiAnswers

  /** The call ends with the answer of a client. */
  predicate Answered(s: State) {
    s.control.Cleanup? && s.control.result.Ok? && s.control.origin.FromClient? && s.control.origin.cnr < |s.clients|
  }

  function Answer(s: State): Bentry
    requires Answered(s)
  {
    s.control.result.boot
  }

  /** What the client wrote that gave the answer. */
  function Source(s: State): string
    requires Answered(s)
  {
    s.clients[s.control.origin.cnr].written
  }

  /** What was left in the scanner when that text came. */
  function ScannedIn(s: State): Flex
    requires Answered(s)
  {
    s.control.origin.scanner
  }

  // ---------- reading a text in pieces ----------

  /** The first client wrote `p`, of which `k` characters were read; the others wrote
      nothing. */
  predicate Reading(s: State, p: string, k: nat) {
    && k <= |p| && s.clients != [] && s.clients[0] == Client(1, 0, Alive, p, k, p[..k], Running)
    && forall i :: 0 < i < |s.clients| ==> s.clients[i] == NewClient(i + 1, i)
  }

  lemma CollectPiece(p: string, k: nat, n: nat)
    requires k + n <= |p| && NulFree(p)
    ensures Collect(Client(1, 0, Alive, p, k, p[..k], Running), n) == Client(1, 0, Alive, p, k + n, p[..k + n], Running)
  {
    NextPiece(p, k, n, p[..k]);
    assert NulFree(p[..k + n]);
  }

  lemma SelectFirst(parse: Parser, s: State) returns (t: State)
    requires s.control.Blocked? && Placed(s.clients, s.control) && s.clients != [] && s.clients[0].fd == 0
    requires Readable(s.clients[0]) && !s.clients[0].process.Reaped?
    requires forall i :: 0 < i < |s.clients| ==> s.clients[i] == NewClient(i + 1, i)
    ensures LeadsTo(parse, s, t) && t == s.(control := Service([0]))
  {
    InWaitset(s.clients, 0);
    t := SelectOnly(parse, s, 0);
  }

  lemma NothingToReap(cs: seq<Client>)
    requires forall i :: 0 <= i < |cs| ==> cs[i].process.Alive?
    ensures Reap(cs) == cs
  {
  }

  lemma ServedFirst(parse: Parser, s: State, p: string, k: nat) returns (t: State)
    requires Good(parse, s) && s.control == Service([0]) && Reading(s, p, k) && NulFree(p)
    ensures LeadsTo(parse, s, t) && t.control == Service([]) && t.scanner == s.scanner
    ensures Reading(t, p, k + Piece(s.clients[0]))
  {
    var n := Piece(s.clients[0]);
    t := ServeClient(parse, s, 0);
    CollectPiece(p, k, n);
    NothingToReap(s.clients[0 := Collect(s.clients[0], n)]);
  }

  /** One piece is read, and the client goes on. */
  lemma ReadOn(parse: Parser, s: State, p: string, k: nat) returns (t: State)
    requires Good(parse, s) && s.control.Blocked? && Reading(s, p, k) && k < |p| && NulFree(p)
    ensures LeadsTo(parse, s, t) && Good(parse, t) && t.control.Blocked? && t.scanner == s.scanner
    ensures Reading(t, p, k + Piece(s.clients[0]))
  {
    var s1 := SelectFirst(parse, s);
    LeadsGood(parse, s, s1);
    var s2 := ServedFirst(parse, s1, p, k);
    LeadsGood(parse, s1, s2);
    t := BackToSelect(parse, s2);
    Onward(parse, s, s1, s2);
    Onward(parse, s, s2, t);
  }

  /** All but the last piece. */
  lemma {:induction false} ReadMost(parse: Parser, s: State, p: string, k: nat) returns (t: State, m: nat)
    requires Good(parse, s) && s.control.Blocked? && Reading(s, p, k) && k < |p| && NulFree(p)
    ensures LeadsTo(parse, s, t) && Good(parse, t) && t.control.Blocked? && t.scanner == s.scanner
    ensures Reading(t, p, m) && m < |p| <= m + STR_MAX_LEN
    decreases |p| - k
  {
    if |p| <= k + STR_MAX_LEN {
      Stays(parse, s);
      t, m := s, k;
    } else {
      var s1 := ReadOn(parse, s, p, k);
      t, m := ReadMost(parse, s1, p, k + STR_MAX_LEN);
      Onward(parse, s, s1, t);
    }
  }

  lemma EndFirst(parse: Parser, s: State, more: string) returns (t: State)
    requires s.clients != [] && s.clients[0].process.Alive?
    ensures LeadsTo(parse, s, t)
    ensures var c := s.clients[0];
            t == s.(clients := s.clients[0 := c.(written := c.written + more, process := Zombie(true))])
  {
    Stays(parse, s);
    Then(parse, s, s, Write(0, more));
    var s1 := Step(parse, s, Write(0, more));
    Then(parse, s, s1, ExitClient(0, true));
    t := Step(parse, s1, ExitClient(0, true));
  }

  lemma ReadRest(parse: Parser, s: State, p: string, k: nat) returns (t: State)
    requires Good(parse, s) && s.control == Service([0]) && Reading(s, p, k) && |p| <= k + STR_MAX_LEN && NulFree(p)
    ensures LeadsTo(parse, s, t) && t.control == Wait(0, []) && Reading(t, p, |p|) && t.scanner == s.scanner
  {
    SearchIs(s.clients, 0);
    CollectPiece(p, k, |p| - k);
    Stays(parse, s);
    Then(parse, s, s, Read);
    t := Step(parse, s, Read);
  }

  /** The last piece is read; then the client writes on and ends. */
  lemma ReadLast(parse: Parser, s: State, p: string, k: nat, more: string) returns (t: State)
    requires Good(parse, s) && s.control.Blocked? && Reading(s, p, k) && k < |p| <= k + STR_MAX_LEN && NulFree(p)
    ensures LeadsTo(parse, s, t) && Good(parse, t) && t.control == Wait(0, []) && t.clients != []
    ensures t.scanner == s.scanner
    ensures t.clients[0] == Client(1, 0, Zombie(true), p + more, |p|, p, Running)
  {
    var s1 := SelectFirst(parse, s);
    LeadsGood(parse, s, s1);
    var s2 := ReadRest(parse, s1, p, k);
    assert p[..|p|] == p;
    t := EndFirst(parse, s2, more);
    Onward(parse, s, s1, s2);
    Onward(parse, s, s2, t);
    LeadsGood(parse, s, t);
  }

  lemma JudgeFirst(parse: Parser, s: State, boot: Bentry) returns (t: State)
    requires Good(parse, s) && s.control == Wait(0, []) && s.clients != [] && s.clients[0].process == Zombie(true)
    requires parse(s.scanner, s.clients[0].collected).0 == Some(boot)
    ensures LeadsTo(parse, s, t) && Answered(t) && ScannedIn(t) == s.scanner
    ensures Answer(t) == boot && Source(t) == s.clients[0].written
  {
    t := Judged(parse, s);
  }

  lemma AnswerAfterText(parse: Parser, init: State, p: string, more: string, boot: Bentry) returns (t: State)
    requires Initial(init) && |init.config.uis| > 0 && NulFree(p) && p != ""
    requires parse(init.scanner, p).0 == Some(boot)
    ensures LeadsTo(parse, init, t) && Answered(t) && Answer(t) == boot && Source(t) == p + more
    ensures ScannedIn(t) == init.scanner
  {
    var s0 := Start(parse, init);
    Then(parse, init, s0, Write(0, p));
    var s1 := Step(parse, s0, Write(0, p));
    assert "" + p == p && p[..0] == "";
    LeadsGood(parse, init, s1);
    var s2, k := ReadMost(parse, s1, p, 0);
    var s3 := ReadLast(parse, s2, p, k, more);
    t := JudgeFirst(parse, s3, boot);
    Onward(parse, init, s1, s2);
    Onward(parse, init, s2, s3);
    Onward(parse, init, s3, t);
  }

  // ---------- nothing is read at all ----------

  lemma EndUnread(parse: Parser, init: State, more: string) returns (s: State)
    requires Initial(init) && |init.config.uis| > 0
    ensures LeadsTo(parse, init, s) && Good(parse, s) && s.control == Service([0]) && s.clients != []
    ensures s.scanner == init.scanner && s.clients[0] == Client(1, 0, Zombie(true), more, 0, "", Running)
  {
    var s0 := Start(parse, init);
    var s1 := EndFirst(parse, s0, more);
    Onward(parse, init, s0, s1);
    LeadsGood(parse, init, s1);
    assert "" + more == more;
    s := SelectFirst(parse, s1);
    Onward(parse, init, s1, s);
    LeadsGood(parse, init, s);
  }

  lemma FailAndJudge(parse: Parser, s: State, boot: Bentry) returns (t: State)
    requires Good(parse, s) && s.control == Service([0]) && s.clients != [] && parse(s.scanner, "").0 == Some(boot)
    requires s.clients[0].fd == 0 && s.clients[0].process == Zombie(true) && s.clients[0].collected == ""
    ensures LeadsTo(parse, Step(parse, s, ReadFails), t)
    ensures Answered(t) && ScannedIn(t) == s.scanner && Answer(t) == boot && Source(t) == s.clients[0].written
  {
    SearchIs(s.clients, 0);
    GoodStep(parse, s, ReadFails);
    t := JudgeFirst(parse, Step(parse, s, ReadFails), boot);
  }

  /** A read that fails leaves the collected text empty. */
  lemma AnswerWithoutText(parse: Parser, init: State, more: string, boot: Bentry) returns (actions: seq<Action>)
    requires Initial(init) && |init.config.uis| > 0 && parse(init.scanner, "").0 == Some(boot)
    ensures var s := Run(parse, init, actions);
            Answered(s) && ScannedIn(s) == init.scanner && Answer(s) == boot && Source(s) == more
  {
    var s := EndUnread(parse, init, more);
    var t := FailAndJudge(parse, s, boot);
    actions := Joined(parse, init, s, ReadFails, t);
  }

  lemma Joined(parse: Parser, s: State, t: State, a: Action, u: State) returns (actions: seq<Action>)
    requires LeadsTo(parse, s, t) && LeadsTo(parse, Step(parse, t, a), u)
    ensures Run(parse, s, actions) == u
  {
    var before :| Calm(before) && Run(parse, s, before) == t;
    var after :| Calm(after) && Run(parse, Step(parse, t, a), after) == u;
    actions := before + ([a] + after);
    assert ([a] + after)[1..] == after;
    RunConcat(parse, s, before, [a] + after);
  }

  // ---------- every beginning can be the one that counts ----------

  /** Whatever a client writes after a text that parses can be lost. */
  lemma AnswerFromPrefix(parse: Parser, init: State, p: string, more: string, boot: Bentry)
    returns (actions: seq<Action>)
    requires Initial(init) && |init.config.uis| > 0 && NulFree(p) && parse(init.scanner, p).0 == Some(boot)
    ensures var s := Run(parse, init, actions);
            Answered(s) && ScannedIn(s) == init.scanner && Answer(s) == boot && Source(s) == p + more
  {
    if p == "" {
      actions := AnswerWithoutText(parse, init, more, boot);
      assert "" + more == more;
    } else {
      var t := AnswerAfterText(parse, init, p, more, boot);
      actions :| Calm(actions) && Run(parse, init, actions) == t;
    }
  }

  /** The client writes all of `w`, and `p` is what counts. */
  lemma AnswerFromPart(parse: Parser, init: State, w: string, p: string) returns (actions: seq<Action>)
    requires Initial(init) && |init.config.uis| > 0 && NulFree(w) && p <= w && parse(init.scanner, p).0.Some?
    ensures var s := Run(parse, init, actions);
            && Answered(s) && ScannedIn(s) == init.scanner
            && Answer(s) == parse(init.scanner, p).0.value && Source(s) == w
  {
    assert NulFree(p) && p + w[|p|..] == w by {
      assert forall c :: c in p ==> c in w;
    }
    actions := AnswerFromPrefix(parse, init, p, w[|p|..], parse(init.scanner, p).0.value);
  }

  lemma AnswerIsPrefix(parse: Parser, init: State, actions: seq<Action>)
    requires Initial(init)
    ensures var s := Run(parse, init, actions);
            Answered(s) && NulFree(Source(s)) ==>
              exists p :: p <= Source(s) && parse(ScannedIn(s), p).0 == Some(Answer(s))
  {
    AnswerIsJustified(parse, init, actions);
    var s := Run(parse, init, actions);
    if Answered(s) && NulFree(Source(s)) {
      var p := s.clients[s.control.origin.cnr].collected;
      assert p <= Source(s) && parse(ScannedIn(s), p).0 == Some(Answer(s));
    }
  }

  /** The text `w` gives the same answer, however much of it is read. */
  ghost predicate Whole(parse: Parser, w: string) {
    forall flex, p :: p <= w && parse(flex, p).0.Some? ==> parse(flex, p).0 == parse(flex, w).0
  }

  /** Whatever the configuration left in the scanner: an answer is the parse of all that
      its client wrote, in every run, exactly if every beginning of the text that parses
      at all parses to the same. */
  lemma AnswerIsComplete(parse: Parser, init: State, w: string)
    requires Initial(init) && |init.config.uis| > 0 && NulFree(w)
    ensures (forall flex, actions :: var s := Run(parse, init.(scanner := flex), actions);
               Answered(s) && Source(s) == w ==> Some(Answer(s)) == parse(ScannedIn(s), w).0)
       <==> Whole(parse, w)
  {
    if Whole(parse, w) {
      forall flex, actions ensures var s := Run(parse, init.(scanner := flex), actions);
                                   Answered(s) && Source(s) == w ==> Some(Answer(s)) == parse(ScannedIn(s), w).0 {
        AnswerIsPrefix(parse, init.(scanner := flex), actions);
      }
    } else {
      var flex, p :| p <= w && parse(flex, p).0.Some? && parse(flex, p).0 != parse(flex, w).0;
      var actions := AnswerFromPart(parse, init.(scanner := flex), w, p);
      assert Answered(Run(parse, init.(scanner := flex), actions));
    }
  }
}
