/**
 What a running client can give, in terms of the characters it has written, and the
 case of a single client (core/ui_control.c).
 */
module UiChanceTexts {
  import opened CText
  import opened UiControl
  import opened UiRuns
  import opened UiChances
  import opened UiChancePlan
  import opened UiChanceRuns

  /** What is read of a pipe in `n` rounds in which no NUL is read: a part of what is
      unread already, or all of it and something more. */
  predicate ReadIn(unread: string, n: nat, x: string) {
    && NulFree(x)
    && if STR_MAX_LEN * n < |unread| then x == unread[..STR_MAX_LEN * n]
       else unread <= x && |x| <= STR_MAX_LEN * n
  }

  lemma {:induction false} CStringNulFree(s: string)
    ensures NulFree(CString(s)) && |CString(s)| <= |s|
  {
    if s != "" && s[0] != '\0' {
      CStringNulFree(s[1..]);
    }
  }

  lemma {:induction false} CStringAppend(s: string, t: string)
    requires NulFree(s)
    ensures CString(s + t) == s + CString(t)
  {
    if s == "" {
      assert s + t == t;
    } else {
      assert (s + t)[1..] == s[1..] + t;
      assert s[0] in s && forall c :: c in s[1..] ==> c in s;
      CStringAppend(s[1..], t);
    }
  }

  /** A read, when at least `v` is unread. */
  lemma PieceStarts(unread: string, v: string, n: nat)
    requires n == if |unread| <= STR_MAX_LEN then |unread| else STR_MAX_LEN
    requires v <= unread && NulFree(v)
    ensures if |v| > STR_MAX_LEN then
              unread[..n] == v[..STR_MAX_LEN] && NulFree(v[..STR_MAX_LEN]) && NulFree(v[STR_MAX_LEN..])
              && v[STR_MAX_LEN..] <= unread[n..]
            else v <= CString(unread[..n]) && |CString(unread[..n])| <= STR_MAX_LEN && NulFree(CString(unread[..n]))
  {
    var piece := unread[..n];
    if |v| > STR_MAX_LEN {
      assert piece == v[..n];
      assert forall c :: c in v[..n] ==> c in v;
      assert forall c :: c in v[n..] ==> c in v;
    } else {
      CStringNulFree(piece);
      assert piece == v + piece[|v|..];
      CStringAppend(v, piece[|v|..]);
    }
  }

  lemma UnreadGrown(c: Client, more: string)
    requires c.taken <= |c.written|
    ensures var g, d := Grown(c, more), OneRound(c, more);
            && g.written[g.taken..] == c.written[c.taken..] + more
            && g.written[g.taken..g.taken + Piece(g)] == (c.written[c.taken..] + more)[..Piece(g)]
            && d.written[d.taken..] == (c.written[c.taken..] + more)[Piece(g)..]
  {
  }

  /** One round, when at least `v` is unread. */
  lemma PieceRead(c: Client, more: string, v: string) returns (x: string, w: string)
    requires c.taken <= |c.written| && v <= c.written[c.taken..] && NulFree(v)
    ensures var d := OneRound(c, more);
            d.collected == c.collected + x && w <= d.written[d.taken..] && NulFree(w)
    ensures if |v| > STR_MAX_LEN then x == v[..STR_MAX_LEN] && w == v[STR_MAX_LEN..]
            else v <= x && |x| <= STR_MAX_LEN && NulFree(x) && w == ""
  {
    var unread, n := c.written[c.taken..] + more, Piece(Grown(c, more));
    UnreadGrown(c, more);
    PieceStarts(unread, v, n);
    x, w := CString(unread[..n]), "";
    if |v| > STR_MAX_LEN {
      CStringWhole(v[..STR_MAX_LEN]);
      w := v[STR_MAX_LEN..];
    }
  }

  lemma ReadInThen(v: string, n: nat, x: string, w: string, y: string)
    requires NulFree(v) && ReadIn(w, n, y)
    requires if |v| > STR_MAX_LEN then x == v[..STR_MAX_LEN] && w == v[STR_MAX_LEN..]
             else v <= x && |x| <= STR_MAX_LEN && NulFree(x) && w == ""
    ensures ReadIn(v, n + 1, x + y)
  {
    if |v| > STR_MAX_LEN {
      assert v == x + w && NulFree(x);
    }
  }

  lemma RoundsNext(c: Client, mores: seq<string>, d: Client, from: string, x: string)
    requires c.taken <= |c.written| && mores != [] && d == OneRound(c, mores[0]) && from == d.collected
    requires Rounds(d, mores[1..]).collected == from + x
    ensures Rounds(c, mores).collected == from + x
  {
  }

  lemma {:induction false} RoundsRead(c: Client, mores: seq<string>, v: string) returns (x: string)
    requires c.taken <= |c.written| && v <= c.written[c.taken..] && NulFree(v)
    ensures Rounds(c, mores).collected == c.collected + x && ReadIn(v, |mores|, x)
    decreases |mores|
  {
    if mores == [] {
      x := "";
    } else {
      var d := OneRound(c, mores[0]);
      var y, w := PieceRead(c, mores[0], v);
      var z := RoundsRead(d, mores[1..], w);
      ReadInThen(v, |mores| - 1, y, w, z);
      x := y + z;
      RoundsNext(c, mores, d, c.collected + y, z);
      assert c.collected + y + z == c.collected + x;
    }
  }

  function Silent(n: nat): (mores: seq<string>)
    ensures |mores| == n
  {
    seq(n, _ => "")
  }

  lemma SilentRound(c: Client, r: string) returns (k: nat)
    requires c.taken <= |c.written| && r == c.written[c.taken..] && NulFree(r)
    ensures k == if |r| <= STR_MAX_LEN then |r| else STR_MAX_LEN
    ensures var d := OneRound(c, ""); d.collected == c.collected + r[..k] && d.written[d.taken..] == r[k..]
    ensures NulFree(r[k..])
  {
    k := if |r| <= STR_MAX_LEN then |r| else STR_MAX_LEN;
    assert c.written + "" == c.written;
    assert c.written[c.taken..c.taken + k] == r[..k] && NulFree(r[..k]) && NulFree(r[k..]);
    CStringWhole(r[..k]);
  }

  /** As much of a text as `n` rounds read. */
  function ReadPart(r: string, n: nat): string {
    if STR_MAX_LEN * n < |r| then r[..STR_MAX_LEN * n] else r
  }

  lemma ReadPartNext(r: string, n: nat, k: nat)
    requires n > 0 && k == if |r| <= STR_MAX_LEN then |r| else STR_MAX_LEN
    ensures ReadPart(r, n) == r[..k] + ReadPart(r[k..], n - 1)
  {
    assert r == r[..k] + r[k..];
  }

  /** A client that writes nothing more. */
  lemma {:induction false} SilentRounds(c: Client, r: string, n: nat)
    requires c.taken <= |c.written| && r == c.written[c.taken..] && NulFree(r)
    ensures Rounds(c, Silent(n)).collected == c.collected + ReadPart(r, n)
    decreases n
  {
    if n == 0 {
      assert ReadPart(r, 0) == "";
    } else {
      var d := OneRound(c, "");
      var k := SilentRound(c, r);
      assert Silent(n)[1..] == Silent(n - 1);
      SilentRounds(d, r[k..], n - 1);
      ReadPartNext(r, n, k);
      assert c.collected + r[..k] + ReadPart(r[k..], n - 1) == c.collected + ReadPart(r, n);
    }
  }

  lemma WrittenBefore(c: Client, more: string)
    requires c.taken <= |c.written|
    ensures OneRound(c, more) == OneRound(Grown(c, more), "")
  {
    assert Grown(Grown(c, more), "") == Grown(c, more) by {
      assert c.written + more + "" == c.written + more;
    }
  }

  /** A client that writes at once what it still writes. */
  lemma FirstWrites(c: Client, more: string, n: nat)
    requires c.taken <= |c.written| && n > 0
    ensures Rounds(c, [more] + Silent(n - 1)) == Rounds(Grown(c, more), Silent(n))
  {
    var rest, g := Silent(n - 1), Grown(c, more);
    WrittenBefore(c, more);
    RoundsThen(c, more, rest);
    RoundsThen(g, "", rest);
    SilentNext(n);
  }

  lemma SilentNext(n: nat)
    requires n > 0
    ensures Silent(n) == [""] + Silent(n - 1)
  {
  }

  lemma ReadInPart(unread: string, n: nat, x: string, more: string)
    requires ReadIn(unread, n, x) && NulFree(unread)
    requires more == if STR_MAX_LEN * n < |unread| then "" else x[|unread|..]
    ensures ReadPart(unread + more, n) == x && NulFree(unread + more)
  {
    assert unread + "" == unread;
  }

  lemma ReadInGiven(c: Client, n: nat, x: string)
    requires c.taken <= |c.written| && n > 0 && ReadIn(c.written[c.taken..], n, x) && NulFree(c.written[c.taken..])
    ensures CanGive(c, n, c.collected + x)
  {
    var unread := c.written[c.taken..];
    var more := if STR_MAX_LEN * n < |unread| then "" else x[|unread|..];
    ReadInPart(unread, n, x, more);
    UnreadGrown(c, more);
    SilentRounds(Grown(c, more), unread + more, n);
    FirstWrites(c, more, n);
    assert |[more] + Silent(n - 1)| == n;
  }

  /** As long as no NUL is unread: in `n` rounds a running client can give exactly what was
      collected before, followed by all that is unread and anything more, or by a part of it
      that fills the reads. */
  lemma CanGiveExactly(c: Client, n: nat, text: string)
    requires c.taken <= |c.written| && NulFree(c.written[c.taken..]) && n > 0
    ensures CanGive(c, n, text) <==> exists x :: ReadIn(c.written[c.taken..], n, x) && text == c.collected + x
  {
    if CanGive(c, n, text) {
      var mores {:trigger Rounds(c, mores)} :| |mores| == n && Rounds(c, mores).collected == text;
      var x := RoundsRead(c, mores, c.written[c.taken..]);
    }
    if x :| ReadIn(c.written[c.taken..], n, x) && text == c.collected + x {
      ReadInGiven(c, n, x);
    }
  }

  lemma {:induction false} CollectedStays(c: Client, mores: seq<string>)
    requires c.taken <= |c.written|
    ensures c.collected <= Rounds(c, mores).collected
    decreases |mores|
  {
    if mores != [] {
      CollectedStays(OneRound(c, mores[0]), mores[1..]);
    }
  }

  /** The controller is on the way to select(). */
  predicate BeforeSelect(s: State) {
    s.control.Build? || s.control.Arm? || s.control.Select? || s.control.Blocked? || s.control.Interrupted?
  }

  /** If no client has ended that was not reaped: a client can answer exactly if there is a
      schedule in which running clients end one after the other, and all but its text are
      rejected. */
  lemma ScheduleExactly(parse: Parser, s: State, i: nat)
    requires Good(parse, s) && BeforeSelect(s) && NoneEnded(s.clients)
    ensures CanAnswer(parse, s, i) <==> exists chances :: OneByOne(parse, s.clients, s.scanner, chances, i)
  {
    if CanAnswer(parse, s, i) {
      var chances :| AnswersWith(parse, s, chances, i);
      var all := NextIsFree(parse, s.clients, s.scanner, chances, i);
    }
    if chances :| OneByOne(parse, s.clients, s.scanner, chances, i) {
      var fds := AllReports(Plan(s.clients, chances), Waitset(Plan(s.clients, chances)));
      PlanGoes(parse, s.clients, s.scanner, chances, fds, i);
      assert AnswersWith(parse, s, Strip(chances), i);
    }
  }

  lemma OnlyOneGives(parse: Parser, cs: seq<Client>, scanner: Flex, chances: seq<Chance>)
    requires |cs| == 1 && OneByOne(parse, cs, scanner, chances, 0)
    ensures |chances| == 1 && Possible(cs, chances[0])
    ensures parse(scanner, Rounds(cs[0], chances[0].mores).collected).0.Some?
  {
    assert Possible(cs, chances[0]) && (|chances| > 1 ==> Possible(cs, chances[1]));
  }

  lemma OnlyOneAnswers(parse: Parser, cs: seq<Client>, scanner: Flex, mores: seq<string>)
    requires |cs| == 1 && cs[0].process.Alive? && cs[0].taken <= |cs[0].written| && mores != []
    requires parse(scanner, Rounds(cs[0], mores).collected).0.Some?
    ensures OneByOne(parse, cs, scanner, [Chance(0, mores)], 0)
  {
    assert Possible(cs, Chance(0, mores));
  }

  /** A single client that is running can answer exactly if some text that it can give is
      accepted. */
  lemma OnlyClientAnswers(parse: Parser, s: State)
    requires Good(parse, s) && BeforeSelect(s) && |s.clients| == 1 && s.clients[0].process.Alive?
    ensures s.clients[0].taken <= |s.clients[0].written|
    ensures CanAnswer(parse, s, 0)
       <==> exists n: nat, text :: n > 0 && CanGive(s.clients[0], n, text) && parse(s.scanner, text).0.Some?
  {
    var cs := s.clients;
    assert cs[0] in cs && Consistent(cs[0]);
    ScheduleExactly(parse, s, 0);
    if chances: seq<Chance> :| OneByOne(parse, cs, s.scanner, chances, 0) {
      OnlyOneGives(parse, cs, s.scanner, chances);
      var mores := chances[0].mores;
      assert CanGive(cs[0], |mores|, Rounds(cs[0], mores).collected);
    }
    if n: nat, text :| n > 0 && CanGive(cs[0], n, text) && parse(s.scanner, text).0.Some? {
      var mores {:trigger Rounds(cs[0], mores)} :| |mores| == n && Rounds(cs[0], mores).collected == text;
      OnlyOneAnswers(parse, cs, s.scanner, mores);
    }
  }

  /** No other client can answer then. */
  lemma NoOtherClient(parse: Parser, s: State, i: nat)
    requires Good(parse, s) && InLoop(s.control) && i >= |s.clients|
    ensures !CanAnswer(parse, s, i)
  {
    if CanAnswer(parse, s, i) {
      var t := RunAnswer(parse, s, i);
      var actions :| Calm(actions) && Run(parse, s, actions) == t;
      SameClients(parse, s, actions);
      GoodRun(parse, s, actions);
      assert false;
    }
  }

  lemma {:induction false} SameClients(parse: Parser, s: State, actions: seq<Action>)
    requires Run(parse, s, actions).calls == s.calls && Good(parse, s)
    ensures |Run(parse, s, actions).clients| == |s.clients|
    decreases |actions|
  {
    if actions != [] {
      SameCall(parse, s, actions);
      GoodStep(parse, s, actions[0]);
      ClientsStep(parse, s, actions[0]);
      SameClients(parse, Step(parse, s, actions[0]), actions[1..]);
    }
  }
}
