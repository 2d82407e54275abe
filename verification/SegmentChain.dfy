/**
 The chain of segment tables of a boot map component, described without a loop:
 all code slots in chain order, up to the first pointer that tests as null.
 A `View` is what the walk can learn about a disk, so that the description does
 not depend on the pointer layout.
 */
module SegmentChain {

  datatype View<!P> = View(readable: P -> bool, slots: P -> seq<P>, isNull: P -> bool) {

    /** The slots of a table that hold code pointers: all but the last one. */
    function CodeSlots(table: P): seq<P> {
      if !readable(table) || |slots(table)| < 2 then [] else slots(table)[..|slots(table)| - 1]
    }

    /** The last slot links to the next table. */
    function Link(table: P): P
      requires |slots(table)| > 0
    {
      slots(table)[|slots(table)| - 1]
    }

    /** The walk gets past the end of `table`: every code pointer in it can be
        read and none tests as null, and neither does the link. The very first
        code pointer of a component is loaded without a null test. */
    predicate PassesThrough(table: P, first: bool) {
      && readable(table) && |slots(table)| >= 2
      && (forall k :: 0 <= k < |CodeSlots(table)| ==> Passes(CodeSlots(table)[k], first && k == 0))
      && !isNull(Link(table))
    }

    predicate Passes(code: P, exempt: bool) {
      readable(code) && (exempt || !isNull(code))
    }

    /** The walk starting at `table` ends after at most `hops` links. Nothing in
        the source bounds it: there is no cycle check. */
    predicate Ends(table: P, first: bool, hops: nat)
      decreases hops
    {
      PassesThrough(table, first) ==> hops > 0 && Ends(Link(table), false, hops - 1)
    }

    /** The segment tables in chain order. */
    function Chain(table: P, first: bool, hops: nat): (tables: seq<P>)
      ensures |tables| > 0 && tables[0] == table
      decreases hops
    {
      [table] + if PassesThrough(table, first) && hops > 0 then Chain(Link(table), false, hops - 1) else []
    }

    function Flat(tables: seq<P>): seq<P> {
      if tables == [] then [] else CodeSlots(tables[0]) + Flat(tables[1..])
    }

    /** The pointers before the first one that tests as null. */
    function Cut(ptrs: seq<P>): seq<P> {
      if ptrs == [] || isNull(ptrs[0]) then [] else [ptrs[0]] + Cut(ptrs[1..])
    }

    function CodePtrs(ptrs: seq<P>): seq<P> {
      if ptrs == [] then [] else [ptrs[0]] + Cut(ptrs[1..])
    }

    predicate AllReadable(ptrs: seq<P>) {
      forall k :: 0 <= k < |ptrs| ==> readable(ptrs[k])
    }

    /** The code pointers of the component whose first table is `table`. */
    function Component(table: P, hops: nat): seq<P> {
      CodePtrs(Flat(Chain(table, true, hops)))
    }

    predicate Loadable(table: P, hops: nat) {
      AllReadable(Chain(table, true, hops)) && AllReadable(Component(table, hops))
    }

    // ---------- the walk, step by step ----------

    /** The walk from slot `entry` of table `at` on, allowed to follow `ahead` links. */
    function Walk(at: P, entry: nat, ahead: nat): (w: WalkResult<P>)
      requires entry + 1 < |slots(at)|
      decreases ahead, |slots(at)| - entry
    {
      var code, next := slots(at)[entry], slots(at)[entry + 1];
      if !readable(code) then Fails
      else if isNull(next) then Loads([code])
      else if entry + 2 < |slots(at)| then Walk(at, entry + 1, ahead).After(code)
      else if !readable(next) || |slots(next)| < 2 then Fails
      else if isNull(slots(next)[0]) then Loads([code])
      else if ahead == 0 then TooLong
      else Walk(next, 0, ahead - 1).After(code)
    }

    // ---------- the position of a walk ----------

    /** What is still ahead of the walk at slot `entry` of `table`. */
    ghost function Ahead(table: P, first: bool, entry: nat, hops: nat): seq<P>
      requires entry <= |CodeSlots(table)|
    {
      CodeSlots(table)[entry..] + Flat(Chain(table, first, hops)[1..])
    }

    /** The walk over `component` stands at `pos`. */
    ghost predicate Walking(component: P, hops: nat, pos: Position<P>) {
      var Position(at, first, entry, ahead, loaded) := pos;
      var chain := Chain(component, true, hops);
      && readable(at) && |slots(at)| >= 2 && entry <= |CodeSlots(at)|
      && entry <= |loaded| && (first <==> |loaded| == entry)
      && (forall k :: 0 <= k < entry ==> Passes(CodeSlots(at)[k], first && k == 0))
      && (forall k :: 0 <= k < |loaded| ==> Passes(loaded[k], k == 0))
      && Flat(chain) == loaded + Ahead(at, first, entry, ahead)
      && Ends(at, first, ahead)
      && (forall t :: t in Chain(at, first, ahead) ==> t in chain)
      && (forall t :: t in chain && !readable(t) ==> t in Chain(at, first, ahead))
    }
  }

  datatype WalkResult<P> = Loads(code: seq<P>) | Fails | TooLong {
    function After(first: P): WalkResult<P> {
      if Loads? then Loads([first] + code) else this
    }

    function AfterAll(before: seq<P>): WalkResult<P> {
      if Loads? then Loads(before + code) else this
    }
  }

  /** The walk is at slot `entry` of table `at`, having loaded `loaded`; `first`
      says that `at` is the component's first table, and at most `ahead` links
      are still to be followed. */
  datatype Position<P> = Position(at: P, first: bool, entry: nat, ahead: nat, loaded: seq<P>)

  // ---------- termination ----------

  /** A walk that comes back to a table it has passed never ends. */
  lemma {:induction false} CycleNeverEnds<P>(v: View<P>, cycle: seq<P>, i: nat, hops: nat)
    requires i < |cycle|
    requires forall k :: 0 <= k < |cycle| ==>
               v.PassesThrough(cycle[k], false) && v.Link(cycle[k]) == cycle[(k + 1) % |cycle|]
    ensures !v.Ends(cycle[i], false, hops)
    decreases hops
  {
    if hops > 0 {
      CycleNeverEnds(v, cycle, (i + 1) % |cycle|, hops - 1);
    }
  }

  /** Any rank that decreases along the links bounds the walk. */
  lemma {:induction false} RankEnds<P(!new)>(v: View<P>, table: P, first: bool, rank: P -> nat)
    requires forall t, f :: v.PassesThrough(t, f) ==> rank(v.Link(t)) < rank(t)
    ensures v.Ends(table, first, rank(table))
    decreases rank(table)
  {
    if v.PassesThrough(table, first) {
      RankEnds(v, v.Link(table), false, rank);
      EndsMore(v, v.Link(table), false, rank(v.Link(table)), rank(table) - 1);
    }
  }

  /** The description of a component does not depend on the bound. */
  lemma {:induction false} EndsMore<P>(v: View<P>, table: P, first: bool, m: nat, n: nat)
    requires v.Ends(table, first, m) && m <= n
    ensures v.Ends(table, first, n)
    ensures v.Chain(table, first, m) == v.Chain(table, first, n)
    decreases m
  {
    if v.PassesThrough(table, first) {
      EndsMore(v, v.Link(table), false, m - 1, n - 1);
    }
  }

  // ---------- cutting at the first null pointer ----------

  lemma SplitFirst<P>(a: seq<P>, b: seq<P>)
    requires |a| > 0
    ensures (a + b)[0] == a[0] && (a + b)[1..] == a[1..] + b
    ensures [a[0]] + (a[1..] + b) == a + b
  {
  }

  /** Nothing is cut before a run of pointers that do not test as null. */
  lemma {:induction false} CutAfter<P>(v: View<P>, loaded: seq<P>, rest: seq<P>)
    requires forall k :: 0 <= k < |loaded| ==> !v.isNull(loaded[k])
    ensures v.Cut(loaded + rest) == loaded + v.Cut(rest)
  {
    if loaded == [] {
      assert loaded + rest == rest;
    } else {
      CutAfter(v, loaded[1..], rest);
      SplitFirst(loaded, rest);
      SplitFirst(loaded, v.Cut(rest));
    }
  }

  lemma CodePtrsAfter<P>(v: View<P>, loaded: seq<P>, rest: seq<P>)
    requires |loaded| > 0 && forall k :: 0 <= k < |loaded| ==> v.Passes(loaded[k], k == 0)
    ensures v.CodePtrs(loaded + rest) == loaded + v.Cut(rest)
  {
    forall k | 0 <= k < |loaded[1..]| ensures !v.isNull(loaded[1..][k]) {
      assert loaded[1..][k] == loaded[k + 1] && v.Passes(loaded[k + 1], false);
    }
    CutAfter(v, loaded[1..], rest);
    SplitFirst(loaded, rest);
    SplitFirst(loaded, v.Cut(rest));
  }

  // ---------- the steps of a walk ----------

  lemma WalkStart<P>(v: View<P>, component: P, hops: nat)
    requires v.readable(component) && |v.slots(component)| >= 2 && v.Ends(component, true, hops)
    ensures v.Walking(component, hops, Position(component, true, 0, hops, []))
  {
    assert v.CodeSlots(component) == v.CodeSlots(component)[0..];
  }

  /** The pointer the walk is about to load belongs to the component. */
  lemma WalkNext<P>(v: View<P>, component: P, hops: nat, pos: Position<P>, code: P)
    requires v.Walking(component, hops, pos)
    requires pos.entry + 1 < |v.slots(pos.at)| && code == v.slots(pos.at)[pos.entry]
    requires |pos.loaded| > 0 ==> !v.isNull(code)
    ensures !v.readable(code) ==> !v.Loadable(component, hops)
  {
    var rest := v.Ahead(pos.at, pos.first, pos.entry, pos.ahead);
    var code := v.CodeSlots(pos.at)[pos.entry];
    assert rest[0] == code;
    var all := v.Component(component, hops);
    if |pos.loaded| > 0 {
      CodePtrsAfter(v, pos.loaded, rest);
      assert v.Cut(rest)[0] == code;
      assert all[|pos.loaded|] == code;
    } else {
      assert pos.loaded + rest == rest;
      assert all[0] == code;
    }
  }

  lemma AdvancePasses<P>(v: View<P>, pos: Position<P>, code: P)
    requires pos.entry < |v.CodeSlots(pos.at)| && code == v.CodeSlots(pos.at)[pos.entry]
    requires pos.entry <= |pos.loaded| && (pos.first <==> |pos.loaded| == pos.entry)
             && v.Passes(code, |pos.loaded| == 0)
    requires forall k :: 0 <= k < pos.entry ==> v.Passes(v.CodeSlots(pos.at)[k], pos.first && k == 0)
    requires forall k :: 0 <= k < |pos.loaded| ==> v.Passes(pos.loaded[k], k == 0)
    ensures forall k :: 0 <= k < pos.entry + 1 ==> v.Passes(v.CodeSlots(pos.at)[k], pos.first && k == 0)
    ensures forall k :: 0 <= k < |pos.loaded + [code]| ==> v.Passes((pos.loaded + [code])[k], k == 0)
  {
  }

  lemma WalkAdvance<P>(v: View<P>, component: P, hops: nat, pos: Position<P>, code: P)
    requires v.Walking(component, hops, pos)
    requires pos.entry + 1 < |v.slots(pos.at)| && code == v.slots(pos.at)[pos.entry]
    requires v.Passes(code, |pos.loaded| == 0)
    ensures v.Walking(component, hops, pos.(entry := pos.entry + 1, loaded := pos.loaded + [code]))
  {
    var Position(at, first, entry, ahead, loaded) := pos;
    TakeOne(loaded, v.CodeSlots(at), entry, v.Flat(v.Chain(at, first, ahead)[1..]));
    AdvancePasses(v, pos, code);
  }

  lemma TakeOne<P>(loaded: seq<P>, slots: seq<P>, entry: nat, later: seq<P>)
    requires entry < |slots|
    ensures loaded + (slots[entry..] + later) == loaded + [slots[entry]] + (slots[entry + 1..] + later)
  {
  }

  lemma PassesHere<P>(v: View<P>, component: P, hops: nat, pos: Position<P>)
    requires v.Walking(component, hops, pos) && pos.entry + 1 == |v.slots(pos.at)|
    requires !v.isNull(v.slots(pos.at)[pos.entry])
    ensures v.PassesThrough(pos.at, pos.first) && pos.ahead > 0 && v.Link(pos.at) == v.slots(pos.at)[pos.entry]
  {
    assert v.PassesThrough(pos.at, pos.first);
  }

  lemma LinkInChain<P>(v: View<P>, at: P, first: bool, ahead: nat)
    requires v.PassesThrough(at, first) && ahead > 0
    ensures v.Link(at) in v.Chain(at, first, ahead)
  {
    var further := v.Chain(v.Link(at), false, ahead - 1);
    assert v.Link(at) == further[0] && further[0] in further;
  }

  lemma UnreadableTable<P>(v: View<P>, component: P, hops: nat, t: P)
    requires t in v.Chain(component, true, hops) && !v.readable(t)
    ensures !v.Loadable(component, hops)
  {
    var k :| 0 <= k < |v.Chain(component, true, hops)| && v.Chain(component, true, hops)[k] == t;
  }

  /** At the end of a table the walk has to go on to the linked table. */
  lemma WalkPasses<P>(v: View<P>, component: P, hops: nat, pos: Position<P>, next: P)
    requires v.Walking(component, hops, pos)
    requires pos.entry + 1 == |v.slots(pos.at)| && next == v.slots(pos.at)[pos.entry] && !v.isNull(next)
    ensures v.PassesThrough(pos.at, pos.first) && pos.ahead > 0
    ensures !v.readable(next) ==> !v.Loadable(component, hops)
  {
    PassesHere(v, component, hops, pos);
    LinkInChain(v, pos.at, pos.first, pos.ahead);
    assert next in v.Chain(component, true, hops);
    if !v.readable(next) {
      UnreadableTable(v, component, hops, next);
    }
  }

  lemma WalkLink<P>(v: View<P>, component: P, hops: nat, pos: Position<P>, next: P)
    requires v.Walking(component, hops, pos)
    requires pos.entry + 1 == |v.slots(pos.at)| && next == v.slots(pos.at)[pos.entry] && !v.isNull(next)
    requires v.readable(next) && |v.slots(next)| >= 2
    ensures pos.ahead > 0 && v.Walking(component, hops, Position(next, false, 0, pos.ahead - 1, pos.loaded))
  {
    WalkPasses(v, component, hops, pos, next);
    var Position(at, first, entry, ahead, loaded) := pos;
    var further := v.Chain(next, false, ahead - 1);
    assert v.Chain(at, first, ahead) == [at] + further;
    assert v.Chain(at, first, ahead)[1..] == further;
    assert v.CodeSlots(next)[0..] == v.CodeSlots(next);
    assert v.Ahead(at, first, entry, ahead) == v.Ahead(next, false, 0, ahead - 1);
  }

  /** At a pointer that tests as null nothing more is cut off the chain. */
  lemma NothingAhead<P>(v: View<P>, component: P, hops: nat, pos: Position<P>)
    requires v.Walking(component, hops, pos)
    requires |pos.loaded| > 0 && pos.entry < |v.slots(pos.at)| && v.isNull(v.slots(pos.at)[pos.entry])
    ensures v.Chain(pos.at, pos.first, pos.ahead) == [pos.at]
    ensures v.Cut(v.Ahead(pos.at, pos.first, pos.entry, pos.ahead)) == []
  {
    var Position(at, first, entry, ahead, loaded) := pos;
    var slots, rest := v.CodeSlots(at), v.Ahead(at, first, entry, ahead);
    if entry < |slots| {
      assert rest[0] == slots[entry] == v.slots(at)[entry];
      assert !v.Passes(slots[entry], first && entry == 0);
    }
    assert !v.PassesThrough(at, first);
  }

  /** At a pointer that tests as null the whole component has been loaded. */
  lemma WalkStop<P>(v: View<P>, component: P, hops: nat, pos: Position<P>)
    requires v.Walking(component, hops, pos)
    requires |pos.loaded| > 0 && pos.entry < |v.slots(pos.at)| && v.isNull(v.slots(pos.at)[pos.entry])
    ensures v.Loadable(component, hops) && v.Component(component, hops) == pos.loaded
  {
    NothingAhead(v, component, hops, pos);
    CodePtrsAfter(v, pos.loaded, v.Ahead(pos.at, pos.first, pos.entry, pos.ahead));
    var chain := v.Chain(component, true, hops);
    forall k | 0 <= k < |chain| ensures v.readable(chain[k]) {
      assert chain[k] in chain;
    }
    assert forall k :: 0 <= k < |pos.loaded| ==> v.Passes(pos.loaded[k], k == 0);
  }

  /** The walk that has loaded `loaded` and goes on as `w` does what the
      description of the component says. */
  ghost predicate Right<P>(v: View<P>, component: P, hops: nat, loaded: seq<P>, w: WalkResult<P>) {
    match w
    case Loads(code) => v.Loadable(component, hops) && v.Component(component, hops) == loaded + code
    case Fails => !v.Loadable(component, hops)
    case TooLong => false
  }

  lemma RightAfter<P>(v: View<P>, component: P, hops: nat, loaded: seq<P>, code: P, w: WalkResult<P>)
    requires Right(v, component, hops, loaded + [code], w)
    ensures Right(v, component, hops, loaded, w.After(code))
  {
    if w.Loads? {
      assert loaded + ([code] + w.code) == loaded + [code] + w.code;
    }
  }

  /** The walk at the pointer that ends a table. */
  function Over<P>(v: View<P>, next: P, ahead: nat): WalkResult<P> {
    if !v.readable(next) || |v.slots(next)| < 2 then Fails
    else if v.isNull(v.slots(next)[0]) then Loads([])
    else if ahead == 0 then TooLong
    else v.Walk(next, 0, ahead - 1)
  }

  lemma WalkUnfolds<P>(v: View<P>, at: P, entry: nat, ahead: nat)
    requires entry + 1 < |v.slots(at)|
    ensures var code, next := v.slots(at)[entry], v.slots(at)[entry + 1];
            v.Walk(at, entry, ahead)
            == if !v.readable(code) then Fails
               else if v.isNull(next) then Loads([code])
               else if entry + 2 < |v.slots(at)| then v.Walk(at, entry + 1, ahead).After(code)
               else Over(v, next, ahead).After(code)
  {
  }

  lemma {:induction false} WalkOver<P>(v: View<P>, component: P, hops: nat, pos: Position<P>, next: P)
    requires v.Walking(component, hops, pos) && |pos.loaded| > 0
    requires pos.entry + 1 == |v.slots(pos.at)| && next == v.slots(pos.at)[pos.entry] && !v.isNull(next)
    requires forall t :: v.readable(t) ==> |v.slots(t)| >= 2
    ensures Right(v, component, hops, pos.loaded, Over(v, next, pos.ahead))
    decreases pos.ahead, 0
  {
    WalkPasses(v, component, hops, pos, next);
    if v.readable(next) {
      WalkLink(v, component, hops, pos, next);
      var linked := Position(next, false, 0, pos.ahead - 1, pos.loaded);
      if v.isNull(v.slots(next)[0]) {
        WalkStop(v, component, hops, linked);
        assert pos.loaded + [] == pos.loaded;
      } else {
        WalkFrom(v, component, hops, linked);
      }
    }
  }

  lemma {:induction false} WalkFrom<P>(v: View<P>, component: P, hops: nat, pos: Position<P>)
    requires v.Walking(component, hops, pos) && pos.entry + 1 < |v.slots(pos.at)|
    requires |pos.loaded| > 0 ==> !v.isNull(v.slots(pos.at)[pos.entry])
    requires forall t :: v.readable(t) ==> |v.slots(t)| >= 2
    ensures Right(v, component, hops, pos.loaded, v.Walk(pos.at, pos.entry, pos.ahead))
    decreases pos.ahead, |v.slots(pos.at)| - pos.entry
  {
    var code, next := v.slots(pos.at)[pos.entry], v.slots(pos.at)[pos.entry + 1];
    WalkUnfolds(v, pos.at, pos.entry, pos.ahead);
    WalkNext(v, component, hops, pos, code);
    if v.readable(code) {
      WalkAdvance(v, component, hops, pos, code);
      var stepped := pos.(entry := pos.entry + 1, loaded := pos.loaded + [code]);
      if v.isNull(next) {
        WalkStop(v, component, hops, stepped);
      } else if pos.entry + 2 < |v.slots(pos.at)| {
        WalkFrom(v, component, hops, stepped);
        RightAfter(v, component, hops, pos.loaded, code, v.Walk(pos.at, pos.entry + 1, pos.ahead));
      } else {
        WalkOver(v, component, hops, stepped, next);
        RightAfter(v, component, hops, pos.loaded, code, Over(v, next, pos.ahead));
      }
    }
  }

  /** Step by step the walk loads exactly the component described above, and
      fails exactly if something on the component's chain cannot be read. */
  lemma WalkLoadsComponent<P>(v: View<P>, component: P, hops: nat)
    requires v.readable(component) && v.Ends(component, true, hops)
    requires forall t :: v.readable(t) ==> |v.slots(t)| >= 2
    ensures v.Walk(component, 0, hops)
         == if v.Loadable(component, hops) then Loads(v.Component(component, hops)) else Fails
  {
    WalkStart(v, component, hops);
    WalkFrom(v, component, hops, Position(component, true, 0, hops, []));
  }

  /** `all` is the result of the whole walk when it has loaded `loaded` and slot
      `entry` of table `at` comes next. */
  ghost predicate Pending<P>(v: View<P>, at: P, entry: nat, ahead: nat, loaded: seq<P>, all: WalkResult<P>)
    requires entry < |v.slots(at)|
  {
    var next := v.slots(at)[entry];
    if v.isNull(next) then all == Loads(loaded)
    else if entry + 1 < |v.slots(at)| then all == v.Walk(at, entry, ahead).AfterAll(loaded)
    else if !v.readable(next) || |v.slots(next)| < 2 then all == Fails
    else if v.isNull(v.slots(next)[0]) then all == Loads(loaded)
    else if ahead == 0 then all == TooLong
    else all == v.Walk(next, 0, ahead - 1).AfterAll(loaded)
  }

  /** What loading one code pointer does to the result of the whole walk. */
  lemma WalkStep<P(!new)>(v: View<P>, at: P, entry: nat, ahead: nat, loaded: seq<P>, all: WalkResult<P>)
    requires entry + 1 < |v.slots(at)| && all == v.Walk(at, entry, ahead).AfterAll(loaded)
    ensures var code := v.slots(at)[entry];
            if !v.readable(code) then all == Fails
            else Pending(v, at, entry + 1, ahead, loaded + [code], all)
  {
    var code := v.slots(at)[entry];
    forall w: WalkResult<P> ensures w.After(code).AfterAll(loaded) == w.AfterAll(loaded + [code]) {
      if w.Loads? {
        assert loaded + ([code] + w.code) == loaded + [code] + w.code;
      }
    }
  }
}
