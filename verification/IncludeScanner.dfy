/**
 Include files: the scanner switches between buffers with an explicit stack of
 bounded depth, and saves and restores the line number (core/sysload.conf.l).

 A file is a sequence of tokens, line ends and include statements. Whether the
 parser is active when the scanner meets an include statement is an arbitrary
 function of the tokens delivered so far.
 */
module IncludeScanner {
  import opened ScannerState

  datatype Piece<+T> = Token(token: T) | Newline | Include(uri: string)

  /** The file being read: the main file or an included one. */
  datatype Source = Main | Included(uri: string)

  /** A delivered token with the scanner's line number, and where it comes from. */
  datatype Delivered<+T> = Delivered(token: T, line: int, source: Source, index: nat)

  /** All files that can be opened, and the parser. */
  datatype World<!T> = World(
    main: seq<Piece<T>>, files: map<string, seq<Piece<T>>>, active: seq<Delivered<T>> -> bool)
  {
    predicate Exists(source: Source) { source.Included? ==> source.uri in files }

    function Text(source: Source): seq<Piece<T>>
      requires Exists(source)
    {
      if source.Main? then main else files[source.uri]
    }

    /** An include statement that is not ignored: the depth is not exhausted, the
        parser is active and the file can be opened. */
    predicate Opens(uri: string, max: nat, depth: nat, out: seq<Delivered<T>>) {
      depth < max && active(out) && uri in files
    }

    /** Read `source` from `index` on, inlining include files recursively, and
        append the tokens to `out`. The second component counts the steps. */
    function Inline(max: nat, source: Source, index: nat, line: int, depth: nat, out: seq<Delivered<T>>):
      (r: (seq<Delivered<T>>, nat))
      requires Exists(source) && index <= |Text(source)| && depth <= max
      decreases max - depth, |Text(source)| - index
    {
      if index == |Text(source)| then (out, 0)
      else
        match Text(source)[index]
        case Token(t) => Tick(Inline(max, source, index + 1, line, depth, out + [Delivered(t, line, source, index)]))
        case Newline => Tick(Inline(max, source, index + 1, line + 1, depth, out))
        case Include(uri) =>
          if Opens(uri, max, depth, out) then
            var inner := Inline(max, Included(uri), 0, 1, depth + 1, out);
            var rest := Inline(max, source, index + 1, line, depth, inner.0);
            (rest.0, 2 + inner.1 + rest.1)
          else Tick(Inline(max, source, index + 1, line, depth, out))
    }

    static function Tick(r: (seq<Delivered<T>>, nat)): (seq<Delivered<T>>, nat) { (r.0, r.1 + 1) }

    /** The tokens a parser run sees; `line` is the line number at its start. */
    function Tokens(line: int): seq<Delivered<T>> {
      Inline(MAX_INCL_DEPTH, Main, 0, line, 0, []).0
    }

    // ---------- the state of the stack machine ----------

    predicate GoodPlace(p: Place) { Exists(p.source) && p.index <= |Text(p.source)| }

    predicate GoodStack(stack: seq<Place>) {
      |stack| <= MAX_INCL_DEPTH && forall k :: 0 <= k < |stack| ==> GoodPlace(stack[k])
    }

    /** Reading one file to its end, includes and all. */
    ghost function Reader(): (Place, nat, seq<Delivered<T>>) -> (seq<Delivered<T>>, nat) {
      (p: Place, depth: nat, out: seq<Delivered<T>>) =>
        if GoodPlace(p) && depth <= MAX_INCL_DEPTH then Inline(MAX_INCL_DEPTH, p.source, p.index, p.line, depth, out)
        else (out, 0)
    }

    /** What the machine will have delivered in the end, and in how many steps:
        finish the current file, then the files on the stack. */
    ghost function Resume(here: Place, stack: seq<Place>, out: seq<Delivered<T>>): (seq<Delivered<T>>, nat) {
      Finish(Reader(), stack, Reader()(here, |stack|, out))
    }
  }

  ghost function Finish<O>(reader: (Place, nat, O) -> (O, nat), stack: seq<Place>, r: (O, nat)): (O, nat)
    decreases |stack|
  {
    if stack == [] then r
    else
      var s := reader(stack[|stack| - 1], |stack| - 1, r.0);
      Finish(reader, stack[..|stack| - 1], (s.0, r.1 + 1 + s.1))
  }

  /** A position in a file with its line number. */
  datatype Place = Place(source: Source, index: nat, line: int)

  lemma {:induction false} FinishShift<O>(reader: (Place, nat, O) -> (O, nat), stack: seq<Place>, r: (O, nat),
                                         more: nat)
    ensures Finish(reader, stack, (r.0, r.1 + more))
         == (Finish(reader, stack, r).0, Finish(reader, stack, r).1 + more)
    decreases |stack|
  {
    if stack != [] {
      var s := reader(stack[|stack| - 1], |stack| - 1, r.0);
      FinishShift(reader, stack[..|stack| - 1], (s.0, r.1 + 1 + s.1), more);
    }
  }

  lemma FinishPush<O>(reader: (Place, nat, O) -> (O, nat), stack: seq<Place>, back: Place, r: (O, nat))
    ensures var s := reader(back, |stack|, r.0);
            Finish(reader, stack + [back], r) == Finish(reader, stack, (s.0, r.1 + 1 + s.1))
  {
    var deeper := stack + [back];
    assert deeper[..|deeper| - 1] == stack && deeper[|deeper| - 1] == back;
  }

  lemma GoodPush<T>(w: World<T>, stack: seq<Place>, back: Place)
    requires w.GoodPlace(back) && w.GoodStack(stack) && |stack| < MAX_INCL_DEPTH
    ensures w.GoodStack(stack + [back])
  {
  }

  /** The machine gets from `here` to `next` in one step. */
  ghost predicate Advances<T>(w: World<T>, here: Place, stack: seq<Place>, out: seq<Delivered<T>>,
                              next: Place, stack': seq<Place>, out': seq<Delivered<T>>) {
    && w.GoodPlace(here) && w.GoodStack(stack) && w.GoodPlace(next) && w.GoodStack(stack')
    && w.Resume(next, stack', out').0 == w.Resume(here, stack, out).0
    && w.Resume(next, stack', out').1 < w.Resume(here, stack, out).1
  }

  /** Opening an include file: the machine reads that file first, and continues
      behind the include statement. */
  lemma ResumeInclude<T>(w: World<T>, here: Place, uri: string, stack: seq<Place>, out: seq<Delivered<T>>)
    requires w.GoodPlace(here) && here.index < |w.Text(here.source)| && w.Text(here.source)[here.index] == Include(uri)
    requires w.GoodStack(stack) && w.Opens(uri, MAX_INCL_DEPTH, |stack|, out)
    ensures var back := here.(index := here.index + 1);
            Advances(w, here, stack, out, Place(Included(uri), 0, 1), stack + [back], out)
  {
    var back, first := here.(index := here.index + 1), Place(Included(uri), 0, 1);
    var reader := w.Reader();
    var inner := reader(first, |stack| + 1, out);
    GoodPush(w, stack, back);
    FinishPush(reader, stack, back, inner);
    var rest := reader(back, |stack|, inner.0);
    assert reader(here, |stack|, out) == (rest.0, inner.1 + 1 + rest.1 + 1);
    FinishShift(reader, stack, (rest.0, inner.1 + 1 + rest.1), 1);
  }

  /** At the end of an included file the machine goes back to the including one. */
  lemma ResumeEnd<T>(w: World<T>, here: Place, stack: seq<Place>, out: seq<Delivered<T>>)
    requires w.GoodPlace(here) && here.index == |w.Text(here.source)| && w.GoodStack(stack) && stack != []
    ensures Advances(w, here, stack, out, stack[|stack| - 1], stack[..|stack| - 1], out)
  {
    var reader := w.Reader();
    var s := reader(stack[|stack| - 1], |stack| - 1, out);
    assert reader(here, |stack|, out) == (out, 0);
    FinishShift(reader, stack[..|stack| - 1], s, 1);
  }

  /** Any other piece is consumed in one step. */
  lemma ResumeTick<T>(w: World<T>, here: Place, next: Place, stack: seq<Place>,
                      out: seq<Delivered<T>>, out': seq<Delivered<T>>)
    requires w.GoodPlace(here) && w.GoodPlace(next) && w.GoodStack(stack)
    requires w.Reader()(here, |stack|, out) == World<T>.Tick(w.Reader()(next, |stack|, out'))
    ensures Advances(w, here, stack, out, next, stack, out')
  {
    FinishShift(w.Reader(), stack, w.Reader()(next, |stack|, out'), 1);
  }

  /** The scanner with its include stack delivers exactly the tokens of recursive
      inlining, for all files, cyclic ones included. */
  method Scan<T(0)>(w: World<T>, startLine: int) returns (out: seq<Delivered<T>>)
    ensures out == w.Tokens(startLine)
  {
    var stack := new Place[MAX_INCL_DEPTH](_ => Place(Main, 0, 1));
    var top := 0;
    var here := Place(Main, 0, startLine);
    out := [];
    var running := true;
    ghost var all, saved := w.Tokens(startLine), [];
    while running
      invariant 0 <= top <= MAX_INCL_DEPTH && saved == stack[..top]
      invariant w.GoodPlace(here) && w.GoodStack(saved)
      invariant running ==> w.Resume(here, saved, out).0 == all
      invariant !running ==> out == all
      decreases running, w.Resume(here, saved, out).1
    {
      if here.index == |w.Text(here.source)| {
        // nothing is left of this file: the one that included it goes on
        if top == 0 {
          running := false;
        } else {
          ResumeEnd(w, here, saved, out);
          top := top - 1;
          here := stack[top];
          saved := saved[..top];
        }
      } else {
        match w.Text(here.source)[here.index]
        case Token(t) =>
          var delivered := Delivered(t, here.line, here.source, here.index);
          ResumeTick(w, here, here.(index := here.index + 1), saved, out, out + [delivered]);
          out := out + [delivered];
          here := here.(index := here.index + 1);
        case Newline =>
          ResumeTick(w, here, here.(index := here.index + 1, line := here.line + 1), saved, out, out);
          here := here.(index := here.index + 1, line := here.line + 1);
        case Include(uri) =>
          if top < MAX_INCL_DEPTH && w.active(out) && uri in w.files {
            ResumeInclude(w, here, uri, saved, out);
            stack[top] := here.(index := here.index + 1);
            top := top + 1;
            saved := saved + [here.(index := here.index + 1)];
            assert saved == stack[..top];
            here := Place(Included(uri), 0, 1);
          } else {
            ResumeTick(w, here, here.(index := here.index + 1), saved, out, out);
            here := here.(index := here.index + 1);
          }
      }
    }
  }

  // ---------- line numbers ----------

  function Newlines<T>(text: seq<Piece<T>>, upTo: nat): nat
    requires upTo <= |text|
  {
    if upTo == 0 then 0 else Newlines(text, upTo - 1) + if text[upTo - 1].Newline? then 1 else 0
  }

  /** A delivered token comes from its place, and its line number counts the line
      ends before it in its own file only. */
  ghost predicate OwnLine<T>(w: World<T>, startLine: int, d: Delivered<T>) {
    && w.Exists(d.source) && d.index < |w.Text(d.source)|
    && w.Text(d.source)[d.index] == Token(d.token)
    && d.line == (if d.source.Main? then startLine else 1) + Newlines(w.Text(d.source), d.index)
  }

  lemma {:induction false} InlineLines<T>(w: World<T>, startLine: int, max: nat, source: Source, index: nat, line: int,
                                          depth: nat, out: seq<Delivered<T>>)
    requires w.Exists(source) && index <= |w.Text(source)| && depth <= max
    requires line == (if source.Main? then startLine else 1) + Newlines(w.Text(source), index)
    requires forall d :: d in out ==> OwnLine(w, startLine, d)
    ensures forall d :: d in w.Inline(max, source, index, line, depth, out).0 ==> OwnLine(w, startLine, d)
    decreases max - depth, |w.Text(source)| - index
  {
    if index < |w.Text(source)| {
      match w.Text(source)[index]
      case Token(t) =>
        InlineLines(w, startLine, max, source, index + 1, line, depth, out + [Delivered(t, line, source, index)]);
      case Newline =>
        InlineLines(w, startLine, max, source, index + 1, line + 1, depth, out);
      case Include(uri) =>
        if w.Opens(uri, max, depth, out) {
          InlineLines(w, startLine, max, Included(uri), 0, 1, depth + 1, out);
          InlineLines(w, startLine, max, source, index + 1, line,
            depth, w.Inline(max, Included(uri), 0, 1, depth + 1, out).0);
        } else {
          InlineLines(w, startLine, max, source, index + 1, line, depth, out);
        }
    }
  }

  /** Includes do not disturb line numbers: not those of the including file, and
      not those of the included one. */
  lemma TokenLines<T>(w: World<T>, startLine: int)
    ensures forall d :: d in w.Tokens(startLine) ==> OwnLine(w, startLine, d)
  {
    InlineLines(w, startLine, MAX_INCL_DEPTH, Main, 0, startLine, 0, []);
  }

  // ---------- the depth limit ----------

  /** `rank` bounds how deep the includes below a file are nested. */
  ghost predicate Ranked<T>(w: World<T>, rank: Source -> nat) {
    forall s, k :: w.Exists(s) && 0 <= k < |w.Text(s)| ==> RankFalls(w, rank, s, w.Text(s)[k])
  }

  predicate RankFalls<T>(w: World<T>, rank: Source -> nat, s: Source, p: Piece<T>) {
    p.Include? && p.uri in w.files ==> rank(Included(p.uri)) < rank(s)
  }

  /** For files whose includes are nested at most as deep as the limit, the limit
      has no influence. */
  lemma {:induction false} LimitIrrelevant<T>(w: World<T>, rank: Source -> nat, m: nat, n: nat, source: Source,
                                              index: nat, line: int, depth: nat, out: seq<Delivered<T>>)
    requires Ranked(w, rank) && w.Exists(source) && index <= |w.Text(source)|
    requires depth + rank(source) <= m && depth + rank(source) <= n
    ensures w.Inline(m, source, index, line, depth, out) == w.Inline(n, source, index, line, depth, out)
    decreases rank(source), |w.Text(source)| - index
  {
    if index < |w.Text(source)| {
      assert RankFalls(w, rank, source, w.Text(source)[index]);
      match w.Text(source)[index]
      case Token(t) =>
        LimitIrrelevant(w, rank, m, n, source, index + 1, line, depth, out + [Delivered(t, line, source, index)]);
      case Newline =>
        LimitIrrelevant(w, rank, m, n, source, index + 1, line + 1, depth, out);
      case Include(uri) =>
        if uri in w.files && w.active(out) {
          LimitIrrelevant(w, rank, m, n, Included(uri), 0, 1, depth + 1, out);
          LimitIrrelevant(w, rank, m, n, source, index + 1, line, depth,
            w.Inline(m, Included(uri), 0, 1, depth + 1, out).0);
        } else {
          LimitIrrelevant(w, rank, m, n, source, index + 1, line, depth, out);
        }
    }
  }

  /** A file that includes itself and nothing else is read to the end once for
      every free place on the stack, and the limit then stops the recursion. */
  lemma {:induction false} SelfInclude<T>(w: World<T>, uri: string, t: T, max: nat, depth: nat, out: seq<Delivered<T>>)
    requires w.files == map[uri := [Token(t), Include(uri)]] && depth <= max
    requires forall o :: w.active(o)
    ensures |w.Inline(max, Included(uri), 0, 1, depth, out).0| == |out| + (max - depth) + 1
    decreases max - depth
  {
    var out' := out + [Delivered(t, 1, Included(uri), 0)];
    assert w.Inline(max, Included(uri), 0, 1, depth, out).0 == w.Inline(max, Included(uri), 1, 1, depth, out').0;
    if depth < max {
      SelfInclude(w, uri, t, max, depth + 1, out');
      var inner := w.Inline(max, Included(uri), 0, 1, depth + 1, out').0;
      assert w.Inline(max, Included(uri), 2, 1, depth, inner).0 == inner;
    } else {
      assert w.Inline(max, Included(uri), 2, 1, depth, out').0 == out';
    }
  }
}
