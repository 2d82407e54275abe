/**
 What sysload_admin puts into the ramdisk: the lines of modules.dep and the shared
 libraries that are needed, found with work lists that grow while they are
 processed (admin/sysload_admin).
 */
module RamdiskClosure {
  import opened Config
  import opened Lists

  function SetOf<T(==)>(xs: seq<T>): set<T> { set x | x in xs }

  // ---------- modules ----------

  /** What the regular expressions say: whether a module name matches a line that
      still has its colon, and the words of a line without its colon, file names
      reduced to module names. */
  datatype Syntax = Syntax(matches: (string, string) -> bool, words: string -> seq<string>, name: string -> string)

  /** A line without its first colon. */
  function DropColon(line: string): string {
    if line == "" then "" else if line[0] == ':' then line[1..] else [line[0]] + DropColon(line[1..])
  }

  /** A line that was marked `stage` times. */
  function Stage(line: string, stage: nat): string {
    if stage == 0 then line else DropColon(Stage(line, stage - 1))
  }

  function Colons(line: string): nat {
    if line == "" then 0 else Colons(line[1..]) + if line[0] == ':' then 1 else 0
  }

  function AllColons(lines: seq<string>): nat {
    if lines == [] then 0 else Colons(lines[0]) + AllColons(lines[1..])
  }

  lemma {:induction false} DropOne(line: string)
    requires ':' in line
    ensures Colons(DropColon(line)) == Colons(line) - 1
  {
    if line[0] != ':' {
      DropOne(line[1..]);
      assert DropColon(line)[1..] == DropColon(line[1..]);
    }
  }

  lemma {:induction false} MarkOne(lines: seq<string>, i: nat)
    requires i < |lines| && ':' in lines[i]
    ensures AllColons(lines[i := DropColon(lines[i])]) == AllColons(lines) - 1
  {
    var marked := lines[i := DropColon(lines[i])];
    DropOne(lines[i]);
    if i == 0 {
      assert marked[1..] == lines[1..];
    } else {
      MarkOne(lines[1..], i - 1);
      assert marked[1..] == lines[1..][i - 1 := DropColon(lines[i])];
    }
  }

  predicate OneColon(line: string) { ':' !in DropColon(line) }

  lemma {:induction false} OneStage(line: string, stage: nat)
    requires OneColon(line) && stage > 0
    ensures ':' !in Stage(line, stage)
  {
    if stage > 1 {
      OneStage(line, stage - 1);
      NothingToDrop(Stage(line, stage - 1));
    }
  }

  lemma {:induction false} NothingToDrop(line: string)
    requires ':' !in line
    ensures DropColon(line) == line
  {
    if line != "" {
      NothingToDrop(line[1..]);
    }
  }

  /** The names behind the first word of a line. */
  function Needs(x: Syntax, line: string): seq<string> {
    var words := x.words(DropColon(line));
    if words == [] then [] else seq(|words| - 1, i requires 0 <= i < |words| - 1 => x.name(words[i + 1]))
  }

  /** A line that can be copied, after it was copied and marked `stage` times. */
  datatype Entry = Entry(line: nat, stage: nat)

  function Text(lines: seq<string>, e: Entry): string
    requires e.line < |lines|
  {
    Stage(lines[e.line], e.stage)
  }

  /** A name is asked for: requested, or a dependency of an entry of the set. */
  predicate Asked(x: Syntax, lines: seq<string>, names: seq<string>, s: set<Entry>, name: string) {
    name in names || exists e :: e in s && e.line < |lines| && name in Needs(x, Text(lines, e))
  }

  /** An entry that a name matches, the earlier stages of its line being in the set. */
  predicate Matched(x: Syntax, lines: seq<string>, s: set<Entry>, name: string, e: Entry) {
    && e.line < |lines| && x.matches(name, Text(lines, e))
    && (e.stage > 0 ==> Entry(e.line, e.stage - 1) in s)
  }

  /** A set is closed if it has every entry that a name asked for matches. */
  ghost predicate Closed(x: Syntax, lines: seq<string>, names: seq<string>, s: set<Entry>) {
    forall name, e :: Matched(x, lines, s, name, e) && Asked(x, lines, names, s, name) ==> e in s
  }

  /** A set has every line that such a name matches, before it was marked. */
  ghost predicate HasAll(x: Syntax, lines: seq<string>, names: seq<string>, s: set<Entry>) {
    forall name, i: nat :: i < |lines| && x.matches(name, lines[i]) && Asked(x, lines, names, s, name) ==>
                             Entry(i, 0) in s
  }

  ghost predicate Syntactic(x: Syntax) { forall name, line :: x.matches(name, line) ==> ':' in line }

  /** On lines with one colon each there is no difference. */
  lemma AllIsClosed(x: Syntax, lines: seq<string>, names: seq<string>, s: set<Entry>)
    requires Syntactic(x) && (forall i :: 0 <= i < |lines| ==> OneColon(lines[i])) && HasAll(x, lines, names, s)
    ensures Closed(x, lines, names, s)
  {
    forall name, e | Matched(x, lines, s, name, e) && Asked(x, lines, names, s, name) ensures e in s {
      if e.stage > 0 {
        OneStage(lines[e.line], e.stage);
      } else {
        assert e == Entry(e.line, 0);
      }
    }
  }

  predicate InRange(found: seq<Entry>, n: nat) { forall k :: 0 <= k < |found| ==> found[k].line < n }

  /** The names that are asked for, in the order in which they are found. */
  function NamesOf(x: Syntax, lines: seq<string>, names: seq<string>, found: seq<Entry>): seq<string>
    requires InRange(found, |lines|)
  {
    if found == [] then names
    else NamesOf(x, lines, names, found[..|found| - 1]) + Needs(x, Text(lines, found[|found| - 1]))
  }

  lemma {:induction false} NamesAsked(x: Syntax, lines: seq<string>, names: seq<string>, found: seq<Entry>,
                                      name: string)
    requires InRange(found, |lines|)
    ensures name in NamesOf(x, lines, names, found) <==> Asked(x, lines, names, SetOf(found), name)
    decreases |found|
  {
    if found != [] {
      var front, last := found[..|found| - 1], found[|found| - 1];
      assert found == front + [last];
      NamesAsked(x, lines, names, front, name);
      if name in Needs(x, Text(lines, last)) {
        assert last in SetOf(found);
      }
    }
  }

  lemma NamesOneMore(x: Syntax, lines: seq<string>, names: seq<string>, found: seq<Entry>, e: Entry)
    requires InRange(found, |lines|) && e.line < |lines|
    ensures NamesOf(x, lines, names, found + [e]) == NamesOf(x, lines, names, found) + Needs(x, Text(lines, e))
  {
    assert (found + [e])[..|found|] == found;
  }

  /** The entries found so far belong to every closed set. */
  ghost predicate Needed(x: Syntax, lines: seq<string>, names: seq<string>, found: seq<Entry>) {
    forall s :: Closed(x, lines, names, s) ==> forall e :: e in found ==> e in s
  }

  lemma StillNeeded(x: Syntax, lines: seq<string>, names: seq<string>, found: seq<Entry>, name: string, e: Entry)
    requires InRange(found, |lines|)
    requires Needed(x, lines, names, found) && name in NamesOf(x, lines, names, found)
    requires Matched(x, lines, SetOf(found), name, e)
    ensures Needed(x, lines, names, found + [e])
  {
    NamesAsked(x, lines, names, found, name);
    forall s | Closed(x, lines, names, s) ensures forall f :: f in found + [e] ==> f in s {
      assert Asked(x, lines, names, s, name) by {
        if name !in names {
          var f :| f in found && f.line < |lines| && name in Needs(x, Text(lines, f));
          assert f in s;
        }
      }
      assert Matched(x, lines, s, name, e);
    }
  }

  /** How often the lines were marked, and which entries were copied. */
  ghost predicate Listed(lines: seq<string>, now: seq<string>, marks: seq<nat>, found: seq<Entry>,
                         copied: seq<string>) {
    && |now| == |lines| == |marks| && |copied| == |found| && Distinct(found) && InRange(found, |lines|)
    && (forall k :: 0 <= k < |found| ==> copied[k] == Text(lines, found[k]))
    && (forall i :: 0 <= i < |lines| ==> now[i] == Stage(lines[i], marks[i]))
    && forall e: Entry :: e.line < |lines| ==> (e in found <==> e.stage < marks[e.line])
  }

  /** All lines a name asked for matches are found. */
  predicate Served(x: Syntax, lines: seq<string>, name: string, found: seq<Entry>, n: nat) {
    forall h: nat :: h < n && h < |lines| && x.matches(name, lines[h]) ==> Entry(h, 0) in found
  }

  /** The state of add_modules() while it looks for lines. */
  ghost predicate Progress(x: Syntax, lines: seq<string>, names: seq<string>, now: seq<string>, marks: seq<nat>,
                           found: seq<Entry>, copied: seq<string>, mod: seq<string>) {
    && Listed(lines, now, marks, found, copied)
    && mod == NamesOf(x, lines, names, found) && Needed(x, lines, names, found)
  }

  lemma OneMoreEntry(lines: seq<string>, now: seq<string>, marks: seq<nat>, found: seq<Entry>,
                     copied: seq<string>, i: nat)
    requires Listed(lines, now, marks, found, copied) && i < |lines|
    ensures Listed(lines, now[i := DropColon(now[i])], marks[i := marks[i] + 1],
            found + [Entry(i, marks[i])], copied + [now[i]])
  {
    var e := Entry(i, marks[i]);
    assert e !in found;
    forall f: Entry | f.line < |lines|
      ensures f in found + [e] <==> f.stage < marks[i := marks[i] + 1][f.line]
    {
      assert f in found + [e] <==> f in found || f == e;
    }
  }

  lemma TakeLine(x: Syntax, lines: seq<string>, names: seq<string>, now: seq<string>, marks: seq<nat>,
                 found: seq<Entry>, copied: seq<string>, mod: seq<string>, name: string, i: nat)
    requires Progress(x, lines, names, now, marks, found, copied, mod)
    requires i < |lines| && name in mod && x.matches(name, now[i])
    ensures Progress(x, lines, names, now[i := DropColon(now[i])], marks[i := marks[i] + 1],
            found + [Entry(i, marks[i])], copied + [now[i]], mod + Needs(x, now[i]))
  {
    var e := Entry(i, marks[i]);
    assert Matched(x, lines, SetOf(found), name, e);
    StillNeeded(x, lines, names, found, name, e);
    NamesOneMore(x, lines, names, found, e);
    OneMoreEntry(lines, now, marks, found, copied, i);
  }

  lemma ServedNext(x: Syntax, lines: seq<string>, name: string, found: seq<Entry>, i: nat, e: Entry)
    requires Served(x, lines, name, found, i) && i < |lines|
    ensures e.line == i && (e.stage == 0 || Entry(i, 0) in found) ==> Served(x, lines, name, found + [e], i + 1)
    ensures !x.matches(name, lines[i]) || Entry(i, 0) in found ==> Served(x, lines, name, found, i + 1)
  {
    assert forall f :: f in found ==> f in found + [e];
    assert e.stage == 0 ==> e == Entry(e.line, 0);
  }

  lemma NotTaken(lines: seq<string>, now: seq<string>, marks: seq<nat>, found: seq<Entry>, copied: seq<string>, i: nat)
    requires Listed(lines, now, marks, found, copied) && i < |lines|
    ensures Entry(i, 0) in found || (marks[i] == 0 && now[i] == lines[i])
  {
  }

  /** What was found stays found; names are added only if a line is marked. */
  predicate Extends(found0: seq<Entry>, mod0: seq<string>, now0: seq<string>,
                    found: seq<Entry>, mod: seq<string>, now: seq<string>) {
    && found0 <= found && mod0 <= mod
    && AllColons(now) <= AllColons(now0) && (AllColons(now) == AllColons(now0) ==> mod == mod0)
  }

  /** The lines for one name. */
  method ScanLines(x: Syntax, modDep: array<string>, ghost names: seq<string>, ghost lines: seq<string>,
                   name: string, ghost marks0: seq<nat>, ghost found0: seq<Entry>, copied0: seq<string>,
                   mod0: seq<string>)
    returns (ghost marks: seq<nat>, ghost found: seq<Entry>, copied: seq<string>, mod: seq<string>)
    requires Syntactic(x)
    requires Progress(x, lines, names, modDep[..], marks0, found0, copied0, mod0) && name in mod0
    modifies modDep
    ensures Progress(x, lines, names, modDep[..], marks, found, copied, mod)
    ensures Extends(found0, mod0, old(modDep[..]), found, mod, modDep[..])
    ensures Served(x, lines, name, found, |lines|)
  {
    marks, found, copied, mod := marks0, found0, copied0, mod0;
    var i := 0;
    while i < modDep.Length
      invariant 0 <= i <= modDep.Length && Progress(x, lines, names, modDep[..], marks, found, copied, mod)
      invariant Extends(found0, mod0, old(modDep[..]), found, mod, modDep[..])
      invariant Served(x, lines, name, found, i)
    {
      ghost var now := modDep[..];
      NotTaken(lines, now, marks, found, copied, i);
      ServedNext(x, lines, name, found, i, Entry(i, marks[i]));
      if x.matches(name, modDep[i]) {
        TakeLine(x, lines, names, now, marks, found, copied, mod, name, i);
        MarkOne(now, i);
        copied := copied + [modDep[i]];
        mod := mod + Needs(x, modDep[i]);
        modDep[i] := DropColon(modDep[i]);
        assert modDep[..] == now[i := DropColon(now[i])];
        found, marks := found + [Entry(i, marks[i])], marks[i := marks[i] + 1];
      }
      i := i + 1;
    }
  }

  /** The work list of add_modules(): the requested names, then those found on the
      way; a line that was copied is marked by deleting its first colon, and can be
      copied again as long as it has another one. No line that is asked for is missing,
      and everything copied belongs to every closed set. */
  method AddModules(x: Syntax, modDep: array<string>, names: seq<string>)
    returns (ghost found: seq<Entry>, copied: seq<string>, mod: seq<string>)
    requires Syntactic(x)
    modifies modDep
    ensures Distinct(found) && InRange(found, modDep.Length) && |copied| == |found|
    ensures forall k :: 0 <= k < |found| ==> copied[k] == Text(old(modDep[..]), found[k])
    ensures HasAll(x, old(modDep[..]), names, SetOf(found))
    ensures forall s :: Closed(x, old(modDep[..]), names, s) ==> SetOf(found) <= s
    ensures (forall i :: 0 <= i < modDep.Length ==> OneColon(old(modDep[..])[i])) ==>
              Closed(x, old(modDep[..]), names, SetOf(found))
  {
    ghost var lines := modDep[..];
    ghost var marks: seq<nat> := seq(|lines|, _ => 0);
    found, copied, mod := [], [], names;
    var k := 0;
    while k < |mod|
      invariant 0 <= k <= |mod| && Progress(x, lines, names, modDep[..], marks, found, copied, mod)
      invariant AllServed(x, lines, mod, k, found)
      decreases AllColons(modDep[..]), |mod| - k
    {
      ghost var before, queue := found, mod;
      marks, found, copied, mod := ScanLines(x, modDep, names, lines, mod[k], marks, found, copied, mod);
      ServedLonger(x, lines, queue, k, before, mod, found);
      k := k + 1;
    }
    ServedIsAll(x, lines, names, found, mod);
    if forall i :: 0 <= i < |lines| ==> OneColon(lines[i]) {
      AllIsClosed(x, lines, names, SetOf(found));
    }
  }

  predicate AllServed(x: Syntax, lines: seq<string>, mod: seq<string>, k: nat, found: seq<Entry>) {
    k <= |mod| && forall j :: 0 <= j < k ==> Served(x, lines, mod[j], found, |lines|)
  }

  lemma ServedLonger(x: Syntax, lines: seq<string>, queue: seq<string>, k: nat, before: seq<Entry>,
                     mod: seq<string>, found: seq<Entry>)
    requires AllServed(x, lines, queue, k, before) && before <= found && queue <= mod && k < |queue|
    requires Served(x, lines, queue[k], found, |lines|)
    ensures AllServed(x, lines, mod, k + 1, found)
  {
    forall j | 0 <= j < k ensures Served(x, lines, mod[j], found, |lines|) {
      assert Served(x, lines, queue[j], before, |lines|) && mod[j] == queue[j];
      assert forall e :: e in before ==> e in found;
    }
    assert mod[k] == queue[k];
  }

  lemma ServedIsAll(x: Syntax, lines: seq<string>, names: seq<string>, found: seq<Entry>, mod: seq<string>)
    requires InRange(found, |lines|) && mod == NamesOf(x, lines, names, found)
    requires AllServed(x, lines, mod, |mod|, found)
    ensures HasAll(x, lines, names, SetOf(found))
  {
    forall name, i: nat | i < |lines| && x.matches(name, lines[i]) && Asked(x, lines, names, SetOf(found), name)
      ensures Entry(i, 0) in found
    {
      NamesAsked(x, lines, names, found, name);
      var j :| 0 <= j < |mod| && mod[j] == name;
      assert Served(x, lines, mod[j], found, |lines|);
    }
  }

  // ---------- libraries ----------

  datatype Target = Target(src: string, dest: string)

  /** What one entry of a list stands for: further entries (globbing), and a file
      to copy with the path it gets in the ramdisk. */
  datatype Found = Found(more: seq<string>, target: Option<Target>)

  /** The file system, the output of ldd, and how list entries are resolved. */
  datatype System = System(
    files: set<string>, executables: set<string>, ldd: string -> seq<string>, resolve: string -> Found)

  /** Globbing yields plain paths, and so does ldd. */
  ghost predicate PlainPaths(sys: System) {
    && (forall e, y :: y in sys.resolve(e).more ==> sys.resolve(y).more == [])
    && (forall f, y :: y in sys.ldd(f) ==> sys.resolve(y).more == [])
  }

  /** A path, not a mere name. */
  predicate IsPath(t: Option<Target>) { t.Some? && '/' in t.value.src }

  predicate Runs(sys: System, f: string) { f in sys.files && f in sys.executables }

  /** An entry leads to another one. */
  predicate Leads(sys: System, e: string, y: string) {
    || y in sys.resolve(e).more
    || (IsPath(sys.resolve(e).target) && Runs(sys, sys.resolve(e).target.value.src)
        && y in sys.ldd(sys.resolve(e).target.value.src))
  }

  /** A set of entries contains the list and all that its entries lead to. */
  ghost predicate ClosedEntries(sys: System, start: seq<string>, s: set<string>) {
    (forall e :: e in start ==> e in s) && forall e, y :: e in s && Leads(sys, e, y) ==> y in s
  }

  /** The variables of add_libraries(). */
  datatype Work = Work(libs: seq<string>, k: nat, done: set<string>, copied: seq<Target>)

  function Next(sys: System, w: Work): Work
    requires w.k < |w.libs|
  {
    var found := sys.resolve(w.libs[w.k]);
    var w1 := w.(libs := w.libs + found.more, k := w.k + 1);
    if !IsPath(found.target) || found.target.value.src in w.done then w1
    else
      var src := found.target.value.src;
      var w2 := w1.(done := w1.done + {src});
      if src !in sys.files then w2
      else
        w2.(copied := w2.copied + [found.target.value],
            libs := if src in sys.executables then w2.libs + sys.ldd(src) else w2.libs)
  }

  /** Entries before `k` were processed. */
  predicate Processed(sys: System, w: Work) {
    && w.k <= |w.libs|
    && (forall j :: 0 <= j < w.k ==>
          var found := sys.resolve(w.libs[j]);
          SetOf(found.more) <= SetOf(w.libs) && (IsPath(found.target) ==> found.target.value.src in w.done))
    && (forall f :: f in w.done && Runs(sys, f) ==> SetOf(sys.ldd(f)) <= SetOf(w.libs))
  }

  /** The copied files are the existing files among those done, each once. */
  predicate CopiedOnce(sys: System, w: Work) {
    && (forall i, j :: 0 <= i < j < |w.copied| ==> w.copied[i].src != w.copied[j].src)
    && (forall i :: 0 <= i < |w.copied| ==> w.copied[i].src in w.done && w.copied[i].src in sys.files)
    && (forall f :: f in w.done && f in sys.files ==> exists i :: 0 <= i < |w.copied| && w.copied[i].src == f)
  }

  /** A file is done because of an entry of the list. */
  predicate HasEntry(sys: System, w: Work) {
    && (forall f :: f in w.done ==>
          exists e :: e in w.libs && IsPath(sys.resolve(e).target) && sys.resolve(e).target.value.src == f)
    && (forall t :: t in w.copied ==> exists e :: e in w.libs && sys.resolve(e).target == Some(t) && IsPath(Some(t)))
  }

  ghost predicate Reachable(sys: System, start: seq<string>, w: Work) {
    forall s :: ClosedEntries(sys, start, s) ==> SetOf(w.libs) <= s
  }

  /** Entries that still have to be globbed. */
  function Globs(sys: System, libs: seq<string>): nat {
    if libs == [] then 0 else (if sys.resolve(libs[0]).more != [] then 1 else 0) + Globs(sys, libs[1..])
  }

  lemma {:induction false} GlobsConcat(sys: System, a: seq<string>, b: seq<string>)
    ensures Globs(sys, a + b) == Globs(sys, a) + Globs(sys, b)
    decreases |a|
  {
    if a == [] {
      assert a + b == b;
    } else {
      assert (a + b)[1..] == a[1..] + b;
      GlobsConcat(sys, a[1..], b);
    }
  }

  lemma {:induction false} NoGlobs(sys: System, a: seq<string>)
    requires forall y :: y in a ==> sys.resolve(y).more == []
    ensures Globs(sys, a) == 0
    decreases |a|
  {
    if a != [] {
      assert a[0] in a && forall y :: y in a[1..] ==> y in a;
      NoGlobs(sys, a[1..]);
    }
  }

  /** Every round makes progress, whatever is pushed to the list. */
  lemma NextProgress(sys: System, w: Work)
    requires PlainPaths(sys) && w.k < |w.libs|
    ensures var n := Next(sys, w);
            || sys.files - n.done < sys.files - w.done
            || (n.done * sys.files == w.done * sys.files && Globs(sys, n.libs[n.k..]) < Globs(sys, w.libs[w.k..]))
            || (n.done * sys.files == w.done * sys.files && Globs(sys, n.libs[n.k..]) == Globs(sys, w.libs[w.k..])
                && n.libs == w.libs)
  {
    var n, found := Next(sys, w), sys.resolve(w.libs[w.k]);
    var rest := w.libs[w.k + 1..];
    assert w.libs[w.k..][1..] == rest;
    if IsPath(found.target) && found.target.value.src !in w.done && found.target.value.src in sys.files {
      var f := found.target.value.src;
      assert f in sys.files - w.done && f !in sys.files - n.done;
    } else {
      assert n.libs[n.k..] == rest + found.more;
      GlobsConcat(sys, rest, found.more);
      NoGlobs(sys, found.more);
      assert n.done * sys.files == w.done * sys.files;
      assert found.more == [] ==> n.libs == w.libs;
    }
  }

  lemma SetOfConcat<T>(a: seq<T>, b: seq<T>)
    ensures SetOf(a + b) == SetOf(a) + SetOf(b)
  {
    assert forall x :: x in a + b <==> x in a || x in b;
  }

  lemma NextReachable(sys: System, start: seq<string>, w: Work)
    requires w.k < |w.libs| && Reachable(sys, start, w)
    ensures Reachable(sys, start, Next(sys, w))
  {
    var n, e := Next(sys, w), w.libs[w.k];
    forall s | ClosedEntries(sys, start, s) ensures SetOf(n.libs) <= s {
      assert e in SetOf(w.libs) && e in s;
      forall y | y in n.libs ensures y in s {
        assert y in w.libs || Leads(sys, e, y);
        assert y in w.libs ==> y in SetOf(w.libs);
      }
    }
  }

  lemma NextProcessed(sys: System, w: Work)
    requires w.k < |w.libs| && Processed(sys, w)
    ensures Processed(sys, Next(sys, w))
    ensures SetOf(w.libs) <= SetOf(Next(sys, w).libs)
  {
    var n, found := Next(sys, w), sys.resolve(w.libs[w.k]);
    SetOfConcat(w.libs, found.more);
    if IsPath(found.target) {
      SetOfConcat(w.libs + found.more, sys.ldd(found.target.value.src));
    }
    forall j | 0 <= j < n.k
      ensures SetOf(sys.resolve(n.libs[j]).more) <= SetOf(n.libs)
      ensures IsPath(sys.resolve(n.libs[j]).target) ==> sys.resolve(n.libs[j]).target.value.src in n.done
    {
      assert n.libs[j] == w.libs[j];
    }
  }

  lemma NextCopied(sys: System, w: Work)
    requires w.k < |w.libs| && CopiedOnce(sys, w)
    ensures CopiedOnce(sys, Next(sys, w))
  {
    var n := Next(sys, w);
    forall f | f in n.done && f in sys.files ensures exists i :: 0 <= i < |n.copied| && n.copied[i].src == f {
      if f in w.done {
        var i :| 0 <= i < |w.copied| && w.copied[i].src == f;
        assert n.copied[i].src == f;
      } else {
        assert n.copied[|w.copied|].src == f;
      }
    }
  }

  lemma NextHasEntry(sys: System, w: Work)
    requires w.k < |w.libs| && HasEntry(sys, w)
    ensures HasEntry(sys, Next(sys, w))
  {
    var n, e := Next(sys, w), w.libs[w.k];
    assert forall x :: x in w.libs ==> x in n.libs;
    assert e in n.libs;
  }

  ghost predicate Working(sys: System, start: seq<string>, w: Work) {
    && Processed(sys, w) && CopiedOnce(sys, w) && HasEntry(sys, w) && Reachable(sys, start, w)
    && SetOf(start) <= SetOf(w.libs)
  }

  lemma NextWorking(sys: System, start: seq<string>, w: Work)
    requires w.k < |w.libs| && Working(sys, start, w)
    ensures Working(sys, start, Next(sys, w))
  {
    NextProcessed(sys, w);
    NextCopied(sys, w);
    NextHasEntry(sys, w);
    NextReachable(sys, start, w);
  }

  /** The files of the entries of a set. */
  ghost predicate FilesOf(sys: System, s: set<string>, f: string) {
    f in sys.files && exists e :: e in s && IsPath(sys.resolve(e).target) && sys.resolve(e).target.value.src == f
  }

  /** What add_libraries() achieves: `entries` is the least closed set, and the
      copied files are exactly the existing files of its entries, each once. */
  ghost predicate Complete(sys: System, start: seq<string>, entries: set<string>, copied: seq<Target>) {
    && ClosedEntries(sys, start, entries)
    && (forall s :: ClosedEntries(sys, start, s) ==> entries <= s)
    && (forall i, j :: 0 <= i < j < |copied| ==> copied[i].src != copied[j].src)
    && (forall f :: FilesOf(sys, entries, f) <==> exists t :: t in copied && t.src == f)
    && (forall t :: t in copied ==> exists e :: e in entries && sys.resolve(e).target == Some(t))
  }

  lemma WorkClosed(sys: System, start: seq<string>, w: Work)
    requires Working(sys, start, w) && w.k == |w.libs|
    ensures ClosedEntries(sys, start, SetOf(w.libs))
  {
    forall e, y | e in SetOf(w.libs) && Leads(sys, e, y) ensures y in SetOf(w.libs) {
      var j :| 0 <= j < |w.libs| && w.libs[j] == e;
      var found := sys.resolve(w.libs[j]);
      assert y in SetOf(found.more) || (IsPath(found.target) && y in SetOf(sys.ldd(found.target.value.src)));
    }
    assert forall e :: e in start ==> e in SetOf(start);
  }

  lemma WorkComplete(sys: System, start: seq<string>, w: Work)
    requires Working(sys, start, w) && w.k == |w.libs|
    ensures Complete(sys, start, SetOf(w.libs), w.copied)
  {
    WorkClosed(sys, start, w);
    forall f | FilesOf(sys, SetOf(w.libs), f) ensures exists t :: t in w.copied && t.src == f {
      var e :| e in SetOf(w.libs) && IsPath(sys.resolve(e).target) && sys.resolve(e).target.value.src == f;
      var j :| 0 <= j < |w.libs| && w.libs[j] == e;
      assert sys.resolve(w.libs[j]).target.value.src in w.done;
      var i :| 0 <= i < |w.copied| && w.copied[i].src == f;
      assert w.copied[i] in w.copied;
    }
    forall t | t in w.copied
      ensures FilesOf(sys, SetOf(w.libs), t.src) && exists e :: e in SetOf(w.libs) && sys.resolve(e).target == Some(t) {
      var e :| e in w.libs && sys.resolve(e).target == Some(t) && IsPath(Some(t));
      assert e in SetOf(w.libs);
    }
  }

  /** add_libraries(): the list grows while it is processed, and every source is
      copied at most once. */
  method AddLibraries(sys: System, start: seq<string>) returns (libs: seq<string>, copied: seq<Target>)
    requires PlainPaths(sys)
    ensures Complete(sys, start, SetOf(libs), copied)
  {
    libs, copied := start, [];
    var done: set<string>, k := {}, 0;
    while k < |libs|
      invariant 0 <= k <= |libs| && Working(sys, start, Work(libs, k, done, copied))
      decreases sys.files - done, Globs(sys, libs[k..]), |libs| - k
    {
      ghost var w := Work(libs, k, done, copied);
      NextWorking(sys, start, w);
      NextProgress(sys, w);
      var found := sys.resolve(libs[k]);
      libs := libs + found.more;
      k := k + 1;
      if IsPath(found.target) {
        var src := found.target.value.src;
        if src !in done {
          done := done + {src};
          if src in sys.files {
            copied := copied + [found.target.value];
            if src in sys.executables {
              libs := libs + sys.ldd(src);
            }
          }
        }
      }
      assert Work(libs, k, done, copied) == Next(sys, w);
    }
    WorkComplete(sys, start, Work(libs, k, done, copied));
  }

  // ---------- executables ----------

  /** What an entry of the list of programs stands for: with a path translation the
      further hits of globbing join the programs, without one the libraries. */
  datatype Program = Program(morePrograms: seq<string>, moreLibraries: seq<string>, target: Option<Target>)

  datatype Programs = Programs(executables: set<string>, ldd: string -> seq<string>, resolve: string -> Program)

  ghost predicate PlainPrograms(ps: Programs) {
    forall e, y :: y in ps.resolve(e).morePrograms ==> ps.resolve(y).morePrograms == []
  }

  predicate IsProgram(ps: Programs, t: Option<Target>) { t.Some? && t.value.src in ps.executables }

  function ProgramGlobs(ps: Programs, bins: seq<string>): nat {
    if bins == [] then 0 else (if ps.resolve(bins[0]).morePrograms != [] then 1 else 0) + ProgramGlobs(ps, bins[1..])
  }

  lemma {:induction false} ProgramGlobsConcat(ps: Programs, a: seq<string>, b: seq<string>)
    requires forall y :: y in b ==> ps.resolve(y).morePrograms == []
    ensures ProgramGlobs(ps, a + b) == ProgramGlobs(ps, a)
    decreases |a| + |b|
  {
    if a != [] {
      assert (a + b)[1..] == a[1..] + b;
      ProgramGlobsConcat(ps, a[1..], b);
    } else if b != [] {
      assert b[0] in b && a + b == b && [] + b[1..] == b[1..];
      ProgramGlobsConcat(ps, [], b[1..]);
    }
  }

  /** What was pushed to the libraries for the programs of a list. */
  function GlobbedLibraries(ps: Programs, bins: seq<string>): seq<string> {
    if bins == [] then [] else GlobbedLibraries(ps, bins[..|bins| - 1]) + ps.resolve(bins[|bins| - 1]).moreLibraries
  }

  function LinkedLibraries(ps: Programs, bins: seq<string>): seq<string> {
    if bins == [] then []
    else
      var t := ps.resolve(bins[|bins| - 1]).target;
      LinkedLibraries(ps, bins[..|bins| - 1]) + if IsProgram(ps, t) then ps.ldd(t.value.src) else []
  }

  function CopiedPrograms(ps: Programs, bins: seq<string>): seq<Target> {
    if bins == [] then []
    else
      var t := ps.resolve(bins[|bins| - 1]).target;
      CopiedPrograms(ps, bins[..|bins| - 1]) + if IsProgram(ps, t) then [t.value] else []
  }

  lemma Assoc(a: seq<string>, b: seq<string>, c: seq<string>)
    ensures a + b + c == a + (b + c)
  {
  }

  lemma OneMoreProgram(ps: Programs, bins: seq<string>, k: nat)
    requires k < |bins|
    ensures var p := ps.resolve(bins[k]);
            var front := (bins + p.morePrograms)[..k + 1];
            && GlobbedLibraries(ps, front) == GlobbedLibraries(ps, bins[..k]) + p.moreLibraries
            && LinkedLibraries(ps, front)
               == LinkedLibraries(ps, bins[..k]) + (if IsProgram(ps, p.target) then ps.ldd(p.target.value.src) else [])
            && CopiedPrograms(ps, front)
               == CopiedPrograms(ps, bins[..k]) + (if IsProgram(ps, p.target) then [p.target.value] else [])
  {
    var front := (bins + ps.resolve(bins[k]).morePrograms)[..k + 1];
    assert front[..k] == bins[..k] && front[k] == bins[k];
  }

  lemma MoreGlobs(ps: Programs, bins: seq<string>, k: nat)
    requires PlainPrograms(ps) && k < |bins|
    ensures var more := ps.resolve(bins[k]).morePrograms;
            if more == [] then bins + more == bins
            else ProgramGlobs(ps, (bins + more)[k + 1..]) < ProgramGlobs(ps, bins[k..])
    ensures ProgramGlobs(ps, bins[k + 1..]) <= ProgramGlobs(ps, bins[k..])
    ensures SetOf(ps.resolve(bins[k]).morePrograms) <= SetOf(bins + ps.resolve(bins[k]).morePrograms)
    ensures SetOf(bins) <= SetOf(bins + ps.resolve(bins[k]).morePrograms)
  {
    var more := ps.resolve(bins[k]).morePrograms;
    assert bins[k..][1..] == bins[k + 1..] && (bins + more)[k + 1..] == bins[k + 1..] + more;
    ProgramGlobsConcat(ps, bins[k + 1..], more);
    SetOfConcat(bins, more);
  }

  /** A set of programs contains the list and all that its entries stand for. */
  ghost predicate ClosedPrograms(ps: Programs, start: seq<string>, s: set<string>) {
    SetOf(start) <= s && forall e :: e in s ==> SetOf(ps.resolve(e).morePrograms) <= s
  }

  /** The list contains nothing but what every closed set contains. */
  ghost predicate OnlyNeeded(ps: Programs, start: seq<string>, bins: seq<string>) {
    forall s :: ClosedPrograms(ps, start, s) ==> SetOf(bins) <= s
  }

  lemma StillOnlyNeeded(ps: Programs, start: seq<string>, bins: seq<string>, k: nat)
    requires OnlyNeeded(ps, start, bins) && k < |bins|
    ensures OnlyNeeded(ps, start, bins + ps.resolve(bins[k]).morePrograms)
  {
    forall s | ClosedPrograms(ps, start, s) ensures SetOf(bins + ps.resolve(bins[k]).morePrograms) <= s {
      assert bins[k] in SetOf(bins);
      SetOfConcat(bins, ps.resolve(bins[k]).morePrograms);
    }
  }

  lemma AllProcessed(ps: Programs, start: seq<string>, bins: seq<string>)
    requires start <= bins && forall j :: 0 <= j < |bins| ==> SetOf(ps.resolve(bins[j]).morePrograms) <= SetOf(bins)
    ensures ClosedPrograms(ps, start, SetOf(bins))
  {
  }

  /** add_executables(): the programs to copy, which are the least closed set, and the
      libraries extended by the leftovers of globbing and by what ldd prints for every
      program. */
  method AddExecutables(ps: Programs, programs: seq<string>, libraries: seq<string>)
    returns (bins: seq<string>, libs: seq<string>, copied: seq<Target>)
    requires PlainPrograms(ps)
    ensures programs <= bins && ClosedPrograms(ps, programs, SetOf(bins)) && OnlyNeeded(ps, programs, bins)
    ensures libs == libraries + GlobbedLibraries(ps, bins) + LinkedLibraries(ps, bins)
    ensures copied == CopiedPrograms(ps, bins)
  {
    bins, libs, copied := programs, libraries, [];
    var linked: seq<string>, k := [], 0;
    while k < |bins|
      invariant 0 <= k <= |bins| && programs <= bins && OnlyNeeded(ps, programs, bins)
      invariant libs == libraries + GlobbedLibraries(ps, bins[..k]) && linked == LinkedLibraries(ps, bins[..k])
      invariant copied == CopiedPrograms(ps, bins[..k])
      invariant forall j :: 0 <= j < k ==> SetOf(ps.resolve(bins[j]).morePrograms) <= SetOf(bins)
      decreases ProgramGlobs(ps, bins[k..]), |bins| - k
    {
      var program := ps.resolve(bins[k]);
      OneMoreProgram(ps, bins, k);
      MoreGlobs(ps, bins, k);
      StillOnlyNeeded(ps, programs, bins, k);
      Assoc(libraries, GlobbedLibraries(ps, bins[..k]), program.moreLibraries);
      bins := bins + program.morePrograms;
      libs := libs + program.moreLibraries;
      if IsProgram(ps, program.target) {
        linked := linked + ps.ldd(program.target.value.src);
        copied := copied + [program.target.value];
      }
      k := k + 1;
    }
    assert bins[..k] == bins;
    AllProcessed(ps, programs, bins);
    libs := libs + linked;
  }

  lemma {:induction false} LinkedByProgram(ps: Programs, bins: seq<string>, e: string)
    requires e in bins && IsProgram(ps, ps.resolve(e).target)
    ensures forall y :: y in ps.ldd(ps.resolve(e).target.value.src) ==> y in LinkedLibraries(ps, bins)
    decreases |bins|
  {
    var front, last := bins[..|bins| - 1], bins[|bins| - 1];
    assert bins == front + [last];
    if e != last {
      LinkedByProgram(ps, front, e);
    }
  }

  /** What the list of libraries starts with after the programs were copied. */
  function StartLibraries(ps: Programs, libraries: seq<string>, bins: seq<string>): seq<string> {
    libraries + GlobbedLibraries(ps, bins) + LinkedLibraries(ps, bins)
  }

  /** Programs first, then libraries: the programs are the least closed set, and the
      libraries copied are exactly the existing files of the least set that contains the
      requested libraries and whatever the dynamic linker needs for a copied program,
      directly or through other libraries, each once. */
  method FillRamdisk(ps: Programs, sys: System, programs: seq<string>, libraries: seq<string>)
    returns (bins: seq<string>, programTargets: seq<Target>, libs: seq<string>, copied: seq<Target>)
    requires PlainPrograms(ps) && PlainPaths(sys)
    ensures ClosedPrograms(ps, programs, SetOf(bins)) && OnlyNeeded(ps, programs, bins)
    ensures programTargets == CopiedPrograms(ps, bins)
    ensures Complete(sys, StartLibraries(ps, libraries, bins), SetOf(libs), copied)
    ensures forall e :: e in bins && IsProgram(ps, ps.resolve(e).target) ==>
              SetOf(ps.ldd(ps.resolve(e).target.value.src)) <= SetOf(libs)
  {
    var start;
    bins, start, programTargets := AddExecutables(ps, programs, libraries);
    libs, copied := AddLibraries(sys, start);
    forall e | e in bins && IsProgram(ps, ps.resolve(e).target)
      ensures SetOf(ps.ldd(ps.resolve(e).target.value.src)) <= SetOf(libs)
    {
      LinkedByProgram(ps, bins, e);
      forall y | y in ps.ldd(ps.resolve(e).target.value.src) ensures y in libs {
        assert y in start && y in SetOf(libs);
      }
    }
  }
}
