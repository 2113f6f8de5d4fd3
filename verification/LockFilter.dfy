/**
 The lock-file filter: drop the excluded packages, and every package that only excluded packages require. Lines and
 names are taken as parsed; a line may name the parent that a package was locked for.
 */
module LockFilter {
  import opened Words

  datatype Line = Line(text: string, via: Option<string>)

  datatype Package = Package(name: string, lines: seq<Line>)
  {
    /** The recorded parents, in order. */
    function Parents(): seq<string> {
      ViaNames(lines)
    }
  }

  function ViaNames(lines: seq<Line>): seq<string> {
    if lines == [] then [] else
      (if lines[0].via.Some? then [lines[0].via.value] else []) + ViaNames(lines[1..])
  }

  function NamesOf(packages: seq<Package>): set<string> {
    set i | 0 <= i < |packages| :: packages[i].name
  }

  /** A package that has recorded parents, all of them excluded. */
  predicate OnlyFor(p: Package, excluded: set<string>) {
    p.Parents() != [] && forall i :: 0 <= i < |p.Parents()| ==> p.Parents()[i] in excluded
  }

  /** The set leaves out no package that only its members require. */
  predicate Closed(packages: seq<Package>, excluded: set<string>) {
    forall i :: 0 <= i < |packages| && OnlyFor(packages[i], excluded) ==> packages[i].name in excluded
  }

  /** The least closed set that contains the requested exclusions. */
  ghost predicate IsClosure(packages: seq<Package>, requested: set<string>, closure: set<string>) {
    && requested <= closure && Closed(packages, closure)
    && forall s: set<string> :: requested <= s && Closed(packages, s) ==> closure <= s
  }

  /** There is only one least closed set. */
  lemma ClosureUnique(packages: seq<Package>, requested: set<string>, a: set<string>, b: set<string>)
    requires IsClosure(packages, requested, a) && IsClosure(packages, requested, b)
    ensures a == b
  {
  }

  /** Whatever the order of the packages, the closure is the same. */
  lemma ClosureIgnoresOrder(packages: seq<Package>, others: seq<Package>, requested: set<string>, closure: set<string>)
    requires multiset(packages) == multiset(others) && IsClosure(packages, requested, closure)
    ensures IsClosure(others, requested, closure)
  {
    forall s: set<string>
      ensures Closed(packages, s) <==> Closed(others, s)
    {
      SameClosed(packages, others, s);
      SameClosed(others, packages, s);
    }
  }

  lemma SameClosed(packages: seq<Package>, others: seq<Package>, s: set<string>)
    requires multiset(packages) == multiset(others)
    ensures Closed(packages, s) ==> Closed(others, s)
  {
    forall i | 0 <= i < |others| && OnlyFor(others[i], s) && Closed(packages, s)
      ensures others[i].name in s
    {
      assert others[i] in multiset(others);
      assert others[i] in packages;
    }
  }

  /** Nothing is excluded without cause: a name was asked for, or only excluded packages require it. */
  lemma ExcludedForCause(packages: seq<Package>, requested: set<string>, closure: set<string>, name: string)
    requires IsClosure(packages, requested, closure) && name in closure && name !in requested
    ensures exists i :: 0 <= i < |packages| && packages[i].name == name && OnlyFor(packages[i], closure)
  {
    var without := closure - {name};
    assert name !in without;
    assert !Closed(packages, without);
    var i :| 0 <= i < |packages| && OnlyFor(packages[i], without) && packages[i].name !in without;
    OnlyForGrows(packages[i], without, closure);
  }

  lemma OnlyForGrows(p: Package, s: set<string>, t: set<string>)
    requires s <= t && OnlyFor(p, s)
    ensures OnlyFor(p, t)
  {
  }

  /** The names not yet excluded; each round of the loop that changes anything takes one out. */
  ghost function Left(packages: seq<Package>, excluded: set<string>): nat {
    |NamesOf(packages) - excluded|
  }

  lemma LeftShrinks(packages: seq<Package>, i: nat, excluded: set<string>)
    requires i < |packages| && packages[i].name !in excluded
    ensures Left(packages, excluded + {packages[i].name}) < Left(packages, excluded)
  {
    var name := packages[i].name;
    assert name in NamesOf(packages);
    assert NamesOf(packages) - (excluded + {name}) == (NamesOf(packages) - excluded) - {name};
  }

  /** The `while changed` loop. */
  method Exclude(packages: seq<Package>, requested: set<string>) returns (excluded: set<string>)
    ensures IsClosure(packages, requested, excluded)
  {
    excluded := requested;
    var changed := true;
    while changed
      invariant requested <= excluded
      invariant forall s: set<string> :: requested <= s && Closed(packages, s) ==> excluded <= s
      invariant !changed ==> Closed(packages, excluded)
      decreases Left(packages, excluded), changed
    {
      changed := false;
      ghost var before := excluded;
      for i := 0 to |packages|
        invariant requested <= before <= excluded
        invariant forall s: set<string> :: requested <= s && Closed(packages, s) ==> excluded <= s
        invariant changed ==> Left(packages, excluded) < Left(packages, before)
        invariant !changed ==>
          && excluded == before
          && forall j :: 0 <= j < i && OnlyFor(packages[j], excluded) ==> packages[j].name in excluded
      {
        var package := packages[i];
        if package.name in excluded || package.Parents() == [] {
          continue;
        }
        if forall k :: 0 <= k < |package.Parents()| ==> package.Parents()[k] in excluded {
          LeftShrinks(packages, i, excluded);
          excluded := excluded + {package.name};
          changed := true;
        }
      }
    }
  }

  // ---- The output pass -------------------------------------------------------------------------------------

  predicate KeepsLine(line: Line, excluded: set<string>) {
    line.via.None? || line.via.value !in excluded
  }

  function KeptLines(lines: seq<Line>, excluded: set<string>): seq<Line> {
    if lines == [] then [] else
      var last := lines[|lines| - 1];
      KeptLines(lines[..|lines| - 1], excluded) + (if KeepsLine(last, excluded) then [last] else [])
  }

  function Kept(packages: seq<Package>, excluded: set<string>): seq<Line> {
    if packages == [] then [] else
      var last := packages[|packages| - 1];
      Kept(packages[..|packages| - 1], excluded)
      + (if last.name in excluded then [] else KeptLines(last.lines, excluded))
  }

  /** Where a line stands in the input. */
  datatype Position = Position(package: nat, line: nat)

  predicate Within(packages: seq<Package>, p: Position) {
    p.package < |packages| && p.line < |packages[p.package].lines|
  }

  function LineAt(packages: seq<Package>, p: Position): Line
    requires Within(packages, p)
  {
    packages[p.package].lines[p.line]
  }

  predicate Before(a: Position, b: Position) {
    a.package < b.package || (a.package == b.package && a.line < b.line)
  }

  /** The line belongs to a package outside the closure, and names no parent in it. */
  predicate Stays(packages: seq<Package>, p: Position, closure: set<string>)
    requires Within(packages, p)
  {
    && packages[p.package].name !in closure
    && (LineAt(packages, p).via.Some? ==> LineAt(packages, p).via.value !in closure)
  }

  /** The lines are read from these positions. */
  ghost predicate ReadFrom(packages: seq<Package>, sources: seq<Position>, lines: seq<Line>) {
    && |lines| == |sources|
    && forall k :: 0 <= k < |sources| ==>
      Within(packages, sources[k]) && lines[k] == LineAt(packages, sources[k])
  }

  ghost predicate Ascending(sources: seq<Position>) {
    forall j, k :: 0 <= j < k < |sources| ==> Before(sources[j], sources[k])
  }

  ghost predicate Exactly(packages: seq<Package>, closure: set<string>, sources: seq<Position>) {
    forall p :: Within(packages, p) ==> (p in sources <==> Stays(packages, p, closure))
  }

  /** The lines are those at exactly the positions that stay, each once and in input order. */
  ghost predicate Selects(packages: seq<Package>, closure: set<string>, sources: seq<Position>, lines: seq<Line>) {
    ReadFrom(packages, sources, lines) && Ascending(sources) && Exactly(packages, closure, sources)
  }

  /** The kept lines of one package, by their places in it. */
  ghost predicate SelectsLines(lines: seq<Line>, closure: set<string>, places: seq<nat>, kept: seq<Line>) {
    && |kept| == |places|
    && (forall k :: 0 <= k < |places| ==> places[k] < |lines| && kept[k] == lines[places[k]])
    && (forall j, k :: 0 <= j < k < |places| ==> places[j] < places[k])
    && (forall i :: 0 <= i < |lines| ==> (i in places <==> KeepsLine(lines[i], closure)))
  }

  lemma PlacesMore(front: seq<Line>, last: Line, closure: set<string>, places: seq<nat>, kept: seq<Line>)
    requires SelectsLines(front, closure, places, kept)
    ensures KeepsLine(last, closure) ==> SelectsLines(front + [last], closure, places + [|front|], kept + [last])
    ensures !KeepsLine(last, closure) ==> SelectsLines(front + [last], closure, places, kept)
  {
    var lines := front + [last];
    forall i | 0 <= i < |lines|
      ensures i in (if KeepsLine(last, closure) then places + [|front|] else places) <==> KeepsLine(lines[i], closure)
    {
      if i < |front| {
        assert lines[i] == front[i];
      }
    }
  }

  lemma {:induction false} KeptLinesSelect(lines: seq<Line>, closure: set<string>) returns (places: seq<nat>)
    ensures SelectsLines(lines, closure, places, KeptLines(lines, closure))
  {
    places := [];
    if lines != [] {
      var front, last := lines[..|lines| - 1], lines[|lines| - 1];
      places := KeptLinesSelect(front, closure);
      PlacesMore(front, last, closure, places, KeptLines(front, closure));
      assert lines == front + [last];
      if KeepsLine(last, closure) {
        places := places + [|front|];
      } else {
        assert KeptLines(lines, closure) == KeptLines(front, closure);
      }
    }
  }

  /** The places of one more package, as positions. */
  ghost function PositionsIn(package: nat, places: seq<nat>): (ps: seq<Position>)
    ensures |ps| == |places|
  {
    seq(|places|, k requires 0 <= k < |places| => Position(package, places[k]))
  }

  /** What the lines of one more package add. */
  ghost predicate Adds(last: Package, closure: set<string>, places: seq<nat>, more: seq<Line>) {
    if last.name in closure then places == [] && more == [] else SelectsLines(last.lines, closure, places, more)
  }

  lemma StaysMore(front: seq<Package>, last: Package, closure: set<string>, sources: seq<Position>, kept: seq<Line>,
                  places: seq<nat>, more: seq<Line>, p: Position)
    requires Selects(front, closure, sources, kept) && Adds(last, closure, places, more)
    requires Within(front + [last], p)
    ensures p in sources + PositionsIn(|front|, places) <==> Stays(front + [last], p, closure)
  {
    if p.package < |front| {
      assert Within(front, p) && (front + [last])[p.package] == front[p.package];
    } else if p.line in places {
      var k :| 0 <= k < |places| && places[k] == p.line;
      assert PositionsIn(|front|, places)[k] == p;
    }
  }

  lemma ReadsMore(front: seq<Package>, last: Package, sources: seq<Position>, kept: seq<Line>, places: seq<nat>,
                  more: seq<Line>)
    requires ReadFrom(front, sources, kept) && |more| == |places|
    requires forall k :: 0 <= k < |places| ==> places[k] < |last.lines| && more[k] == last.lines[places[k]]
    ensures ReadFrom(front + [last], sources + PositionsIn(|front|, places), kept + more)
  {
    var all := sources + PositionsIn(|front|, places);
    forall k | 0 <= k < |all|
      ensures Within(front + [last], all[k]) && (kept + more)[k] == LineAt(front + [last], all[k])
    {
      if k < |sources| {
        assert (front + [last])[sources[k].package] == front[sources[k].package];
      }
    }
  }

  lemma AscendsMore(front: seq<Package>, sources: seq<Position>, kept: seq<Line>, places: seq<nat>)
    requires ReadFrom(front, sources, kept) && Ascending(sources)
    requires forall j, k :: 0 <= j < k < |places| ==> places[j] < places[k]
    ensures Ascending(sources + PositionsIn(|front|, places))
  {
  }

  lemma SelectsMore(front: seq<Package>, last: Package, closure: set<string>, sources: seq<Position>, kept: seq<Line>,
                    places: seq<nat>, more: seq<Line>)
    requires Selects(front, closure, sources, kept) && Adds(last, closure, places, more)
    ensures Selects(front + [last], closure, sources + PositionsIn(|front|, places), kept + more)
  {
    ReadsMore(front, last, sources, kept, places, more);
    AscendsMore(front, sources, kept, places);
    forall p | Within(front + [last], p)
      ensures p in sources + PositionsIn(|front|, places) <==> Stays(front + [last], p, closure)
    {
      StaysMore(front, last, closure, sources, kept, places, more, p);
    }
  }

  lemma {:induction false} KeptSelects(packages: seq<Package>, closure: set<string>) returns (sources: seq<Position>)
    ensures Selects(packages, closure, sources, Kept(packages, closure))
  {
    sources := [];
    if packages != [] {
      var front, last := packages[..|packages| - 1], packages[|packages| - 1];
      var before := KeptSelects(front, closure);
      var places := [];
      if last.name !in closure {
        places := KeptLinesSelect(last.lines, closure);
      }
      SelectsMore(front, last, closure, before, Kept(front, closure), places,
                  if last.name in closure then [] else KeptLines(last.lines, closure));
      assert packages == front + [last];
      sources := before + PositionsIn(|front|, places);
    }
  }

  datatype Outcome = Filtered(lines: seq<Line>) | ValueError

  /**
   After the preamble the output holds exactly the lines at the positions that stay, each once and in input order:
   those of packages outside the closure that name no parent in it.
   */
  method FilterLock(preamble: seq<Line>, packages: seq<Package>, requested: set<string>)
    returns (outcome: Outcome, ghost closure: set<string>, ghost sources: seq<Position>)
    ensures outcome.Filtered? <==> packages != [] && requested <= NamesOf(packages)
    ensures outcome.Filtered? ==>
      IsClosure(packages, requested, closure) && outcome.lines == preamble + Kept(packages, closure)
    ensures outcome.Filtered? ==>
      preamble <= outcome.lines && Selects(packages, closure, sources, outcome.lines[|preamble|..])
  {
    closure, sources := {}, [];
    if packages == [] {
      return ValueError, closure, sources;
    }
    var missing := requested - NamesOf(packages);
    if missing != {} {
      return ValueError, closure, sources;
    }
    assert requested <= NamesOf(packages) by {
      assert forall name :: name in requested && name !in NamesOf(packages) ==> name in missing;
    }
    var excluded := Exclude(packages, requested);
    closure := excluded;
    var output := preamble;
    for i := 0 to |packages|
      invariant output == preamble + Kept(packages[..i], excluded)
    {
      var package := packages[i];
      assert packages[..i + 1][..i] == packages[..i];
      if package.name in excluded {
        continue;
      }
      var kept := FilterLines(package.lines, excluded);
      output := output + kept;
    }
    assert packages[..|packages|] == packages;
    outcome := Filtered(output);
    sources := KeptSelects(packages, excluded);
    assert output[|preamble|..] == Kept(packages, excluded);
  }

  method FilterLines(lines: seq<Line>, excluded: set<string>) returns (kept: seq<Line>)
    ensures kept == KeptLines(lines, excluded)
  {
    kept := [];
    for i := 0 to |lines|
      invariant kept == KeptLines(lines[..i], excluded)
    {
      assert lines[..i + 1][..i] == lines[..i];
      var line := lines[i];
      if line.via.Some? && line.via.value in excluded {
        continue;
      }
      kept := kept + [line];
    }
    assert lines[..|lines|] == lines;
  }

  lemma {:induction false} ViaInLines(lines: seq<Line>, name: string)
    ensures name in ViaNames(lines) <==> exists i :: 0 <= i < |lines| && lines[i].via == Some(name)
  {
    if lines != [] {
      ViaInLines(lines[1..], name);
      assert forall i :: 0 < i < |lines| ==> lines[i] == lines[1..][i - 1];
      assert ViaNames(lines) ==
             (if lines[0].via.Some? then [lines[0].via.value] else []) + ViaNames(lines[1..]);
      if name in ViaNames(lines[1..]) {
        var i :| 0 <= i < |lines[1..]| && lines[1..][i].via == Some(name);
        assert lines[i + 1].via == Some(name);
      }
    }
  }

  lemma {:induction false} KeptLinesMembers(lines: seq<Line>, excluded: set<string>, line: Line)
    ensures line in KeptLines(lines, excluded) <==> line in lines && KeepsLine(line, excluded)
  {
    if lines != [] {
      KeptLinesMembers(lines[..|lines| - 1], excluded, line);
      assert lines == lines[..|lines| - 1] + [lines[|lines| - 1]];
    }
  }

  /** A kept package that recorded parents keeps the line of at least one parent that is itself not excluded. */
  lemma KeptParentSurvives(packages: seq<Package>, requested: set<string>, closure: set<string>, p: Package)
    requires IsClosure(packages, requested, closure) && p in packages && p.name !in closure && p.Parents() != []
    ensures exists line :: line in KeptLines(p.lines, closure) && line.via.Some? && line.via.value !in closure
  {
    var i :| 0 <= i < |packages| && packages[i] == p;
    assert !OnlyFor(p, closure);
    var k :| 0 <= k < |p.Parents()| && p.Parents()[k] !in closure;
    var name := p.Parents()[k];
    ViaInLines(p.lines, name);
    var j :| 0 <= j < |p.lines| && p.lines[j].via == Some(name);
    KeptLinesMembers(p.lines, closure, p.lines[j]);
  }

  /** The lines of `a` stand in `b`, in their order. */
  predicate InOrder(a: seq<Line>, b: seq<Line>)
    decreases |b|
  {
    a == [] ||
    (b != [] &&
     (InOrder(a, b[..|b| - 1]) ||
      (a[|a| - 1] == b[|b| - 1] && InOrder(a[..|a| - 1], b[..|b| - 1]))))
  }

  function AllLines(packages: seq<Package>): seq<Line> {
    if packages == [] then [] else AllLines(packages[..|packages| - 1]) + packages[|packages| - 1].lines
  }

  lemma {:induction false} InOrderAppend(a: seq<Line>, b: seq<Line>, c: seq<Line>, d: seq<Line>)
    requires InOrder(a, b) && InOrder(c, d)
    ensures InOrder(a + c, b + d)
    decreases |d|
  {
    if d == [] {
      assert a + c == a && b + d == b;
    } else {
      assert (b + d)[..|b + d| - 1] == b + d[..|d| - 1];
      if InOrder(c, d[..|d| - 1]) {
        InOrderAppend(a, b, c, d[..|d| - 1]);
      } else {
        assert (a + c)[..|a + c| - 1] == a + c[..|c| - 1];
        InOrderAppend(a, b, c[..|c| - 1], d[..|d| - 1]);
      }
    }
  }

  lemma {:induction false} KeptLinesInOrder(lines: seq<Line>, excluded: set<string>)
    ensures InOrder(KeptLines(lines, excluded), lines)
  {
    if lines != [] {
      var front, last := lines[..|lines| - 1], lines[|lines| - 1];
      KeptLinesInOrder(front, excluded);
      InOrderAppend(KeptLines(front, excluded), front, if KeepsLine(last, excluded) then [last] else [], [last]);
      assert lines == front + [last];
    }
  }

  /** The output keeps the order of the input lines. */
  lemma {:induction false} KeptInOrder(packages: seq<Package>, excluded: set<string>)
    ensures InOrder(Kept(packages, excluded), AllLines(packages))
  {
    if packages != [] {
      var front, last := packages[..|packages| - 1], packages[|packages| - 1];
      KeptInOrder(front, excluded);
      KeptLinesInOrder(last.lines, excluded);
      InOrderAppend(Kept(front, excluded), AllLines(front),
                    if last.name in excluded then [] else KeptLines(last.lines, excluded), last.lines);
    }
  }
}
