/** The recursive missing-dependency builder of the Python build rules.

    Starting from one source file, it asks module discovery which imported
    modules cannot be found, asks the source database which files would
    provide them, requests one rebuild of all those not already rebuilt in this
    session, and then analyses each newly rebuilt file in turn, depth first.
    The result is the set of every candidate file located along the way.

    Discovery (modulefinder), the database and the rebuild primitive are
    outside the model: discovery and the database are the two functions of an
    `Oracles` value, and what the builder does with them is recorded, in
    order, in an event log. */
module PyDep {
  import opened Wrappers
  import opened Strings
  import opened Paths

  type ModuleName = string

  /** The external services the builder consults. */
  datatype Oracles = Oracles(
    /** The modules a file imports that cannot be found on the search path
        (modulefinder's `badmodules`). */
    discover: (NormPath, seq<string>) -> set<ModuleName>,
    /** The candidate source files the database knows for the given modules
        (`try_get_sources`); unknown modules contribute nothing. */
    locate: set<ModuleName> -> seq<NormPath>)

  /** What the builder does, in order. */
  datatype Event =
    | Analysed(file: NormPath)                               // module discovery run on a file
    | Queried(missing: set<ModuleName>, found: seq<NormPath>) // one database session and its answer
    | Requested(batch: seq<NormPath>)                        // one call of redo_ifchange

  /** The state shared by the nested calls of one build: `built_deps`, the
      `deps_not_in_path` list, and the log of events so far. */
  datatype Session = Session(built: set<NormPath>, located: seq<NormPath>, log: seq<Event>)

  /** There is no `PYTHONPATH` to fall back on. */
  datatype ConfigError = NoPythonPath

  /** The termination assumption: every file the database can name lies in
      one finite set. */
  ghost predicate LocatesWithin(o: Oracles, universe: set<NormPath>)
  {
    forall missing, x :: x in o.locate(missing) ==> x in universe
  }

  /** The search path discovery uses: the one given, or, when it is empty,
      `PYTHONPATH` split at colons. */
  function SearchPath(path: seq<string>, env: Option<string>): (r: Result<seq<string>, ConfigError>)
    ensures r.Failure? <==> |path| == 0 && env.None?
    ensures |path| > 0 ==> r == Success(path)
    ensures |path| == 0 && r.Success? ==>
      && |r.value| >= 1
      && Join(r.value, ':') == env.value
      && forall i :: 0 <= i < |r.value| ==> ':' !in r.value[i]
  {
    if |path| > 0 then Success(path)
    else if env.Some? then Success(Split(env.value, ':'))
    else Failure(NoPythonPath)
  }

  /** Without a given path, the search path is the one list of colon-free
      pieces that joins back to `PYTHONPATH`. */
  lemma SearchPathPieces(env: string, pieces: seq<string>)
    requires |pieces| >= 1 && forall i :: 0 <= i < |pieces| ==> ':' !in pieces[i]
    requires Join(pieces, ':') == env
    ensures SearchPath([], Some(env)) == Success(pieces)
  {
    SplitOfJoin(pieces, ':');
  }

  /** An empty `PYTHONPATH` gives a search path of one empty entry, as
      `"".split(":")` does. */
  lemma SearchPathEmptyEnv()
    ensures SearchPath([], Some("")) == Success([""])
  {
    SearchPathPieces("", [""]);
  }

  /** `[d for d in found if d not in built]`: order and repetitions are kept. */
  function NotBuilt(found: seq<NormPath>, built: set<NormPath>): (r: seq<NormPath>)
    ensures forall x :: x in r <==> x in found && x !in built
  {
    if |found| == 0 then []
    else (if found[0] in built then [] else [found[0]]) + NotBuilt(found[1..], built)
  }

  /** The filter works piece by piece: filtering a concatenation
      concatenates the filtered pieces, so the kept files stay in order. */
  lemma {:induction false} NotBuiltAppend(a: seq<NormPath>, b: seq<NormPath>, built: set<NormPath>)
    ensures NotBuilt(a + b, built) == NotBuilt(a, built) + NotBuilt(b, built)
    decreases |a|
  {
    if |a| == 0 {
      assert a + b == b;
    } else {
      assert (a + b)[0] == a[0];
      assert (a + b)[1..] == a[1..] + b;
      NotBuiltAppend(a[1..], b, built);
    }
  }

  /** A single file is kept exactly when it is not yet built. */
  lemma NotBuiltOne(x: NormPath, built: set<NormPath>)
    ensures NotBuilt([x], built) == if x in built then [] else [x]
  {
    assert [x][1..] == [];
  }

  /** A pair of files is filtered one file at a time. */
  lemma NotBuiltPair(a: NormPath, b: NormPath, built: set<NormPath>)
    ensures NotBuilt([a, b], built) == (if a in built then [] else [a]) + (if b in built then [] else [b])
  {
    NotBuiltAppend([a], [b], built);
    NotBuiltOne(a, built);
    NotBuiltOne(b, built);
    assert [a] + [b] == [a, b];
  }

  /** The filter keeps every repetition of a file not yet built: duplicates
      within one answer of the database are not removed. */
  lemma {:induction false} NotBuiltKeepsRepeats(found: seq<NormPath>, built: set<NormPath>, x: NormPath)
    requires x !in built
    ensures multiset(NotBuilt(found, built))[x] == multiset(found)[x]
  {
    if |found| > 0 {
      assert found == [found[0]] + found[1..];
      NotBuiltKeepsRepeats(found[1..], built, x);
    }
  }

  /** A subset is no larger than its superset. */
  lemma {:induction false} SubsetSize<T>(a: set<T>, b: set<T>)
    requires a <= b
    ensures |a| <= |b|
    decreases |a|
  {
    if a != {} {
      var x :| x in a;
      SubsetSize(a - {x}, b - {x});
    }
  }

  /** Subtracting more from a set leaves no more of it. */
  lemma SubtractMore<T>(u: set<T>, a: set<T>, b: set<T>)
    requires a <= b
    ensures |u - b| <= |u - a|
  {
    SubsetSize(u - b, u - a);
  }

  /** ... and strictly less when one of its elements is among the new ones. */
  lemma SubtractNew<T>(u: set<T>, a: set<T>, b: set<T>, x: T)
    requires a <= b && x in u && x in b && x !in a
    ensures |u - b| < |u - a|
  {
    SubsetSize(u - b, (u - a) - {x});
  }

  /** The first half of `_inner_build_pydeps(file)`: discovery and, when it
      reports missing modules, one database query whose answer is recorded.
      Returns the session after both and the files still to rebuild. */
  function Analyse(o: Oracles, sp: seq<string>, file: NormPath, s: Session): (r: (Session, seq<NormPath>))
    ensures r.0.built == s.built
    ensures |s.log| < |r.0.log| <= |s.log| + 2 && r.0.log[..|s.log|] == s.log
    ensures forall k :: |s.log| <= k < |r.0.log| ==> !r.0.log[k].Requested?
    ensures r.1 != [] ==> |r.0.log| == |s.log| + 2
    ensures o.discover(file, sp) == {} ==>
      r == (s.(log := s.log + [Analysed(file)]), [])
    ensures o.discover(file, sp) != {} ==>
      var missing := o.discover(file, sp);
      var found := o.locate(missing);
      && r.0.located == s.located + found
      && r.0.log == s.log + [Analysed(file), Queried(missing, found)]
      && r.1 == NotBuilt(found, s.built)
      && forall x :: x in r.1 <==> x in found && x !in s.built
  {
    var missing := o.discover(file, sp);
    if missing == {} then (s.(log := s.log + [Analysed(file)]), [])
    else
      var found := o.locate(missing);
      var s2 := s.(located := s.located + found, log := s.log + [Analysed(file)] + [Queried(missing, found)]);
      assert s2.log == s.log + [Analysed(file), Queried(missing, found)];
      (s2, NotBuilt(found, s.built))
  }

  /** `redo_ifchange(batch)` followed by `built_deps.extend(batch)`. */
  function Request(s: Session, batch: seq<NormPath>): (s': Session)
    ensures s'.built == s.built + set x | x in batch
    ensures s'.located == s.located
    ensures s'.log == s.log + [Requested(batch)]
  {
    s.(built := s.built + (set x | x in batch), log := s.log + [Requested(batch)])
  }

  /** `_inner_build_pydeps(file)` in session `s`. */
  function BuildDepsOf(o: Oracles, sp: seq<string>, universe: set<NormPath>, file: NormPath, s: Session): (s': Session)
    requires LocatesWithin(o, universe)
    ensures s.built <= s'.built
    ensures |s.log| < |s'.log| && s'.log[..|s.log|] == s.log && s'.log[|s.log|] == Analysed(file)
    decreases |universe - s.built|, 0
  {
    var a := Analyse(o, sp, file, s);
    var s2, batch := a.0, a.1;
    if batch == [] then s2
    else
      var s3 := Request(s2, batch);
      assert batch[0] in universe;
      SubtractNew(universe, s.built, s3.built, batch[0]);
      var s4 := BuildEach(o, sp, universe, batch, 0, s3);
      LogPrefix(s.log, s3.log[|s.log|..], s4.log);
      s4
  }

  /** A log extended twice still starts with the original. */
  lemma LogPrefix(log: seq<Event>, d: seq<Event>, log': seq<Event>)
    requires |log + d| <= |log'| && log'[..|log + d|] == log + d
    ensures log'[..|log|] == log
    ensures |d| > 0 ==> log'[|log|] == d[0]
  {
    assert log'[..|log|] == (log + d)[..|log|];
  }

  /** `for dep in batch[i:]: _inner_build_pydeps(dep)`. */
  function BuildEach(o: Oracles, sp: seq<string>, universe: set<NormPath>, batch: seq<NormPath>, i: nat, s: Session): (s': Session)
    requires LocatesWithin(o, universe)
    requires i <= |batch|
    ensures s.built <= s'.built
    ensures |s.log| <= |s'.log| && s'.log[..|s.log|] == s.log
    decreases |universe - s.built|, |batch| - i + 1
  {
    if i == |batch| then s
    else
      var s1 := BuildDepsOf(o, sp, universe, batch[i], s);
      SubtractMore(universe, s.built, s1.built);
      var s2 := BuildEach(o, sp, universe, batch, i + 1, s1);
      assert s2.log[..|s.log|] == s1.log[..|s.log|];
      s2
  }

  // ---------------------------------------------------------------------------
  // What the log records

  /** `x` was passed to some rebuild request of the log. */
  ghost predicate RequestedIn(log: seq<Event>, x: NormPath)
  {
    exists i :: 0 <= i < |log| && log[i].Requested? && x in log[i].batch
  }

  /** `x` was named by some answer of the database in the log. */
  ghost predicate FoundIn(log: seq<Event>, x: NormPath)
  {
    exists i :: 0 <= i < |log| && log[i].Queried? && x in log[i].found
  }

  /** No file is passed to two different rebuild requests. */
  ghost predicate NoRepeatedRequest(log: seq<Event>)
  {
    forall i, j :: 0 <= i < j < |log| && log[i].Requested? && log[j].Requested? ==>
      forall x :: x in log[i].batch ==> x !in log[j].batch
  }

  /** Discovery reports missing modules for `f`. */
  predicate HasMissing(o: Oracles, sp: seq<string>, f: NormPath)
  {
    o.discover(f, sp) != {}
  }

  /** The shape of a log: the database is queried right after a file is
      analysed exactly when discovery reports missing modules for it, with
      those modules, and its answer is recorded; a rebuild request follows a
      query and asks for some of the files that query named. */
  ghost predicate WellOrdered(o: Oracles, sp: seq<string>, log: seq<Event>)
  {
    AnalysesOrdered(o, sp, log) && QueriesOrdered(o, sp, log) && RequestsOrdered(log)
  }

  /** A query follows an analysis exactly when discovery reports missing modules. */
  ghost predicate AnalysesOrdered(o: Oracles, sp: seq<string>, log: seq<Event>)
  {
    forall i {:trigger log[i]} :: 0 <= i < |log| && log[i].Analysed? ==>
      (HasMissing(o, sp, log[i].file) <==> i + 1 < |log| && log[i + 1].Queried?)
  }

  /** A query follows an analysis and records the database's answer for
      exactly the modules discovery reported missing. */
  ghost predicate QueriesOrdered(o: Oracles, sp: seq<string>, log: seq<Event>)
  {
    forall i {:trigger log[i]} :: 0 <= i < |log| && log[i].Queried? ==>
      && 0 < i && log[i - 1].Analysed?
      && log[i].missing == o.discover(log[i - 1].file, sp)
      && log[i].found == o.locate(log[i].missing)
  }

  /** A rebuild request follows a query and asks for some of the files it named. */
  ghost predicate RequestsOrdered(log: seq<Event>)
  {
    forall i {:trigger log[i]} :: 0 <= i < |log| && log[i].Requested? ==>
      && 0 < i && log[i - 1].Queried? && |log[i].batch| > 0
      && forall x :: x in log[i].batch ==> x in log[i - 1].found
  }

  /** The session agrees with its log: `built_deps` holds exactly the files
      requested so far, which are exactly the files located so far, and no
      file was requested twice. */
  ghost predicate Consistent(o: Oracles, sp: seq<string>, s: Session)
  {
    && (forall x :: x in s.built <==> RequestedIn(s.log, x))
    && (forall x :: x in s.located <==> FoundIn(s.log, x))
    && (forall x :: x in s.located <==> x in s.built)
    && NoRepeatedRequest(s.log)
    && WellOrdered(o, sp, s.log)
  }

  /** How appending one event changes what the log has requested and found. */
  lemma AppendAccounting(log: seq<Event>, e: Event)
    ensures forall x :: RequestedIn(log + [e], x) <==> RequestedIn(log, x) || (e.Requested? && x in e.batch)
    ensures forall x :: FoundIn(log + [e], x) <==> FoundIn(log, x) || (e.Queried? && x in e.found)
  {
    var log' := log + [e];
    forall x ensures RequestedIn(log', x) <==> RequestedIn(log, x) || (e.Requested? && x in e.batch) {
      if RequestedIn(log', x) {
        var i :| 0 <= i < |log'| && log'[i].Requested? && x in log'[i].batch;
        if i < |log| { assert log[i] == log'[i]; }
      }
      if RequestedIn(log, x) {
        var i :| 0 <= i < |log| && log[i].Requested? && x in log[i].batch;
        assert log'[i] == log[i];
      }
      if e.Requested? && x in e.batch {
        assert log'[|log|] == e;
      }
    }
    forall x ensures FoundIn(log', x) <==> FoundIn(log, x) || (e.Queried? && x in e.found) {
      if FoundIn(log', x) {
        var i :| 0 <= i < |log'| && log'[i].Queried? && x in log'[i].found;
        if i < |log| { assert log[i] == log'[i]; }
      }
      if FoundIn(log, x) {
        var i :| 0 <= i < |log| && log[i].Queried? && x in log[i].found;
        assert log'[i] == log[i];
      }
      if e.Queried? && x in e.found {
        assert log'[|log|] == e;
      }
    }
  }

  /** Appending an event that requests no file requested before keeps the requests disjoint. */
  lemma AppendNoRepeat(log: seq<Event>, e: Event)
    requires NoRepeatedRequest(log)
    requires e.Requested? ==> forall x :: x in e.batch ==> !RequestedIn(log, x)
    ensures NoRepeatedRequest(log + [e])
  {
    var log' := log + [e];
    forall i, j | 0 <= i < j < |log'| && log'[i].Requested? && log'[j].Requested?
      ensures forall x :: x in log'[i].batch ==> x !in log'[j].batch
    {
      assert log'[i] == log[i];
      if j == |log| {
        forall x | x in log'[i].batch ensures x !in log'[j].batch {
          assert RequestedIn(log, x);
        }
      } else {
        assert log'[j] == log[j];
      }
    }
  }

  /** Appending the analysis of a file discovery finds nothing missing for. */
  lemma AppendQuietAnalysis(o: Oracles, sp: seq<string>, log: seq<Event>, f: NormPath)
    requires WellOrdered(o, sp, log)
    requires o.discover(f, sp) == {}
    ensures WellOrdered(o, sp, log + [Analysed(f)])
  {
    var log' := log + [Analysed(f)];
    forall i | 0 <= i < |log'| && log'[i].Analysed?
      ensures HasMissing(o, sp, log'[i].file) <==> i + 1 < |log'| && log'[i + 1].Queried?
    {
      if i + 1 < |log| {
        assert log'[i] == log[i] && log'[i + 1] == log[i + 1];
      } else if i + 1 == |log| {
        assert log'[i] == log[i] && log'[i + 1] == Analysed(f);
        assert log[i].Analysed? && !(i + 1 < |log|);
        assert !HasMissing(o, sp, log[i].file);
      } else {
        assert log'[i] == Analysed(f);
      }
    }
    forall i | 0 <= i < |log'| && log'[i].Queried? ensures 0 < i && log'[i - 1] == log[i - 1] {
      assert log'[i] == log[i];
    }
    forall i | 0 <= i < |log'| && log'[i].Requested? ensures 0 < i && log'[i - 1] == log[i - 1] {
      assert log'[i] == log[i];
    }
  }

  /** Appending the analysis of a file with missing modules and the query for them. */
  lemma AppendAnalysisAndQuery(o: Oracles, sp: seq<string>, log: seq<Event>, f: NormPath)
    requires WellOrdered(o, sp, log)
    requires o.discover(f, sp) != {}
    ensures WellOrdered(o, sp, log + [Analysed(f), Queried(o.discover(f, sp), o.locate(o.discover(f, sp)))])
  {
    var q := Queried(o.discover(f, sp), o.locate(o.discover(f, sp)));
    var log' := log + [Analysed(f), q];
    forall i | 0 <= i < |log'| && log'[i].Analysed?
      ensures HasMissing(o, sp, log'[i].file) <==> i + 1 < |log'| && log'[i + 1].Queried?
    {
      if i + 1 < |log| {
        assert log'[i] == log[i] && log'[i + 1] == log[i + 1];
      } else if i + 1 == |log| {
        assert log'[i] == log[i] && log'[i + 1] == Analysed(f);
        assert log[i].Analysed? && !(i + 1 < |log|);
        assert !HasMissing(o, sp, log[i].file);
      } else if i == |log| {
        assert log'[i] == Analysed(f) && log'[i + 1] == q;
      }
    }
    forall i | 0 <= i < |log'| && log'[i].Queried?
      ensures 0 < i && log'[i - 1].Analysed? && log'[i].missing == o.discover(log'[i - 1].file, sp)
    {
      if i < |log| { assert log'[i] == log[i] && log'[i - 1] == log[i - 1]; }
    }
    forall i | 0 <= i < |log'| && log'[i].Requested? ensures 0 < i && log'[i - 1] == log[i - 1] {
      assert log'[i] == log[i];
    }
  }

  /** Appending a rebuild request for files of the query just made. */
  lemma AppendRequest(o: Oracles, sp: seq<string>, log: seq<Event>, batch: seq<NormPath>)
    requires WellOrdered(o, sp, log)
    requires |log| > 0 && log[|log| - 1].Queried?
    requires |batch| > 0 && forall x :: x in batch ==> x in log[|log| - 1].found
    ensures WellOrdered(o, sp, log + [Requested(batch)])
  {
    AppendRequestAnalyses(o, sp, log, batch);
    AppendRequestQueries(o, sp, log, batch);
    AppendRequestRequests(log, batch);
  }

  /** A request after a query keeps the analyses ordered. */
  lemma AppendRequestAnalyses(o: Oracles, sp: seq<string>, log: seq<Event>, batch: seq<NormPath>)
    requires AnalysesOrdered(o, sp, log)
    requires |log| > 0 && log[|log| - 1].Queried?
    ensures AnalysesOrdered(o, sp, log + [Requested(batch)])
  {
    var n := |log|;
    var log' := log + [Requested(batch)];
    forall i | 0 <= i < |log'| && log'[i].Analysed?
      ensures HasMissing(o, sp, log'[i].file) <==> i + 1 < |log'| && log'[i + 1].Queried?
    {
      assert i != n;
      assert log'[i] == log[i];
      assert i != n - 1;
      assert log'[i + 1] == log[i + 1];
    }
  }

  /** A request keeps the queries ordered. */
  lemma AppendRequestQueries(o: Oracles, sp: seq<string>, log: seq<Event>, batch: seq<NormPath>)
    requires QueriesOrdered(o, sp, log)
    ensures QueriesOrdered(o, sp, log + [Requested(batch)])
  {
    var log' := log + [Requested(batch)];
    forall i | 0 <= i < |log'| && log'[i].Queried?
      ensures 0 < i && log'[i - 1] == log[i - 1] && log'[i] == log[i]
    {
      assert log'[i] == log[i];
    }
  }

  /** A request for found files right after their query keeps the requests ordered. */
  lemma AppendRequestRequests(log: seq<Event>, batch: seq<NormPath>)
    requires RequestsOrdered(log)
    requires |log| > 0 && log[|log| - 1].Queried?
    requires |batch| > 0 && forall x :: x in batch ==> x in log[|log| - 1].found
    ensures RequestsOrdered(log + [Requested(batch)])
  {
    var n := |log|;
    var log' := log + [Requested(batch)];
    forall i | 0 <= i < |log'| && log'[i].Requested?
      ensures 0 < i && log'[i - 1].Queried? && |log'[i].batch| > 0
      ensures forall x :: x in log'[i].batch ==> x in log'[i - 1].found
    {
      if i == n {
        assert log'[i] == Requested(batch) && log'[i - 1] == log[n - 1];
      } else {
        assert log'[i] == log[i] && log'[i - 1] == log[i - 1];
      }
    }
  }

  /** The analysis step, and the request that may follow it, keep the
      session consistent with its log. */
  lemma AnalyseConsistent(o: Oracles, sp: seq<string>, file: NormPath, s: Session)
    requires Consistent(o, sp, s)
    ensures var a := Analyse(o, sp, file, s);
      && (a.1 == [] ==> Consistent(o, sp, a.0))
      && (a.1 != [] ==> Consistent(o, sp, Request(a.0, a.1)))
  {
    var a := Analyse(o, sp, file, s);
    var s2, batch := a.0, a.1;
    var missing := o.discover(file, sp);
    var log1 := s.log + [Analysed(file)];
    AppendAccounting(s.log, Analysed(file));
    AppendNoRepeat(s.log, Analysed(file));
    if missing == {} {
      AppendQuietAnalysis(o, sp, s.log, file);
    } else {
      var found := o.locate(missing);
      var q := Queried(missing, found);
      assert s2.log == log1 + [q];
      AppendAccounting(log1, q);
      AppendNoRepeat(log1, q);
      AppendAnalysisAndQuery(o, sp, s.log, file);
      if batch == [] {
        assert forall x :: x in found ==> x in s.built;
      } else {
        AppendAccounting(s2.log, Requested(batch));
        AppendNoRepeat(s2.log, Requested(batch));
        AppendRequest(o, sp, s2.log, batch);
      }
    }
  }

  /** Analysing one file keeps the session consistent with its log. */
  lemma {:induction false} BuildDepsOfConsistent(o: Oracles, sp: seq<string>, universe: set<NormPath>, file: NormPath, s: Session)
    requires LocatesWithin(o, universe)
    requires Consistent(o, sp, s)
    ensures Consistent(o, sp, BuildDepsOf(o, sp, universe, file, s))
    decreases |universe - s.built|, 0
  {
    var a := Analyse(o, sp, file, s);
    BuildDepsOfCases(o, sp, universe, file, s);
    AnalyseConsistent(o, sp, file, s);
    if a.1 != [] {
      BuildEachConsistent(o, sp, universe, a.1, 0, Request(a.0, a.1));
    }
  }

  /** Analysing the files of a batch in turn keeps the session consistent. */
  lemma {:induction false} BuildEachConsistent(o: Oracles, sp: seq<string>, universe: set<NormPath>, batch: seq<NormPath>, i: nat, s: Session)
    requires LocatesWithin(o, universe)
    requires i <= |batch|
    requires Consistent(o, sp, s)
    ensures Consistent(o, sp, BuildEach(o, sp, universe, batch, i, s))
    decreases |universe - s.built|, |batch| - i + 1
  {
    if i < |batch| {
      var s1 := BuildDepsOf(o, sp, universe, batch[i], s);
      BuildDepsOfConsistent(o, sp, universe, batch[i], s);
      SubtractMore(universe, s.built, s1.built);
      BuildEachConsistent(o, sp, universe, batch, i + 1, s1);
    }
  }

  // ---------------------------------------------------------------------------
  // Order: depth first, in batch order

  /** The files passed to the rebuild requests of a log. */
  function RequestedSet(log: seq<Event>): set<NormPath>
  {
    if |log| == 0 then {}
    else (if log[0].Requested? then set x | x in log[0].batch else {}) + RequestedSet(log[1..])
  }

  /** `RequestedSet` is the set of files `RequestedIn` the log. */
  lemma {:induction false} RequestedSetIn(log: seq<Event>, x: NormPath)
    ensures x in RequestedSet(log) <==> RequestedIn(log, x)
  {
    if |log| > 0 {
      RequestedSetIn(log[1..], x);
      if RequestedIn(log[1..], x) {
        var i :| 0 <= i < |log[1..]| && log[1..][i].Requested? && x in log[1..][i].batch;
        assert log[i + 1] == log[1..][i];
      }
      if RequestedIn(log, x) {
        var i :| 0 <= i < |log| && log[i].Requested? && x in log[i].batch;
        if i > 0 { assert log[1..][i - 1] == log[i]; }
      }
    }
  }

  /** The files requested in two stretches of a log are those of each. */
  lemma {:induction false} RequestedSetConcat(a: seq<Event>, b: seq<Event>)
    ensures RequestedSet(a + b) == RequestedSet(a) + RequestedSet(b)
  {
    if |a| == 0 {
      assert a + b == b;
    } else {
      assert (a + b)[0] == a[0];
      assert (a + b)[1..] == a[1..] + b;
      RequestedSetConcat(a[1..], b);
    }
  }

  /** An analysis and a query request nothing; a request requests its batch. */
  lemma RequestedSetOfStep(f: NormPath, q: Event, batch: seq<NormPath>)
    requires q.Queried?
    ensures RequestedSet([Analysed(f), q, Requested(batch)]) == set x | x in batch
  {
    var t := [Analysed(f), q, Requested(batch)];
    var t1 := [q, Requested(batch)];
    var t2 := [Requested(batch)];
    assert t2[1..] == [];
    assert RequestedSet(t2) == set x | x in batch;
    assert t1[1..] == t2;
    assert RequestedSet(t1) == RequestedSet(t2);
    assert t[1..] == t1;
  }

  /** `t` is exactly the log of one call `_inner_build_pydeps(f)` when the
      files in `built` are already rebuilt: the analysis of `f`; then, when
      discovery reports missing modules, the query for them with the
      database's answer; then, when some answered files are not yet built,
      one request for exactly those, in answer order and with repeats,
      followed by the logs of the calls for them, one after the other, each
      seeing the files requested before it as built; and nothing else. */
  ghost predicate CallLog(o: Oracles, sp: seq<string>, built: set<NormPath>, f: NormPath, t: seq<Event>)
    decreases |t|, 0
  {
    && |t| > 0 && t[0] == Analysed(f)
    && var missing := o.discover(f, sp);
       if missing == {} then |t| == 1
       else
         && |t| >= 2 && t[1] == Queried(missing, o.locate(missing))
         && var batch := NotBuilt(o.locate(missing), built);
            if batch == [] then |t| == 2
            else (|t| >= 3 && t[2] == Requested(batch)
                  && CallsLog(o, sp, built + (set x | x in batch), batch, t[3..]))
  }

  /** `t` is the logs of the calls for `files`, concatenated in order, each
      call seeing the files requested by the calls before it as built. */
  ghost predicate CallsLog(o: Oracles, sp: seq<string>, built: set<NormPath>, files: seq<NormPath>, t: seq<Event>)
    decreases |t|, |files| + 1
  {
    if |files| == 0 then t == []
    else exists j :: (0 < j <= |t| && CallLog(o, sp, built, files[0], t[..j])
                      && CallsLog(o, sp, built + RequestedSet(t[..j]), files[1..], t[j..]))
  }

  /** The split of the log of the calls for a non-empty list of files into
      the first file's call and the rest. */
  lemma CallsLogHead(o: Oracles, sp: seq<string>, built: set<NormPath>, files: seq<NormPath>, t: seq<Event>)
      returns (j: nat)
    requires |files| > 0 && CallsLog(o, sp, built, files, t)
    ensures 0 < j <= |t| && CallLog(o, sp, built, files[0], t[..j])
    ensures CallsLog(o, sp, built + RequestedSet(t[..j]), files[1..], t[j..])
  {
    j :| 0 < j <= |t| && CallLog(o, sp, built, files[0], t[..j])
      && CallsLog(o, sp, built + RequestedSet(t[..j]), files[1..], t[j..]);
  }

  /** There is at most one log of a call: the oracles and the files already
      built determine it. */
  lemma {:induction false} CallLogUnique(o: Oracles, sp: seq<string>, built: set<NormPath>, f: NormPath, t1: seq<Event>, t2: seq<Event>)
    requires CallLog(o, sp, built, f, t1) && CallLog(o, sp, built, f, t2)
    ensures t1 == t2
    decreases |t1|, 0
  {
    var missing := o.discover(f, sp);
    if missing == {} {
      assert t1 == [t1[0]] && t2 == [t2[0]];
    } else {
      var batch := NotBuilt(o.locate(missing), built);
      if batch == [] {
        assert t1 == [t1[0], t1[1]] && t2 == [t2[0], t2[1]];
      } else {
        CallsLogUnique(o, sp, built + (set x | x in batch), batch, t1[3..], t2[3..]);
        assert t1 == [t1[0], t1[1], t1[2]] + t1[3..];
        assert t2 == [t2[0], t2[1], t2[2]] + t2[3..];
      }
    }
  }

  /** There is at most one log of the calls for a list of files. */
  lemma {:induction false} CallsLogUnique(o: Oracles, sp: seq<string>, built: set<NormPath>, files: seq<NormPath>, t1: seq<Event>, t2: seq<Event>)
    requires CallsLog(o, sp, built, files, t1) && CallsLog(o, sp, built, files, t2)
    ensures t1 == t2
    decreases |t1|, |files| + 1
  {
    if |files| > 0 {
      var j1 := CallsLogHead(o, sp, built, files, t1);
      var j2 := CallsLogHead(o, sp, built, files, t2);
      CallLogUnique(o, sp, built, files[0], t1[..j1], t2[..j2]);
      CallsLogUnique(o, sp, built + RequestedSet(t1[..j1]), files[1..], t1[j1..], t2[j2..]);
      assert t1 == t1[..j1] + t1[j1..];
      assert t2 == t2[..j2] + t2[j2..];
    }
  }

  /** The log of a call for a file discovery finds nothing missing for. */
  lemma QuietCall(o: Oracles, sp: seq<string>, built: set<NormPath>, f: NormPath)
    requires o.discover(f, sp) == {}
    ensures CallLog(o, sp, built, f, [Analysed(f)])
  {
  }

  /** The log of a call whose query names only files already built. */
  lemma QueryOnlyCall(o: Oracles, sp: seq<string>, built: set<NormPath>, f: NormPath)
    requires o.discover(f, sp) != {} && NotBuilt(o.locate(o.discover(f, sp)), built) == []
    ensures CallLog(o, sp, built, f, [Analysed(f), Queried(o.discover(f, sp), o.locate(o.discover(f, sp)))])
  {
  }

  /** A call that requests a batch logs its analysis, its query, the request
      and then the calls for the batch. */
  lemma RequestingCall(o: Oracles, sp: seq<string>, built: set<NormPath>, f: NormPath, batch: seq<NormPath>, e: seq<Event>)
    requires o.discover(f, sp) != {} && batch == NotBuilt(o.locate(o.discover(f, sp)), built)
    requires batch != [] && CallsLog(o, sp, built + (set x | x in batch), batch, e)
    ensures CallLog(o, sp, built, f, [Analysed(f), Queried(o.discover(f, sp), o.locate(o.discover(f, sp))),
                                      Requested(batch)] + e)
  {
    var t := [Analysed(f), Queried(o.discover(f, sp), o.locate(o.discover(f, sp))), Requested(batch)] + e;
    assert t[3..] == e;
  }

  /** One call's log followed by the logs of the calls after it. */
  lemma CallThenRest(o: Oracles, sp: seq<string>, built: set<NormPath>, f: NormPath, files: seq<NormPath>,
                     d1: seq<Event>, rest: seq<Event>)
    requires CallLog(o, sp, built, f, d1) && CallsLog(o, sp, built + RequestedSet(d1), files, rest)
    ensures CallsLog(o, sp, built, [f] + files, d1 + rest)
  {
    var t := d1 + rest;
    assert t[..|d1|] == d1;
    assert t[|d1|..] == rest;
    assert ([f] + files)[1..] == files;
  }

  /** The log a call adds. */
  function Added(s: Session, s': Session): seq<Event>
    requires |s.log| <= |s'.log|
  {
    s'.log[|s.log|..]
  }

  /** The events added over two steps are those of the first step, then the second. */
  lemma AddedConcat(s: Session, s1: Session, s2: Session)
    requires |s.log| <= |s1.log| <= |s2.log|
    requires s1.log[..|s.log|] == s.log && s2.log[..|s1.log|] == s1.log
    ensures Added(s, s2) == Added(s, s1) + Added(s1, s2)
  {
    assert s2.log == s1.log + Added(s1, s2);
    assert s1.log == s.log + Added(s, s1);
  }

  /** The log of one file's call followed by the logs of the files after it,
      with the files built growing by what each stretch requests. */
  lemma OrderOfSequence(o: Oracles, sp: seq<string>, s: Session, s1: Session, s': Session, batch: seq<NormPath>, i: nat)
    requires i < |batch|
    requires |s.log| <= |s1.log| && s1.log[..|s.log|] == s.log
    requires |s1.log| <= |s'.log| && s'.log[..|s1.log|] == s1.log
    requires CallLog(o, sp, s.built, batch[i], Added(s, s1)) && s1.built == s.built + RequestedSet(Added(s, s1))
    requires CallsLog(o, sp, s1.built, batch[i + 1..], Added(s1, s')) && s'.built == s1.built + RequestedSet(Added(s1, s'))
    ensures CallsLog(o, sp, s.built, batch[i..], Added(s, s'))
    ensures s'.built == s.built + RequestedSet(Added(s, s'))
  {
    AddedConcat(s, s1, s');
    RequestedSetConcat(Added(s, s1), Added(s1, s'));
    assert batch[i..] == [batch[i]] + batch[i + 1..];
    CallThenRest(o, sp, s.built, batch[i], batch[i + 1..], Added(s, s1), Added(s1, s'));
  }

  /** How one analysis unfolds: into the analysis step alone when nothing is
      left to rebuild, else into the step, the request, and the batch, with
      the termination measure decreased. */
  lemma BuildDepsOfCases(o: Oracles, sp: seq<string>, universe: set<NormPath>, file: NormPath, s: Session)
    requires LocatesWithin(o, universe)
    ensures var a := Analyse(o, sp, file, s);
      && (a.1 == [] ==> BuildDepsOf(o, sp, universe, file, s) == a.0)
      && (a.1 != [] ==>
            && |universe - Request(a.0, a.1).built| < |universe - s.built|
            && BuildDepsOf(o, sp, universe, file, s) == BuildEach(o, sp, universe, a.1, 0, Request(a.0, a.1)))
  {
    var a := Analyse(o, sp, file, s);
    if a.1 != [] {
      assert a.1[0] in universe;
      SubtractNew(universe, s.built, Request(a.0, a.1).built, a.1[0]);
    }
  }

  /** How a batch unfolds: nothing left, or the analysis of its next file
      followed by the rest, with the termination measure not increased. */
  lemma BuildEachCases(o: Oracles, sp: seq<string>, universe: set<NormPath>, batch: seq<NormPath>, i: nat, s: Session)
    requires LocatesWithin(o, universe)
    requires i <= |batch|
    ensures i == |batch| ==> BuildEach(o, sp, universe, batch, i, s) == s
    ensures i < |batch| ==>
      var s1 := BuildDepsOf(o, sp, universe, batch[i], s);
      && |universe - s1.built| <= |universe - s.built|
      && BuildEach(o, sp, universe, batch, i, s) == BuildEach(o, sp, universe, batch, i + 1, s1)
  {
    if i < |batch| {
      var s1 := BuildDepsOf(o, sp, universe, batch[i], s);
      SubtractMore(universe, s.built, s1.built);
    }
  }

  /** A finished batch adds nothing to the log and builds nothing. */
  lemma BatchDone(o: Oracles, sp: seq<string>, universe: set<NormPath>, batch: seq<NormPath>, s: Session)
    requires LocatesWithin(o, universe)
    ensures var s' := BuildEach(o, sp, universe, batch, |batch|, s);
      && CallsLog(o, sp, s.built, batch[|batch|..], Added(s, s'))
      && s'.built == s.built + RequestedSet(Added(s, s'))
  {
    BuildEachCases(o, sp, universe, batch, |batch|, s);
    assert Added(s, s) == [];
    assert batch[|batch|..] == [];
  }

  /** The log of a call that requests nothing. */
  lemma QuietCallLog(o: Oracles, sp: seq<string>, file: NormPath, s: Session)
    requires Analyse(o, sp, file, s).1 == []
    ensures var s' := Analyse(o, sp, file, s).0;
      && CallLog(o, sp, s.built, file, Added(s, s'))
      && s'.built == s.built + RequestedSet(Added(s, s'))
  {
    var a := Analyse(o, sp, file, s);
    var missing := o.discover(file, sp);
    if missing == {} {
      QuietCall(o, sp, s.built, file);
      assert Added(s, a.0) == [Analysed(file)];
      assert [Analysed(file)][1..] == [];
    } else {
      QueryOnlyCall(o, sp, s.built, file);
      var q := Queried(missing, o.locate(missing));
      assert Added(s, a.0) == [Analysed(file), q];
      assert [Analysed(file), q][1..] == [q] && [q][1..] == [];
      assert RequestedSet([q]) == {};
    }
  }

  /** The log of a call that requests a batch, given the logs of the calls
      for that batch. */
  lemma RequestingCallLog(o: Oracles, sp: seq<string>, file: NormPath, s: Session, s': Session)
    requires Analyse(o, sp, file, s).1 != []
    requires var s3 := Request(Analyse(o, sp, file, s).0, Analyse(o, sp, file, s).1);
      && |s3.log| <= |s'.log| && s'.log[..|s3.log|] == s3.log
      && CallsLog(o, sp, s3.built, Analyse(o, sp, file, s).1, Added(s3, s'))
      && s'.built == s3.built + RequestedSet(Added(s3, s'))
    ensures |s.log| <= |s'.log| && CallLog(o, sp, s.built, file, Added(s, s'))
    ensures s'.built == s.built + RequestedSet(Added(s, s'))
  {
    var a := Analyse(o, sp, file, s);
    var s3 := Request(a.0, a.1);
    var missing := o.discover(file, sp);
    var q := Queried(missing, o.locate(missing));
    assert s3.log == s.log + [Analysed(file), q, Requested(a.1)];
    assert s3.log[..|s.log|] == s.log;
    AddedConcat(s, s3, s');
    assert Added(s, s3) == [Analysed(file), q, Requested(a.1)];
    RequestingCall(o, sp, s.built, file, a.1, Added(s3, s'));
    RequestedSetConcat(Added(s, s3), Added(s3, s'));
    RequestedSetOfStep(file, q, a.1);
  }

  /** The log a call `_inner_build_pydeps(file)` adds is the log of that
      call: depth first, each batch exactly the answered files not yet built,
      each requested file's call complete before the next one starts. The
      files it builds are exactly the files it requests. */
  lemma {:induction false} BuildDepsOfOrder(o: Oracles, sp: seq<string>, universe: set<NormPath>, file: NormPath, s: Session)
    requires LocatesWithin(o, universe)
    ensures var s' := BuildDepsOf(o, sp, universe, file, s);
      && CallLog(o, sp, s.built, file, Added(s, s'))
      && s'.built == s.built + RequestedSet(Added(s, s'))
    decreases |universe - s.built|, 0
  {
    var a := Analyse(o, sp, file, s);
    BuildDepsOfCases(o, sp, universe, file, s);
    if a.1 == [] {
      QuietCallLog(o, sp, file, s);
    } else {
      var s3 := Request(a.0, a.1);
      var s' := BuildDepsOf(o, sp, universe, file, s);
      assert s' == BuildEach(o, sp, universe, a.1, 0, s3);
      BuildEachOrder(o, sp, universe, a.1, 0, s3);
      assert a.1[0..] == a.1;
      assert s'.built == s3.built + RequestedSet(Added(s3, s'));
      RequestingCallLog(o, sp, file, s, s');
    }
  }

  /** Analysing the files of `batch[i..]` in turn adds the logs of their
      calls, one after the other, in batch order, and builds exactly the
      files they request. */
  lemma {:induction false} BuildEachOrder(o: Oracles, sp: seq<string>, universe: set<NormPath>, batch: seq<NormPath>, i: nat, s: Session)
    requires LocatesWithin(o, universe)
    requires i <= |batch|
    ensures var s' := BuildEach(o, sp, universe, batch, i, s);
      && CallsLog(o, sp, s.built, batch[i..], Added(s, s'))
      && s'.built == s.built + RequestedSet(Added(s, s'))
    decreases |universe - s.built|, |batch| - i + 1
  {
    if i == |batch| {
      BatchDone(o, sp, universe, batch, s);
    } else {
      var s' := BuildEach(o, sp, universe, batch, i, s);
      BuildEachCases(o, sp, universe, batch, i, s);
      var s1 := BuildDepsOf(o, sp, universe, batch[i], s);
      BuildDepsOfOrder(o, sp, universe, batch[i], s);
      BuildEachOrder(o, sp, universe, batch, i + 1, s1);
      OrderOfSequence(o, sp, s, s1, s', batch, i);
    }
  }

  /** The logs of two calls, one after the other, are the log of the calls
      for the pair. */
  lemma PairCalls(o: Oracles, sp: seq<string>, built: set<NormPath>, x: NormPath, y: NormPath, dx: seq<Event>, dy: seq<Event>)
    requires CallLog(o, sp, built, x, dx) && CallLog(o, sp, built + RequestedSet(dx), y, dy)
    ensures CallsLog(o, sp, built, [x, y], dx + dy)
  {
    CallThenRest(o, sp, built + RequestedSet(dx), y, [], dy, []);
    assert [y] + [] == [y] && dy + [] == dy;
    CallThenRest(o, sp, built, x, [y], dx, dy);
    assert [x] + [y] == [x, y];
  }

  /** When the database answers `[c, d]` for `b0`, both not yet built and
      with nothing missing, the call for `b0` requests both and analyses them
      in turn. */
  lemma InnerCall(o: Oracles, sp: seq<string>, built: set<NormPath>, b0: NormPath, c: NormPath, d: NormPath)
    requires o.discover(b0, sp) != {} && o.locate(o.discover(b0, sp)) == [c, d]
    requires o.discover(c, sp) == {} && o.discover(d, sp) == {}
    requires c !in built && d !in built
    ensures CallLog(o, sp, built, b0,
      [Analysed(b0), Queried(o.discover(b0, sp), [c, d]), Requested([c, d]), Analysed(c), Analysed(d)])
  {
    NotBuiltPair(c, d, built);
    assert NotBuilt([c, d], built) == [c, d];
    var built2 := built + set x | x in [c, d];
    QuietCall(o, sp, built2, c);
    QuietCall(o, sp, built2 + RequestedSet([Analysed(c)]), d);
    PairCalls(o, sp, built2, c, d, [Analysed(c)], [Analysed(d)]);
    RequestingCall(o, sp, built, b0, [c, d], [Analysed(c)] + [Analysed(d)]);
    assert [Analysed(b0), Queried(o.discover(b0, sp), [c, d]), Requested([c, d])] + ([Analysed(c)] + [Analysed(d)])
        == [Analysed(b0), Queried(o.discover(b0, sp), [c, d]), Requested([c, d]), Analysed(c), Analysed(d)];
  }

  /** The calls for the batch `[b0, b1]`: `b0`'s call with its inner batch
      `[c, d]`, then `b1`'s call, which finds nothing missing. */
  lemma OuterBatch(o: Oracles, sp: seq<string>, built: set<NormPath>, b0: NormPath, b1: NormPath, c: NormPath, d: NormPath)
    requires o.discover(b0, sp) != {} && o.locate(o.discover(b0, sp)) == [c, d]
    requires o.discover(b1, sp) == {} && o.discover(c, sp) == {} && o.discover(d, sp) == {}
    requires c !in built && d !in built
    ensures CallsLog(o, sp, built, [b0, b1],
      [Analysed(b0), Queried(o.discover(b0, sp), [c, d]), Requested([c, d]), Analysed(c), Analysed(d), Analysed(b1)])
  {
    InnerCall(o, sp, built, b0, c, d);
    var e0 := [Analysed(b0), Queried(o.discover(b0, sp), [c, d]), Requested([c, d]), Analysed(c), Analysed(d)];
    QuietCall(o, sp, built + RequestedSet(e0), b1);
    PairCalls(o, sp, built, b0, b1, e0, [Analysed(b1)]);
    assert e0 + [Analysed(b1)]
        == [Analysed(b0), Queried(o.discover(b0, sp), [c, d]), Requested([c, d]), Analysed(c), Analysed(d), Analysed(b1)];
  }

  /** When the database answers `[b0, b1]` for `src` and `[c, d]` for `b0`,
      and nothing is missing for `b1`, `c` and `d`: the call for `src`
      requests `b0` and `b1` together, and `c` and `d` are analysed, depth
      first, before `b1`. */
  lemma DepthFirstIsACall(o: Oracles, sp: seq<string>, src: NormPath, b0: NormPath, b1: NormPath, c: NormPath, d: NormPath)
    requires o.discover(src, sp) != {} && o.locate(o.discover(src, sp)) == [b0, b1]
    requires o.discover(b0, sp) != {} && o.locate(o.discover(b0, sp)) == [c, d]
    requires o.discover(b1, sp) == {} && o.discover(c, sp) == {} && o.discover(d, sp) == {}
    requires c != b1 && d != b1
    ensures CallLog(o, sp, {}, src,
      [Analysed(src), Queried(o.discover(src, sp), [b0, b1]), Requested([b0, b1])]
      + [Analysed(b0), Queried(o.discover(b0, sp), [c, d]), Requested([c, d]),
         Analysed(c), Analysed(d), Analysed(b1)])
  {
    NotBuiltPair(b0, b1, {});
    assert NotBuilt([b0, b1], {}) == [b0, b1];
    var built1: set<NormPath> := {} + set x | x in [b0, b1];
    assert c != b0 && d != b0;
    var e := [Analysed(b0), Queried(o.discover(b0, sp), [c, d]), Requested([c, d]), Analysed(c), Analysed(d), Analysed(b1)];
    OuterBatch(o, sp, built1, b0, b1, c, d);
    RequestingCall(o, sp, {}, src, [b0, b1], e);
  }

  /** A call whose database answer is `[a, b]` requests both files in one
      batch: no log that requests `a` alone is a call log. */
  lemma SplitBatchIsNoCall(o: Oracles, sp: seq<string>, src: NormPath, a: NormPath, b: NormPath, q: Event, rest: seq<Event>)
    requires o.discover(src, sp) != {} && o.locate(o.discover(src, sp)) == [a, b]
    ensures !CallLog(o, sp, {}, src, [Analysed(src), q, Requested([a])] + rest)
  {
    NotBuiltPair(a, b, {});
    assert [a] != [a, b];
  }

  /** ... and requests them in answer order: no log that requests `[b, a]`
      is a call log. */
  lemma ReversedBatchIsNoCall(o: Oracles, sp: seq<string>, src: NormPath, a: NormPath, b: NormPath, q: Event, rest: seq<Event>)
    requires o.discover(src, sp) != {} && o.locate(o.discover(src, sp)) == [a, b]
    requires a != b
    ensures !CallLog(o, sp, {}, src, [Analysed(src), q, Requested([b, a])] + rest)
  {
    NotBuiltPair(a, b, {});
    assert [b, a] != [a, b] by { assert [b, a][0] != [a, b][0]; }
  }

  /** The log of the calls for a single file is the log of that file's call. */
  lemma SingleCallsLog(o: Oracles, sp: seq<string>, built: set<NormPath>, f: NormPath, t: seq<Event>)
    requires CallsLog(o, sp, built, [f], t)
    ensures CallLog(o, sp, built, f, t)
  {
    var j :| 0 < j <= |t| && CallLog(o, sp, built, f, t[..j])
      && CallsLog(o, sp, built + RequestedSet(t[..j]), [f][1..], t[j..]);
    assert [f][1..] == [];
    assert t[j..] == [];
    assert t[..j] == t;
  }

  /** The calls for a pair split their log where the second file is analysed. */
  lemma PairSplit(o: Oracles, sp: seq<string>, built: set<NormPath>, x: NormPath, y: NormPath, u: seq<Event>)
    requires CallsLog(o, sp, built, [x, y], u)
    ensures exists j :: 0 < j < |u| && CallLog(o, sp, built, x, u[..j]) && u[j] == Analysed(y)
  {
    var j :| 0 < j <= |u| && CallLog(o, sp, built, x, u[..j])
      && CallsLog(o, sp, built + RequestedSet(u[..j]), [x, y][1..], u[j..]);
    assert [x, y][1..] == [y];
    SingleCallsLog(o, sp, built + RequestedSet(u[..j]), y, u[j..]);
  }

  /** A call that requests a batch is followed in its log by the calls for
      that batch. */
  lemma RequestedBatchFollows(o: Oracles, sp: seq<string>, built: set<NormPath>, f: NormPath, t: seq<Event>)
    requires CallLog(o, sp, built, f, t) && |t| > 2
    ensures t[2].Requested? && CallsLog(o, sp, built + (set x | x in t[2].batch), t[2].batch, t[3..])
  {
  }

  /** A call that requests two files cannot end once the first is analysed. */
  lemma CutShortIsNoCall(o: Oracles, sp: seq<string>, built: set<NormPath>, b0: NormPath, c: NormPath, d: NormPath, q: Event)
    ensures !CallLog(o, sp, built, b0, [Analysed(b0), q, Requested([c, d]), Analysed(c)])
  {
    var t := [Analysed(b0), q, Requested([c, d]), Analysed(c)];
    if CallLog(o, sp, built, b0, t) {
      RequestedBatchFollows(o, sp, built, b0, t);
      assert false;
    }
  }

  /** The calls for `b0` and `b1` cannot analyse `b1` between `c` and `d`,
      the two files `b0`'s call requested. */
  lemma InterleavedIsNoCalls(o: Oracles, sp: seq<string>, built: set<NormPath>, b0: NormPath, b1: NormPath, c: NormPath, d: NormPath, q: Event)
    requires q.Queried? && b1 != c && b1 != d
    ensures !CallsLog(o, sp, built, [b0, b1], [Analysed(b0), q, Requested([c, d]), Analysed(c), Analysed(b1), Analysed(d)])
  {
    var e := [Analysed(b0), q, Requested([c, d]), Analysed(c), Analysed(b1), Analysed(d)];
    if CallsLog(o, sp, built, [b0, b1], e) {
      PairSplit(o, sp, built, b0, b1, e);
      var j :| 0 < j < |e| && CallLog(o, sp, built, b0, e[..j]) && e[j] == Analysed(b1);
      // only the fifth event analyses `b1`, so `b0`'s call is the first four
      assert e[1] == q && e[2].Requested? && e[3] == Analysed(c) && e[5] == Analysed(d);
      assert j == 4;
      assert e[..j] == [Analysed(b0), q, Requested([c, d]), Analysed(c)];
      CutShortIsNoCall(o, sp, built, b0, c, d, q);
      assert false;
    }
  }

  /** Analysing `b1` between `c` and `d`, the files `b0`'s call requested, is
      not the log of any call for `src`, whatever the queries record. */
  lemma InterleavedIsNoCall(o: Oracles, sp: seq<string>, built: set<NormPath>, src: NormPath, b0: NormPath, b1: NormPath,
                            c: NormPath, d: NormPath, q1: Event, q2: Event)
    requires q1.Queried? && q2.Queried? && b1 != c && b1 != d
    ensures !CallLog(o, sp, built, src, [Analysed(src), q1, Requested([b0, b1]), Analysed(b0), q2, Requested([c, d]),
                                         Analysed(c), Analysed(b1), Analysed(d)])
  {
    var t := [Analysed(src), q1, Requested([b0, b1]), Analysed(b0), q2, Requested([c, d]),
              Analysed(c), Analysed(b1), Analysed(d)];
    if CallLog(o, sp, built, src, t) {
      RequestedBatchFollows(o, sp, built, src, t);
      assert t[3..] == [Analysed(b0), q2, Requested([c, d]), Analysed(c), Analysed(b1), Analysed(d)];
      InterleavedIsNoCalls(o, sp, built + (set x | x in t[2].batch), b0, b1, c, d, q2);
      assert false;
    }
  }

  // ---------------------------------------------------------------------------
  // Memoisation: a second run rebuilds nothing

  /** After a file is analysed, every file the database names for it has been
      rebuilt in the session. */
  lemma FoundIsBuilt(o: Oracles, sp: seq<string>, universe: set<NormPath>, file: NormPath, s: Session)
    requires LocatesWithin(o, universe)
    ensures o.discover(file, sp) != {} ==>
      forall x :: x in o.locate(o.discover(file, sp)) ==> x in BuildDepsOf(o, sp, universe, file, s).built
  {
    var a := Analyse(o, sp, file, s);
    var s' := BuildDepsOf(o, sp, universe, file, s);
    BuildDepsOfCases(o, sp, universe, file, s);
    if o.discover(file, sp) != {} {
      forall x | x in o.locate(o.discover(file, sp)) ensures x in s'.built {
        if x !in s.built {
          assert x in a.1;
          assert Request(a.0, a.1).built <= s'.built;
        }
      }
    }
  }

  /** Analysing the same file again in the resulting session requests no
      rebuild and adds nothing to `built_deps`. */
  lemma RebuildingAgainRequestsNothing(o: Oracles, sp: seq<string>, universe: set<NormPath>, file: NormPath, s: Session)
    requires LocatesWithin(o, universe)
    ensures var s1 := BuildDepsOf(o, sp, universe, file, s);
      var s2 := BuildDepsOf(o, sp, universe, file, s1);
      && s2.built == s1.built
      && forall k :: |s1.log| <= k < |s2.log| ==> !s2.log[k].Requested?
  {
    var s1 := BuildDepsOf(o, sp, universe, file, s);
    FoundIsBuilt(o, sp, universe, file, s);
    BuildDepsOfCases(o, sp, universe, file, s1);
  }

  // ---------------------------------------------------------------------------
  // `_build_pydeps`

  /** What `_build_pydeps` leaves behind: the set it returns and the log. */
  datatype BuildReport = BuildReport(deps: set<NormPath>, log: seq<Event>)

  /** Every file located in a consistent session lies in the universe. */
  lemma LocatedWithin(o: Oracles, sp: seq<string>, universe: set<NormPath>, s: Session)
    requires LocatesWithin(o, universe)
    requires Consistent(o, sp, s)
    ensures forall x :: x in s.located ==> x in universe
  {
    forall x | x in s.located ensures x in universe {
      assert FoundIn(s.log, x);
      var i :| 0 <= i < |s.log| && s.log[i].Queried? && x in s.log[i].found;
      assert s.log[i].found == o.locate(s.log[i].missing);
    }
  }

  /** What a build from a fresh session guarantees about its outcome. */
  lemma FreshBuild(o: Oracles, sp: seq<string>, universe: set<NormPath>, src: NormPath)
    requires LocatesWithin(o, universe)
    ensures var s := BuildDepsOf(o, sp, universe, src, Session({}, [], []));
      && |s.log| > 0 && s.log[0] == Analysed(src)
      && (forall x :: x in s.located <==> FoundIn(s.log, x))
      && (forall x :: x in s.located <==> RequestedIn(s.log, x))
      && (forall x :: x in s.located ==> x in universe)
      && NoRepeatedRequest(s.log)
      && WellOrdered(o, sp, s.log)
      && CallLog(o, sp, {}, src, s.log)
      && (o.discover(src, sp) == {} ==> s.located == [] && s.log == [Analysed(src)])
  {
    var start := Session({}, [], []);
    var s := BuildDepsOf(o, sp, universe, src, start);
    BuildDepsOfConsistent(o, sp, universe, src, start);
    assert Consistent(o, sp, s);
    BuildDepsOfOrder(o, sp, universe, src, start);
    assert Added(start, s) == s.log;
    LocatedWithin(o, sp, universe, s);
    if o.discover(src, sp) == {} {
      BuildDepsOfCases(o, sp, universe, src, start);
    }
  }

  /** With the oracles of `DepthFirstIsACall`, a fresh build logs exactly
      that depth-first order. */
  lemma DepthFirstBuild(o: Oracles, sp: seq<string>, universe: set<NormPath>, src: NormPath,
                        b0: NormPath, b1: NormPath, c: NormPath, d: NormPath)
    requires LocatesWithin(o, universe)
    requires o.discover(src, sp) != {} && o.locate(o.discover(src, sp)) == [b0, b1]
    requires o.discover(b0, sp) != {} && o.locate(o.discover(b0, sp)) == [c, d]
    requires o.discover(b1, sp) == {} && o.discover(c, sp) == {} && o.discover(d, sp) == {}
    requires c != b1 && d != b1
    ensures BuildDepsOf(o, sp, universe, src, Session({}, [], [])).log
         == [Analysed(src), Queried(o.discover(src, sp), [b0, b1]), Requested([b0, b1])]
          + [Analysed(b0), Queried(o.discover(b0, sp), [c, d]), Requested([c, d]),
             Analysed(c), Analysed(d), Analysed(b1)]
  {
    FreshBuild(o, sp, universe, src);
    DepthFirstIsACall(o, sp, src, b0, b1, c, d);
    CallLogUnique(o, sp, {}, src, BuildDepsOf(o, sp, universe, src, Session({}, [], [])).log,
      [Analysed(src), Queried(o.discover(src, sp), [b0, b1]), Requested([b0, b1])]
      + [Analysed(b0), Queried(o.discover(b0, sp), [c, d]), Requested([c, d]),
         Analysed(c), Analysed(d), Analysed(b1)]);
  }

  /** `_build_pydeps(source_file, path)`: analyse the source file in a fresh
      session and return the set of every file located on the way. */
  function BuildPydeps(o: Oracles, path: seq<string>, env: Option<string>, universe: set<NormPath>, src: NormPath): (r: Result<BuildReport, ConfigError>)
    requires LocatesWithin(o, universe)
    ensures r.Failure? <==> |path| == 0 && env.None?
    ensures r.Success? ==>
      var sp := SearchPath(path, env).value;
      var t := r.value.log;
      && |t| > 0 && t[0] == Analysed(src)
      && (forall x :: x in r.value.deps <==> FoundIn(t, x))
      && (forall x :: x in r.value.deps <==> RequestedIn(t, x))
      && r.value.deps <= universe
      && NoRepeatedRequest(t)
      && WellOrdered(o, sp, t)
      && CallLog(o, sp, {}, src, t)
      && (o.discover(src, sp) == {} ==> r.value == BuildReport({}, [Analysed(src)]))
  {
    match SearchPath(path, env)
    case Failure(e) => Failure(e)
    case Success(sp) =>
      var s := BuildDepsOf(o, sp, universe, src, Session({}, [], []));
      FreshBuild(o, sp, universe, src);
      Success(BuildReport((set x | x in s.located), s.log))
  }

  // ---------------------------------------------------------------------------
  // The rule adapters

  /** No element occurs twice. */
  predicate Distinct<T(==)>(xs: seq<T>)
  {
    forall i, j :: 0 <= i < j < |xs| ==> xs[i] != xs[j]
  }

  /** `list(s)`: the elements of a set, each once, in an order Python leaves
      unspecified; the method commits to none either. */
  method Enumerate<T(==)>(s: set<T>) returns (r: seq<T>)
    ensures Distinct(r)
    ensures forall x :: x in r <==> x in s
    ensures |r| == |s|
  {
    r := [];
    var rest := s;
    while rest != {}
      invariant rest <= s
      invariant forall x :: x in r <==> x in s && x !in rest
      invariant Distinct(r)
      invariant |r| + |rest| == |s|
      decreases |rest|
    {
      var x :| x in rest;
      r := r + [x];
      rest := rest - {x};
    }
  }

  /** The directory of every dependency is what `os.path.dirname` gives. */
  lemma AllDirnamesAgree(deps: set<NormPath>)
    ensures forall d :: d in deps ==> Render(Dirname(d)) == PyDirname(Render(d))
  {
    forall d | d in deps ensures Render(Dirname(d)) == PyDirname(Render(d)) {
      DirnameAgrees(d);
    }
  }

  /** `set([os.path.dirname(d) for d in deps])`: the directories holding the
      dependencies, which are the rendered parents of the model's paths. */
  function ParentDirs(deps: set<NormPath>): (r: set<string>)
    ensures forall d :: d in deps ==> Render(Dirname(d)) in r
    ensures forall p :: p in r ==> exists d :: d in deps && Render(Dirname(d)) == p
  {
    AllDirnamesAgree(deps);
    set d | d in deps :: PyDirname(Render(d))
  }

  /** `_build_python_no_update._build`: the list `_build_pydeps` returns; the
      interpreter's search path `sysPath` comes back as it went in. */
  method BuildPythonNoUpdate(o: Oracles, path: seq<string>, env: Option<string>, universe: set<NormPath>, redo1: NormPath, sysPath: seq<string>)
    returns (r: Result<(seq<NormPath>, seq<string>), ConfigError>)
    requires LocatesWithin(o, universe)
    ensures r.Failure? <==> BuildPydeps(o, path, env, universe, redo1).Failure?
    ensures r.Success? ==>
      && Distinct(r.value.0)
      && (forall x :: x in r.value.0 <==> x in BuildPydeps(o, path, env, universe, redo1).value.deps)
      && r.value.1 == sysPath
  {
    match BuildPydeps(o, path, env, universe, redo1)
    case Failure(e) =>
      r := Failure(e);
    case Success(report) =>
      var deps := Enumerate(report.deps);
      r := Success((deps, sysPath));
  }

  /** `_build_python._build`: the same list, with the distinct directories
      holding its files appended to the interpreter's search path. */
  method BuildPython(o: Oracles, path: seq<string>, env: Option<string>, universe: set<NormPath>, redo1: NormPath, sysPath: seq<string>)
    returns (r: Result<(seq<NormPath>, seq<string>), ConfigError>)
    requires LocatesWithin(o, universe)
    ensures r.Failure? <==> BuildPydeps(o, path, env, universe, redo1).Failure?
    ensures r.Success? ==>
      var deps := BuildPydeps(o, path, env, universe, redo1).value.deps;
      && Distinct(r.value.0)
      && (forall x :: x in r.value.0 <==> x in deps)
      && |sysPath| <= |r.value.1| && r.value.1[..|sysPath|] == sysPath
      && Distinct(r.value.1[|sysPath|..])
      && (forall d :: d in r.value.1[|sysPath|..] <==> d in ParentDirs(deps))
  {
    match BuildPydeps(o, path, env, universe, redo1)
    case Failure(e) =>
      r := Failure(e);
    case Success(report) =>
      var deps := Enumerate(report.deps);
      var added := Enumerate(ParentDirs(report.deps));
      assert (sysPath + added)[|sysPath|..] == added;
      r := Success((deps, sysPath + added));
  }

  /** What the command puts before the directories it adds to the search path. */
  const EnvPrefix := "PYTHONPATH=$PYTHONPATH:"

  /** What the command puts after the directories: running the script. */
  function ScriptSuffix(redo1: NormPath): string
  {
    " python " + Render(redo1)
  }

  /** The command `_run_python._build` runs: the environment prefix, the
      directories joined by colons, then the script. When the directories are
      free of colons they can be read back from the command; with no
      directories nothing stands between the prefix and the script. */
  function RunCommand(added: seq<string>, redo1: NormPath): (r: string)
    ensures |r| >= |EnvPrefix| + |ScriptSuffix(redo1)|
    ensures r[..|EnvPrefix|] == EnvPrefix
    ensures r[|r| - |ScriptSuffix(redo1)|..] == ScriptSuffix(redo1)
    ensures |added| > 0 && (forall i :: 0 <= i < |added| ==> ':' !in added[i]) ==>
      Split(r[|EnvPrefix|..|r| - |ScriptSuffix(redo1)|], ':') == added
    ensures |added| == 0 ==> r == EnvPrefix + ScriptSuffix(redo1)
  {
    var dirs := Join(added, ':');
    var r := EnvPrefix + dirs + ScriptSuffix(redo1);
    assert r[|EnvPrefix|..|r| - |ScriptSuffix(redo1)|] == dirs;
    assert |added| > 0 && (forall i :: 0 <= i < |added| ==> ':' !in added[i]) ==> Split(dirs, ':') == added by {
      if |added| > 0 && (forall i :: 0 <= i < |added| ==> ':' !in added[i]) {
        SplitOfJoin(added, ':');
      }
    }
    r
  }

  /** `cmd` runs `redo1` with the directories `dirs`, each once and in some
      order, appended to `PYTHONPATH`. */
  ghost predicate RunsWith(cmd: string, dirs: set<string>, redo1: NormPath)
  {
    exists added :: Distinct(added) && (forall d :: d in added <==> d in dirs) && cmd == RunCommand(added, redo1)
  }

  /** Any duplicate-free listing of the directories gives a command that runs with them. */
  lemma RunsWithListing(added: seq<string>, dirs: set<string>, redo1: NormPath)
    requires Distinct(added) && forall d :: d in added <==> d in dirs
    ensures RunsWith(RunCommand(added, redo1), dirs, redo1)
  {
  }

  /** `_run_python._build`: build the dependencies, then run the script with
      the distinct directories holding them appended to `PYTHONPATH`. */
  method RunPython(o: Oracles, path: seq<string>, env: Option<string>, universe: set<NormPath>, redo1: NormPath)
    returns (r: Result<string, ConfigError>)
    requires LocatesWithin(o, universe)
    ensures r.Failure? <==> BuildPydeps(o, path, env, universe, redo1).Failure?
    ensures r.Success? ==> RunsWith(r.value, ParentDirs(BuildPydeps(o, path, env, universe, redo1).value.deps), redo1)
  {
    match BuildPydeps(o, path, env, universe, redo1)
    case Failure(e) =>
      r := Failure(e);
    case Success(report) =>
      var dirs := ParentDirs(report.deps);
      var added := Enumerate(dirs);
      RunsWithListing(added, dirs, redo1);
      r := Success(RunCommand(added, redo1));
  }
}
