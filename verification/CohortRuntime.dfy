/**
 The concurrent cohort scheduler: packages run at most `workers` at a time, never with a
 path or lock in common, only after all their dependencies succeeded; a failure blocks the
 packages that need it. Workers finish in any order.
 */
module CohortRuntime {
  import opened Identifiers
  import opened Dependencies
  import opened OutcomeGraph
  import opened CohortJournal

  type Executor = (Id, map<Id, PackageResult>) -> PackageResult

  /** The locals of the scheduling loop, and the journal it appends to. `count` is `len(active)`. */
  datatype Loop = Loop(
    pending: set<Id>, results: map<Id, PackageResult>, active: set<Id>, count: nat,
    paths: set<string>, locks: set<string>, batches: seq<seq<Id>>, peak: int, journal: Journal)

  // --- The blocking pass ---

  function Unsuccessful(g: Packages, results: map<Id, PackageResult>, p: Id): set<Id>
    requires p in g
  {
    set d | d in g[p].deps && d in results && !results[d].state.Succeeded?
  }

  /** Computed once per turn: pending packages with an unsuccessful dependency recorded. */
  function Doomed(g: Packages, s: Loop): set<Id>
    requires s.pending <= g.Keys
  {
    set p | p in s.pending && Unsuccessful(g, s.results, p) != {}
  }

  function BlockedBy(d: Id): PackageResult {
    PackageResult(BlockedDependency, "", [], "dependency " + d + " did not succeed")
  }

  function BlockOne(g: Packages, p: Id, s: Loop): Loop
    requires p in g && Unsuccessful(g, s.results, p) != {}
  {
    var r := BlockedBy(Least(Unsuccessful(g, s.results, p)));
    s.(results := s.results[p := r], pending := s.pending - {p}, journal := s.journal + [ResultEvent(p, r, FromDependency)])
  }

  lemma UnsuccessfulGrows(g: Packages, results: map<Id, PackageResult>, p: Id, q: Id, r: PackageResult)
    requires p in g && q !in results
    ensures Unsuccessful(g, results, p) <= Unsuccessful(g, results[q := r], p)
  {}

  /** A block names the earliest dependency recorded without success, and nothing else changes. */
  lemma BlockNamesEarliest(g: Packages, p: Id, s: Loop)
    requires p in g && Unsuccessful(g, s.results, p) != {}
    ensures exists d ::
              && d in g[p].deps && d in s.results && !s.results[d].state.Succeeded?
              && (forall e | e in g[p].deps && e in s.results && !s.results[e].state.Succeeded? :: Leq(d, e))
              && var r := PackageResult(BlockedDependency, "", [], "dependency " + d + " did not succeed");
                 BlockOne(g, p, s) == s.(results := s.results[p := r], pending := s.pending - {p},
                                         journal := s.journal + [ResultEvent(p, r, FromDependency)])
  {
    hide Leq;
    var d := Least(Unsuccessful(g, s.results, p));
    assert d in Unsuccessful(g, s.results, p);
    forall e | e in g[p].deps && e in s.results && !s.results[e].state.Succeeded? ensures Leq(d, e) {
      assert e in Unsuccessful(g, s.results, p);
    }
  }

  function BlockAll(g: Packages, rest: set<Id>, s: Loop): Loop
    requires rest <= g.Keys && rest !! s.results.Keys
    requires forall p | p in rest :: Unsuccessful(g, s.results, p) != {}
    decreases rest
  {
    if rest == {} then s
    else
      var p := Least(rest);
      var s' := BlockOne(g, p, s);
      assert forall q | q in rest - {p} :: Unsuccessful(g, s'.results, q) != {} by {
        forall q | q in rest - {p} ensures Unsuccessful(g, s'.results, q) != {} {
          UnsuccessfulGrows(g, s.results, q, p, s'.results[p]);
        }
      }
      BlockAll(g, rest - {p}, s')
  }

  // --- The launching pass ---

  predicate Ready(g: Packages, results: map<Id, PackageResult>, p: Id)
    requires p in g
  {
    forall d | d in g[p].deps :: d in results && results[d].state.Succeeded?
  }

  predicate Fits(g: Packages, s: Loop, p: Id)
    requires p in g
  {
    s.paths !! g[p].paths && s.locks !! g[p].locks
  }

  function LaunchOne(g: Packages, p: Id, s: Loop): Loop
    requires p in g
  {
    s.(active := s.active + {p}, count := s.count + 1, pending := s.pending - {p},
       paths := s.paths + g[p].paths, locks := s.locks + g[p].locks)
  }

  datatype Launching = Launching(loop: Loop, launched: seq<Id>)

  function LaunchTurn(g: Packages, p: Id, l: Launching): Launching
    requires p in g
  {
    if Ready(g, l.loop.results, p) && Fits(g, l.loop, p)
    then Launching(LaunchOne(g, p, l.loop), l.launched + [p])
    else l
  }

  /** The rest of the launching loop, in identifier order, while a worker is free. */
  function LaunchAll(g: Packages, w: int, rest: set<Id>, l: Launching): Launching
    requires rest <= g.Keys
    decreases rest
  {
    if rest == {} || l.loop.count >= w then l
    else LaunchAll(g, w, rest - {Least(rest)}, LaunchTurn(g, Least(rest), l))
  }

  function RecordDispatch(l: Launching): Loop {
    var s := l.loop;
    if l.launched == [] then s
    else s.(batches := s.batches + [l.launched], peak := if s.count > s.peak then s.count else s.peak,
            journal := s.journal + [DispatchEvent(l.launched, s.count)])
  }

  // --- Completions ---

  function DependencyResults(g: Packages, results: map<Id, PackageResult>, p: Id): map<Id, PackageResult>
    requires p in g
  {
    map d | d in g[p].deps && d in results :: results[d]
  }

  function CompleteOne(g: Packages, p: Id, r: PackageResult, s: Loop): Loop
    requires p in g
  {
    s.(active := s.active - {p}, count := if s.count > 0 then s.count - 1 else 0,
       paths := s.paths - g[p].paths, locks := s.locks - g[p].locks,
       results := s.results[p := r], journal := s.journal + [ResultEvent(p, r, FromExecutor)])
  }

  // --- Safety ---

  ghost function PathsOf(g: Packages, s: set<Id>): set<string>
    requires s <= g.Keys
  {
    set p, x | p in s && x in g[p].paths :: x
  }

  ghost function LocksOf(g: Packages, s: set<Id>): set<string>
    requires s <= g.Keys
  {
    set p, x | p in s && x in g[p].locks :: x
  }

  /** Running packages share nothing, and the two bookkeeping sets are exactly what they hold. */
  ghost predicate Exclusive(g: Packages, s: Loop)
    requires s.active <= g.Keys
  {
    && s.paths == PathsOf(g, s.active) && s.locks == LocksOf(g, s.active)
    && forall p, q | p in s.active && q in s.active && p != q :: g[p].paths !! g[q].paths && g[p].locks !! g[q].locks
  }

  ghost predicate Partition(g: Packages, s: Loop) {
    && s.pending + s.results.Keys + s.active == g.Keys
    && s.pending !! s.results.Keys && s.pending !! s.active && s.results.Keys !! s.active
  }

  ghost predicate Shape(g: Packages, w: int, s: Loop) {
    && Partition(g, s)
    && s.count <= w
    && (forall p | p in s.active :: Ready(g, s.results, p))
    && Exclusive(g, s)
  }

  ghost predicate Counted(s: Loop) {
    s.count == |s.active|
  }

  lemma BlockOneShape(g: Packages, w: int, p: Id, s: Loop)
    requires Shape(g, w, s) && p in s.pending && Unsuccessful(g, s.results, p) != {}
    ensures Shape(g, w, BlockOne(g, p, s))
  {
    var s' := BlockOne(g, p, s);
    assert s'.results.Keys == s.results.Keys + {p};
    forall q | q in s'.active ensures Ready(g, s'.results, q) { assert Ready(g, s.results, q); }
  }

  lemma LaunchOneExclusive(g: Packages, p: Id, s: Loop)
    requires s.active <= g.Keys && p in g && p !in s.active && Exclusive(g, s) && Fits(g, s, p)
    ensures Exclusive(g, LaunchOne(g, p, s))
  {
    var s' := LaunchOne(g, p, s);
    assert s'.paths == PathsOf(g, s'.active);
    assert s'.locks == LocksOf(g, s'.active);
    forall q | q in s.active ensures g[p].paths !! g[q].paths && g[p].locks !! g[q].locks {
      assert g[q].paths <= s.paths && g[q].locks <= s.locks;
    }
  }

  lemma LaunchOneShape(g: Packages, w: int, p: Id, s: Loop)
    requires Shape(g, w, s) && p in s.pending && s.count < w && Ready(g, s.results, p) && Fits(g, s, p)
    ensures Shape(g, w, LaunchOne(g, p, s))
  {
    LaunchOneExclusive(g, p, s);
  }

  /** Removing a finished package's paths and locks removes nothing another one still holds. */
  lemma CompleteOneExclusive(g: Packages, p: Id, r: PackageResult, s: Loop)
    requires s.active <= g.Keys && p in s.active && Exclusive(g, s)
    ensures Exclusive(g, CompleteOne(g, p, r, s))
  {
    var s' := CompleteOne(g, p, r, s);
    assert s'.paths == PathsOf(g, s'.active);
    assert s'.locks == LocksOf(g, s'.active);
  }

  lemma CompleteOneShape(g: Packages, w: int, p: Id, r: PackageResult, s: Loop)
    requires Shape(g, w, s) && p in s.active
    ensures Shape(g, w, CompleteOne(g, p, r, s))
  {
    var s' := CompleteOne(g, p, r, s);
    CompleteOneExclusive(g, p, r, s);
    assert s'.results.Keys == s.results.Keys + {p};
    forall q | q in s'.active ensures Ready(g, s'.results, q) { assert Ready(g, s.results, q); }
  }

  // --- The journal is the state ---

  /** Replaying the journal gives back exactly what the loop holds in memory. */
  ghost predicate Recorded(g: Packages, s: Loop) {
    && s.journal != [] && Accepted(s.journal)
    && Replay(g.Keys, s.journal).Some?
    && var r := Replay(g.Keys, s.journal).value;
       && r.results == s.results && r.batches == s.batches && r.peak == s.peak
       && s.active <= r.dispatched && r.completion.None?
  }

  lemma BlockOneRecorded(g: Packages, p: Id, s: Loop)
    requires Recorded(g, s) && p in g && p !in s.results && Unsuccessful(g, s.results, p) != {}
    ensures Recorded(g, BlockOne(g, p, s))
  {
    var e := ResultEvent(p, BlockedBy(Least(Unsuccessful(g, s.results, p))), FromDependency);
    RunEventAccepted(g.Keys, s.journal, e);
    AcceptedSnoc(s.journal, e);
    ReplaySnoc(g.Keys, s.journal, e);
  }

  lemma CompleteOneRecorded(g: Packages, p: Id, r: PackageResult, s: Loop)
    requires Recorded(g, s) && p in g && p !in s.results && p in s.active
    ensures Recorded(g, CompleteOne(g, p, r, s))
  {
    var e := ResultEvent(p, r, FromExecutor);
    RunEventAccepted(g.Keys, s.journal, e);
    AcceptedSnoc(s.journal, e);
    ReplaySnoc(g.Keys, s.journal, e);
  }

  /** During a launching pass the new packages are active but not yet journaled. */
  ghost predicate Announcing(g: Packages, before: Loop, l: Launching) {
    && l.loop.results == before.results && l.loop.batches == before.batches && l.loop.peak == before.peak
    && l.loop.journal == before.journal
    && l.loop.active == before.active + Elements(l.launched)
    && Elements(l.launched) <= g.Keys
    && l.loop.count == before.count + |l.launched|
  }

  lemma LaunchTurnAnnounces(g: Packages, before: Loop, p: Id, l: Launching)
    requires p in g && Announcing(g, before, l)
    ensures Announcing(g, before, LaunchTurn(g, p, l))
  {
    assert Elements(l.launched + [p]) == Elements(l.launched) + {p};
  }

  lemma DispatchRecorded(g: Packages, before: Loop, l: Launching)
    requires Recorded(g, before) && Announcing(g, before, l)
    ensures Recorded(g, RecordDispatch(l))
  {
    if l.launched != [] {
      var e := DispatchEvent(l.launched, l.loop.count);
      RunEventAccepted(g.Keys, before.journal, e);
      AcceptedSnoc(before.journal, e);
      ReplaySnoc(g.Keys, before.journal, e);
    }
  }

  // --- What every schedule computes ---

  /** A cohort: its packages, a dependency rank, the policy-gated packages and the executor. */
  datatype Cohort = Cohort(g: Packages, rank: map<Id, nat>, gated: set<Id>, exec: Executor)

  ghost predicate ValidCohort(c: Cohort) {
    Ranked(DepsOf(c.g), c.rank) && c.gated <= c.g.Keys
  }

  const GatedResult := PackageResult(BlockedPolicy, "", [], "requires an immediate fail-closed gate")

  /** The result of a package, whatever the schedule: gated, else blocked, else executed. */
  ghost function Spec(c: Cohort, p: Id): PackageResult
    requires ValidCohort(c) && p in c.g
    decreases c.rank[p], 1
  {
    if p in c.gated then GatedResult
    else
      var deps := SpecDependencies(c, p);
      if exists d | d in deps :: !deps[d].state.Succeeded? then BlockedBy("") else c.exec(p, deps)
  }

  ghost function SpecDependencies(c: Cohort, p: Id): (m: map<Id, PackageResult>)
    requires ValidCohort(c) && p in c.g
    ensures m.Keys == c.g[p].deps
    decreases c.rank[p], 0
  {
    assert forall d | d in c.g[p].deps :: d in DepsOf(c.g)[p] && d in c.g && c.rank[d] < c.rank[p];
    map d | d in c.g[p].deps :: Spec(c, d)
  }

  /** Equal up to the text of a blocked message; succeeded results are equal outright. */
  ghost predicate Agrees(r: PackageResult, s: PackageResult) {
    r.state == s.state && r.output == s.output && r.evidence == s.evidence && (r.state.Succeeded? ==> r == s)
  }

  ghost predicate ResultSound(c: Cohort, p: Id, r: PackageResult) {
    ValidCohort(c) && p in c.g && Agrees(r, Spec(c, p))
  }

  ghost predicate Sound(c: Cohort, s: Loop) {
    && ValidCohort(c)
    && s.pending !! c.gated && s.active !! c.gated
    && forall p | p in s.results :: ResultSound(c, p, s.results[p])
  }

  /** A pending package with an unsuccessful dependency is blocked in every schedule. */
  lemma BlockOneSound(c: Cohort, p: Id, s: Loop)
    requires Sound(c, s) && p in c.g && p in s.pending && Unsuccessful(c.g, s.results, p) != {}
    ensures Sound(c, BlockOne(c.g, p, s))
  {
    var d :| d in Unsuccessful(c.g, s.results, p);
    assert ResultSound(c, d, s.results[d]);
    assert !SpecDependencies(c, p)[d].state.Succeeded?;
  }

  /** A launched package runs on the dependency results every schedule gives it. */
  lemma ReadyMeansSpec(c: Cohort, p: Id, s: Loop)
    requires Sound(c, s) && p in c.g && p !in c.gated && Ready(c.g, s.results, p)
    ensures Spec(c, p) == c.exec(p, DependencyResults(c.g, s.results, p))
  {
    var deps := SpecDependencies(c, p);
    forall d | d in c.g[p].deps ensures d in c.g && s.results[d] == deps[d] {
      assert ResultSound(c, d, s.results[d]);
    }
    assert DependencyResults(c.g, s.results, p) == deps;
  }

  lemma CompleteOneSound(c: Cohort, p: Id, s: Loop, deps: map<Id, PackageResult>)
    requires Sound(c, s) && p in s.active && p in c.g && Ready(c.g, s.results, p) && deps == DependencyResults(c.g, s.results, p)
    ensures Sound(c, CompleteOne(c.g, p, c.exec(p, deps), s))
  {
    ReadyMeansSpec(c, p, s);
  }
}
