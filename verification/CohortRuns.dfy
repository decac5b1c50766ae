/** What every run of the cohort scheduler keeps, across completion orders, crashes and resumes. */
module CohortRuns {
  import opened Wrappers
  import opened Identifiers
  import opened OutcomeGraph
  import opened CohortJournal
  import opened CohortRuntime

  /** Every result in the journal is the one every schedule computes; no repair has been tried. */
  ghost predicate EventSound(c: Cohort, e: Event) {
    && (e.ResultEvent? ==> ResultSound(c, e.package, e.result))
    && !e.RepairAttemptEvent? && !e.RepairResultEvent?
  }

  ghost predicate EventsSound(c: Cohort, j: Journal) {
    forall i | 0 <= i < |j| :: EventSound(c, j[i])
  }

  ghost predicate Good(c: Cohort, w: int, s: Loop) {
    Shape(c.g, w, s) && Counted(s) && Recorded(c.g, s) && Sound(c, s) && EventsSound(c, s.journal)
  }

  /** Recorded results are never changed. */
  ghost predicate Keeps(s: Loop, t: Loop) {
    && s.results.Keys <= t.results.Keys && OnlyRunEvents(s.journal, t.journal)
    && forall p | p in s.results :: t.results[p] == s.results[p]
  }

  /** `k` extends `j` by dispatches and package results only. */
  ghost predicate OnlyRunEvents(j: Journal, k: Journal) {
    j <= k && forall i | |j| <= i < |k| :: k[i].DispatchEvent? || k[i].ResultEvent?
  }

  lemma OnlyRunEventsThen(i: Journal, j: Journal, k: Journal)
    requires OnlyRunEvents(i, j) && OnlyRunEvents(j, k)
    ensures OnlyRunEvents(i, k)
  {
    forall n | |i| <= n < |k| ensures k[n].DispatchEvent? || k[n].ResultEvent? {
      if n < |j| { assert k[n] == j[n]; }
    }
  }

  lemma KeepsThen(s: Loop, t: Loop, u: Loop)
    requires Keeps(s, t) && Keeps(t, u)
    ensures Keeps(s, u)
  {
    OnlyRunEventsThen(s.journal, t.journal, u.journal);
  }

  // --- The blocking pass ---

  /** `t` is `s` with the packages `rest` recorded as blocked. */
  ghost predicate BlockedMore(s: Loop, rest: set<Id>, t: Loop) {
    && t.pending == s.pending - rest && t.results.Keys == s.results.Keys + rest
    && (forall p | p in s.results :: t.results[p] == s.results[p])
    && (forall p | p in rest :: t.results[p].state.BlockedDependency?)
    && t.active == s.active && t.count == s.count && OnlyRunEvents(s.journal, t.journal)
  }

  lemma BlockOneGood(c: Cohort, w: int, p: Id, s: Loop)
    requires Good(c, w, s) && p in s.pending && Unsuccessful(c.g, s.results, p) != {}
    ensures Good(c, w, BlockOne(c.g, p, s)) && BlockedMore(s, {p}, BlockOne(c.g, p, s))
  {
    hide Shape, Counted, Recorded, Sound, EventSound;
    assert p in c.g && p !in s.results by { PendingIsNew(c.g, w, p, s); }
    BlockOneShape(c.g, w, p, s);
    BlockOneCounted(c.g, p, s);
    BlockOneRecorded(c.g, p, s);
    BlockOneSound(c, p, s);
    BlockOneEvent(c, p, s);
    BlockOneMore(c.g, p, s);
  }

  lemma PendingIsNew(g: Packages, w: int, p: Id, s: Loop)
    requires Shape(g, w, s) && p in s.pending
    ensures p in g && p !in s.results && p !in s.active
  {}

  lemma BlockOneCounted(g: Packages, p: Id, s: Loop)
    requires Counted(s) && p in g && Unsuccessful(g, s.results, p) != {}
    ensures Counted(BlockOne(g, p, s))
  {}

  lemma BlockOneEvent(c: Cohort, p: Id, s: Loop)
    requires p in c.g && Unsuccessful(c.g, s.results, p) != {}
    requires Sound(c, BlockOne(c.g, p, s)) && EventsSound(c, s.journal)
    ensures EventsSound(c, BlockOne(c.g, p, s).journal)
  {
    hide ResultSound;
    var s' := BlockOne(c.g, p, s);
    assert ResultSound(c, p, s'.results[p]);
  }

  lemma BlockOneMore(g: Packages, p: Id, s: Loop)
    requires p in g && p !in s.results && Unsuccessful(g, s.results, p) != {}
    ensures BlockedMore(s, {p}, BlockOne(g, p, s))
  {
    assert BlockOne(g, p, s).results.Keys == s.results.Keys + {p};
  }

  lemma BlockedMoreThen(s: Loop, p: Id, rest: set<Id>, t: Loop, u: Loop)
    requires p in rest && BlockedMore(s, {p}, t) && BlockedMore(t, rest - {p}, u) && rest !! s.results.Keys
    ensures BlockedMore(s, rest, u)
  {
    assert u.results.Keys == s.results.Keys + rest;
    OnlyRunEventsThen(s.journal, t.journal, u.journal);
  }

  lemma {:induction false} BlockAllGood(c: Cohort, w: int, rest: set<Id>, s: Loop)
    requires Good(c, w, s) && rest <= s.pending
    requires rest <= c.g.Keys && rest !! s.results.Keys && forall p | p in rest :: Unsuccessful(c.g, s.results, p) != {}
    ensures Good(c, w, BlockAll(c.g, rest, s)) && BlockedMore(s, rest, BlockAll(c.g, rest, s))
    decreases rest
  {
    hide Good;
    if rest != {} {
      var p := Least(rest);
      BlockOneGood(c, w, p, s);
      var s' := BlockOne(c.g, p, s);
      forall q | q in rest - {p} ensures Unsuccessful(c.g, s'.results, q) != {} {
        UnsuccessfulGrows(c.g, s.results, q, p, s'.results[p]);
      }
      BlockAllGood(c, w, rest - {p}, s');
      BlockedMoreThen(s, p, rest, s', BlockAll(c.g, rest - {p}, s'));
    } else {
      assert s.pending - rest == s.pending && s.results.Keys + rest == s.results.Keys;
    }
  }

  // --- The launching pass ---

  /** The loop invariant of the launching pass over what is left of the pending packages. */
  ghost predicate Launchable(c: Cohort, w: int, before: Loop, rest: set<Id>, l: Launching) {
    && Shape(c.g, w, l.loop) && Counted(l.loop) && Sound(c, l.loop)
    && Announcing(c.g, before, l) && rest <= l.loop.pending
    && l.loop.pending + Elements(l.launched) == before.pending
  }

  lemma LaunchTurnShape(c: Cohort, w: int, p: Id, l: Launching)
    requires Shape(c.g, w, l.loop) && Counted(l.loop) && Sound(c, l.loop) && p in l.loop.pending && l.loop.count < w
    ensures p in c.g
    ensures var l' := LaunchTurn(c.g, p, l);
            && Shape(c.g, w, l'.loop) && Counted(l'.loop) && Sound(c, l'.loop)
            && l.loop.pending - {p} <= l'.loop.pending && l.loop.active <= l'.loop.active
  {
    hide Shape, Counted, Sound;
    PendingIsNew(c.g, w, p, l.loop);
    if Ready(c.g, l.loop.results, p) && Fits(c.g, l.loop, p) {
      LaunchOneShape(c.g, w, p, l.loop);
      LaunchOneCounted(c.g, p, l.loop);
      LaunchOneSound(c, p, l.loop);
    }
  }

  lemma LaunchOneCounted(g: Packages, p: Id, s: Loop)
    requires Counted(s) && p in g && p !in s.active
    ensures Counted(LaunchOne(g, p, s))
  {}

  lemma LaunchOneSound(c: Cohort, p: Id, s: Loop)
    requires Sound(c, s) && p in c.g && p in s.pending
    ensures Sound(c, LaunchOne(c.g, p, s))
  {
    hide ResultSound;
  }

  lemma LaunchTurnKeeps(c: Cohort, w: int, before: Loop, rest: set<Id>, p: Id, l: Launching)
    requires Launchable(c, w, before, rest, l) && p in rest && l.loop.count < w
    ensures Launchable(c, w, before, rest - {p}, LaunchTurn(c.g, p, l))
    ensures l.loop.active <= LaunchTurn(c.g, p, l).loop.active
  {
    hide Shape, Sound, Counted;
    LaunchTurnShape(c, w, p, l);
    LaunchTurnAnnounces(c.g, before, p, l);
    assert Elements(l.launched + [p]) == Elements(l.launched) + {p};
  }

  lemma {:induction false} LaunchAllKeeps(c: Cohort, w: int, before: Loop, rest: set<Id>, l: Launching)
    requires Launchable(c, w, before, rest, l) && rest <= c.g.Keys
    ensures Launchable(c, w, before, {}, LaunchAll(c.g, w, rest, l))
    ensures l.loop.active <= LaunchAll(c.g, w, rest, l).loop.active
    decreases rest
  {
    hide Shape, Sound, Counted, Announcing;
    if rest != {} && l.loop.count < w {
      var p := Least(rest);
      LaunchTurnKeeps(c, w, before, rest, p, l);
      LaunchAllKeeps(c, w, before, rest - {p}, LaunchTurn(c.g, p, l));
    }
  }

  /** If a pass ends with nothing running, nothing pending was ready. */
  lemma {:induction false} IdlePassMeansNothingReady(c: Cohort, w: int, before: Loop, rest: set<Id>, l: Launching, q: Id)
    requires Launchable(c, w, before, rest, l) && rest <= c.g.Keys && q in rest && w >= 1
    requires LaunchAll(c.g, w, rest, l).loop.active == {}
    ensures !Ready(c.g, l.loop.results, q)
    decreases rest
  {
    LaunchAllKeeps(c, w, before, rest, l);
    assert l.loop.active == {} && l.loop.count == 0;
    var p := Least(rest);
    LaunchTurnKeeps(c, w, before, rest, p, l);
    LaunchAllKeeps(c, w, before, rest - {p}, LaunchTurn(c.g, p, l));
    if q != p {
      IdlePassMeansNothingReady(c, w, before, rest - {p}, LaunchTurn(c.g, p, l), q);
    } else {
      assert Fits(c.g, l.loop, p);
      assert p in LaunchOne(c.g, p, l.loop).active;
    }
  }

  // --- A turn of the loop ---

  ghost function Blocked(g: Packages, s: Loop): Loop
    requires s.pending <= g.Keys && s.pending !! s.results.Keys
  {
    BlockAll(g, Doomed(g, s), s)
  }

  /** Both passes and the dispatch record: the state in which the loop waits, ends or raises. */
  ghost function Passes(g: Packages, w: int, s: Loop): Loop
    requires s.pending <= g.Keys && s.pending !! s.results.Keys
  {
    var b := Blocked(g, s);
    if b.pending <= g.Keys then RecordDispatch(LaunchAll(g, w, b.pending, Launching(b, []))) else b
  }

  lemma BlockedGood(c: Cohort, w: int, s: Loop)
    requires Good(c, w, s)
    ensures s.pending <= c.g.Keys && s.pending !! s.results.Keys
    ensures Good(c, w, Blocked(c.g, s)) && BlockedMore(s, Doomed(c.g, s), Blocked(c.g, s))
  {
    hide Exclusive, Recorded, Sound, EventsSound, Counted;
    BlockAllGood(c, w, Doomed(c.g, s), s);
  }

  lemma PendingKnown(g: Packages, w: int, s: Loop)
    requires Shape(g, w, s)
    ensures s.pending <= g.Keys && s.pending !! s.results.Keys && s.active <= g.Keys
  {}

  lemma LaunchStart(c: Cohort, w: int, b: Loop)
    requires Good(c, w, b)
    ensures b.pending <= c.g.Keys && Launchable(c, w, b, b.pending, Launching(b, []))
  {
    hide Shape, Counted, Sound, Recorded, EventsSound;
    PendingKnown(c.g, w, b);
  }

  /** What the launching pass did to the blocked state `b`. */
  ghost predicate LaunchedMore(b: Loop, t: Loop) {
    && t.results == b.results && b.active <= t.active && t.pending <= b.pending
    && t.pending + t.active == b.pending + b.active && OnlyRunEvents(b.journal, t.journal)
  }

  lemma DispatchGood(c: Cohort, w: int, b: Loop, l: Launching)
    requires Good(c, w, b) && Launchable(c, w, b, {}, l)
    ensures Good(c, w, RecordDispatch(l)) && LaunchedMore(b, RecordDispatch(l))
  {
    hide Shape, Counted, Sound, Recorded, EventsSound;
    DispatchRecorded(c.g, b, l);
    DispatchSound(c, w, b, l);
    DispatchShape(c.g, w, l);
    DispatchResultsSound(c, l);
    DispatchCounted(l);
  }

  lemma DispatchShape(g: Packages, w: int, l: Launching)
    requires Shape(g, w, l.loop)
    ensures Shape(g, w, RecordDispatch(l))
  {
    assert Exclusive(g, RecordDispatch(l));
  }

  lemma DispatchCounted(l: Launching)
    requires Counted(l.loop)
    ensures Counted(RecordDispatch(l))
  {}

  lemma DispatchResultsSound(c: Cohort, l: Launching)
    requires Sound(c, l.loop)
    ensures Sound(c, RecordDispatch(l))
  {
    hide ResultSound;
  }

  lemma DispatchSound(c: Cohort, w: int, b: Loop, l: Launching)
    requires EventsSound(c, b.journal) && Launchable(c, w, b, {}, l)
    ensures EventsSound(c, RecordDispatch(l).journal)
  {
    hide Shape, Sound, Counted, ResultSound;
  }

  lemma PassesGood(c: Cohort, w: int, s: Loop)
    requires Good(c, w, s)
    ensures s.pending <= c.g.Keys && s.pending !! s.results.Keys
    ensures Good(c, w, Passes(c.g, w, s))
    ensures LaunchedMore(Blocked(c.g, s), Passes(c.g, w, s))
  {
    hide Good;
    BlockedGood(c, w, s);
    var b := Blocked(c.g, s);
    LaunchStart(c, w, b);
    LaunchAllKeeps(c, w, b, b.pending, Launching(b, []));
    DispatchGood(c, w, b, LaunchAll(c.g, w, b.pending, Launching(b, [])));
  }

  // --- Completions in any order ---

  ghost function Finish(c: Cohort, p: Id, s: Loop): Loop
    requires p in c.g
  {
    CompleteOne(c.g, p, c.exec(p, DependencyResults(c.g, s.results, p)), s)
  }

  lemma FinishGood(c: Cohort, w: int, p: Id, s: Loop)
    requires Good(c, w, s) && p in s.active
    ensures p in c.g && Good(c, w, Finish(c, p, s))
    ensures Finish(c, p, s).results.Keys == s.results.Keys + {p} && Keeps(s, Finish(c, p, s))
  {
    hide Shape, Counted, Recorded, Sound, EventSound;
    ActiveIsReady(c.g, w, p, s);
    var r := c.exec(p, DependencyResults(c.g, s.results, p));
    CompleteOneShape(c.g, w, p, r, s);
    CompleteOneCounted(c.g, p, r, s);
    CompleteOneRecorded(c.g, p, r, s);
    CompleteOneSound(c, p, s, DependencyResults(c.g, s.results, p));
    CompleteOneEvent(c, p, r, s);
    assert CompleteOne(c.g, p, r, s).results.Keys == s.results.Keys + {p};
  }

  lemma ActiveIsReady(g: Packages, w: int, p: Id, s: Loop)
    requires Shape(g, w, s) && p in s.active
    ensures p in g && p !in s.results && Ready(g, s.results, p)
  {}

  lemma CompleteOneCounted(g: Packages, p: Id, r: PackageResult, s: Loop)
    requires Counted(s) && p in g && p in s.active
    ensures Counted(CompleteOne(g, p, r, s))
  {}

  lemma CompleteOneEvent(c: Cohort, p: Id, r: PackageResult, s: Loop)
    requires p in c.g && Sound(c, CompleteOne(c.g, p, r, s)) && EventsSound(c, s.journal)
    ensures EventsSound(c, CompleteOne(c.g, p, r, s).journal)
  {
    hide ResultSound;
    assert ResultSound(c, p, CompleteOne(c.g, p, r, s).results[p]);
  }

  /** The completed workers, in the order the runtime takes them. */
  ghost predicate CanFinish(c: Cohort, order: seq<Id>, s: Loop) {
    && Distinct(order) && Elements(order) <= s.active && s.active <= c.g.Keys
  }

  ghost function FinishAll(c: Cohort, order: seq<Id>, s: Loop): Loop
    requires forall p | p in order :: p in c.g
  {
    if order == [] then s else Finish(c, order[|order| - 1], FinishAll(c, order[..|order| - 1], s))
  }

  lemma {:induction false} FinishAllGood(c: Cohort, w: int, order: seq<Id>, s: Loop)
    requires Good(c, w, s) && CanFinish(c, order, s)
    ensures forall p | p in order :: p in c.g
    ensures var t := FinishAll(c, order, s);
            && Good(c, w, t) && t.active == s.active - Elements(order) && t.pending == s.pending
            && t.results.Keys == s.results.Keys + Elements(order) && Keeps(s, t)
  {
    hide Good;
    forall p | p in order ensures p in c.g { assert p in Elements(order); }
    if order != [] {
      var before, p := order[..|order| - 1], order[|order| - 1];
      assert order == before + [p] && Elements(order) == Elements(before) + {p};
      assert p !in Elements(before);
      FinishAllGood(c, w, before, s);
      var t := FinishAll(c, before, s);
      FinishGood(c, w, p, t);
      KeepsThen(s, t, Finish(c, p, t));
    }
  }

  /** One turn: both passes, then some of the running packages finish. */
  ghost function Turn(c: Cohort, w: int, s: Loop, order: seq<Id>): Loop
    requires s.pending <= c.g.Keys && s.pending !! s.results.Keys
    requires CanFinish(c, order, Passes(c.g, w, s))
  {
    assert forall p | p in order :: p in Elements(order);
    FinishAll(c, order, Passes(c.g, w, s))
  }

  lemma PassesKeep(s: Loop, rest: set<Id>, b: Loop, t: Loop)
    requires BlockedMore(s, rest, b) && LaunchedMore(b, t)
    ensures Keeps(s, t)
  {
    OnlyRunEventsThen(s.journal, b.journal, t.journal);
  }

  /** One turn keeps the state good and loses no result; a turn that finishes something gains one. */
  lemma TurnGood(c: Cohort, w: int, s: Loop, order: seq<Id>)
    requires Good(c, w, s)
    ensures s.pending <= c.g.Keys && s.pending !! s.results.Keys
    ensures CanFinish(c, order, Passes(c.g, w, s)) ==>
      && Good(c, w, Turn(c, w, s, order))
      && Elements(order) <= Turn(c, w, s, order).results.Keys
      && Keeps(s, Turn(c, w, s, order))
  {
    hide Good;
    BlockedGood(c, w, s);
    PassesGood(c, w, s);
    PassesKeep(s, Doomed(c.g, s), Blocked(c.g, s), Passes(c.g, w, s));
    if CanFinish(c, order, Passes(c.g, w, s)) {
      FinishAllGood(c, w, order, Passes(c.g, w, s));
      KeepsThen(s, Passes(c.g, w, s), Turn(c, w, s, order));
    }
  }

  // --- Starting and resuming ---

  /** Any journal a run may be resumed from. */
  ghost predicate SoundJournal(c: Cohort, j: Journal) {
    && ValidCohort(c) && j != [] && Accepted(j) && EventsSound(c, j)
    && Replay(c.g.Keys, j).Some? && Replay(c.g.Keys, j).value.completion.None?
  }

  function Resume(g: Packages, j: Journal): Loop
    requires j != [] && Replay(g.Keys, j).Some?
  {
    var r := Replay(g.Keys, j).value;
    Loop(g.Keys - r.results.Keys, r.results, {}, 0, {}, {}, r.batches, r.peak, j)
  }

  function GateOne(p: Id, s: Loop): Loop {
    s.(results := s.results[p := GatedResult], pending := s.pending - {p},
       journal := s.journal + [ResultEvent(p, GatedResult, FromPolicy)])
  }

  function GateAll(rest: set<Id>, s: Loop): Loop
    decreases rest
  {
    if rest == {} then s else GateAll(rest - {Least(rest)}, GateOne(Least(rest), s))
  }

  /** Replay, then record the policy-gated packages that have no result yet. */
  function Begin(c: Cohort, j: Journal): Loop
    requires j != [] && Replay(c.g.Keys, j).Some?
  {
    var s := Resume(c.g, j);
    GateAll(s.pending * c.gated, s)
  }

  lemma {:induction false} ReplayedResultsSound(c: Cohort, j: Journal)
    requires ValidCohort(c) && j != [] && EventsSound(c, j) && Replay(c.g.Keys, j).Some?
    ensures var r := Replay(c.g.Keys, j).value;
            && r.results.Keys <= c.g.Keys
            && forall p | p in r.results :: ResultSound(c, p, r.results[p])
  {
    hide ResultSound;
    if |j| > 1 {
      ReplayedResultsSound(c, j[..|j| - 1]);
      assert EventSound(c, j[|j| - 1]);
    }
  }

  /** While gating: `rest` holds the gated packages still to be recorded. */
  ghost predicate Gating(c: Cohort, w: int, rest: set<Id>, s: Loop) {
    && ValidCohort(c) && Shape(c.g, w, s) && Counted(s) && Recorded(c.g, s) && EventsSound(c, s.journal)
    && (forall p | p in s.results :: ResultSound(c, p, s.results[p]))
    && s.active == {} && s.pending * c.gated == rest
  }

  lemma GateOneKeeps(c: Cohort, w: int, rest: set<Id>, p: Id, s: Loop)
    requires Gating(c, w, rest, s) && p in rest
    ensures Gating(c, w, rest - {p}, GateOne(p, s)) && Keeps(s, GateOne(p, s))
  {
    hide Shape, Counted, Recorded, ResultSound;
    var s' := GateOne(p, s);
    PendingIsNew(c.g, w, p, s);
    assert s'.results.Keys == s.results.Keys + {p};
    GateOneShape(c.g, w, p, s);
    assert Counted(s') by { GateOneCounted(p, s); }
    GateOneRecorded(c.g, p, s);
    GatedSound(c, p);
  }

  lemma GateOneShape(g: Packages, w: int, p: Id, s: Loop)
    requires Shape(g, w, s) && p in s.pending && s.active == {}
    ensures Shape(g, w, GateOne(p, s))
  {
    assert GateOne(p, s).results.Keys == s.results.Keys + {p};
  }

  lemma GateOneCounted(p: Id, s: Loop)
    requires Counted(s)
    ensures Counted(GateOne(p, s))
  {}

  lemma GatedSound(c: Cohort, p: Id)
    requires ValidCohort(c) && p in c.gated
    ensures ResultSound(c, p, GatedResult)
  {}

  lemma GateOneRecorded(g: Packages, p: Id, s: Loop)
    requires Recorded(g, s) && p in g && p !in s.results
    ensures Recorded(g, GateOne(p, s))
  {
    var e := ResultEvent(p, GatedResult, FromPolicy);
    RunEventAccepted(g.Keys, s.journal, e);
    AcceptedSnoc(s.journal, e);
    ReplaySnoc(g.Keys, s.journal, e);
  }

  lemma {:induction false} GateAllKeeps(c: Cohort, w: int, rest: set<Id>, s: Loop)
    requires Gating(c, w, rest, s)
    ensures Gating(c, w, {}, GateAll(rest, s)) && Keeps(s, GateAll(rest, s))
    decreases rest
  {
    hide Gating;
    if rest != {} {
      var t := GateOne(Least(rest), s);
      GateOneKeeps(c, w, rest, Least(rest), s);
      GateAllKeeps(c, w, rest - {Least(rest)}, t);
      KeepsThen(s, t, GateAll(rest, s));
    }
  }

  lemma ResumeGating(c: Cohort, w: int, j: Journal)
    requires SoundJournal(c, j) && w >= 0
    ensures var s := Resume(c.g, j); Gating(c, w, s.pending * c.gated, s)
  {
    hide ResultSound;
    ReplayedResultsSound(c, j);
  }

  lemma GatedIsGood(c: Cohort, w: int, s: Loop)
    requires Gating(c, w, {}, s)
    ensures Good(c, w, s)
  {
    hide Shape, Counted, Recorded, EventsSound, ResultSound;
    forall p | p in s.pending ensures p !in c.gated { assert p !in s.pending * c.gated; }
  }

  /** Resuming any sound journal starts from a good state and forgets no result. */
  lemma BeginGood(c: Cohort, w: int, j: Journal)
    requires SoundJournal(c, j) && w >= 0
    ensures Good(c, w, Begin(c, j)) && Keeps(Resume(c.g, j), Begin(c, j))
  {
    hide Gating, Good;
    var s := Resume(c.g, j);
    ResumeGating(c, w, j);
    GateAllKeeps(c, w, s.pending * c.gated, s);
    GatedIsGood(c, w, Begin(c, j));
  }

  lemma GoodJournalIsSound(c: Cohort, w: int, s: Loop)
    requires Good(c, w, s)
    ensures SoundJournal(c, s.journal)
  {
    hide Shape, Counted, ResultSound;
  }

  /** A crash keeps a prefix; every prefix can be resumed. */
  lemma PrefixSound(c: Cohort, j: Journal, n: nat)
    requires SoundJournal(c, j) && 1 <= n <= |j|
    ensures SoundJournal(c, j[..n])
  {
    hide ResultSound;
    PrefixAccepted(j, n);
    PrefixReplays(c.g.Keys, j, n);
    PrefixIncomplete(c.g.Keys, j, n);
  }

  lemma {:induction false} PrefixIncomplete(ids: set<Id>, j: Journal, n: nat)
    requires 1 <= n <= |j| && Replay(ids, j).Some? && Replay(ids, j).value.completion.None?
    ensures Replay(ids, j[..n]).Some? && Replay(ids, j[..n]).value.completion.None?
    decreases |j|
  {
    if n < |j| {
      PrefixIncomplete(ids, j[..|j| - 1], n);
      assert j[..|j| - 1][..n] == j[..n];
    } else {
      assert j[..n] == j;
    }
  }

  // --- Runs ---

  /** The state after the given turns, if each finishes some of the packages then running. */
  ghost function RunTurns(c: Cohort, w: int, s: Loop, orders: seq<seq<Id>>): Option<Loop> {
    if orders == [] then Some(s)
    else
      var before := RunTurns(c, w, s, orders[..|orders| - 1]);
      var order := orders[|orders| - 1];
      if before.None? then None
      else
        var t := before.value;
        if !(t.pending <= c.g.Keys && t.pending !! t.results.Keys) || order == [] || !CanFinish(c, order, Passes(c.g, w, t)) then None
        else Some(Turn(c, w, t, order))
  }

  lemma {:induction false} RunTurnsGood(c: Cohort, w: int, s: Loop, orders: seq<seq<Id>>)
    requires Good(c, w, s) && RunTurns(c, w, s, orders).Some?
    ensures Good(c, w, RunTurns(c, w, s, orders).value) && Keeps(s, RunTurns(c, w, s, orders).value)
  {
    hide Good;
    if orders != [] {
      RunTurnsGood(c, w, s, orders[..|orders| - 1]);
      var t := RunTurns(c, w, s, orders[..|orders| - 1]).value;
      TurnGood(c, w, t, orders[|orders| - 1]);
      KeepsThen(s, t, RunTurns(c, w, s, orders).value);
    }
  }

  /**
   An attempt runs some turns and the passes of one more, in which it may raise the progress
   error, wait or end; it leaves `cut` events on disk.
   */
  datatype Attempt = Attempt(workers: nat, orders: seq<seq<Id>>, cut: nat)

  ghost function AfterAttempt(c: Cohort, j: Journal, a: Attempt): Option<Journal> {
    if !SoundJournal(c, j) then None
    else
      var t := RunTurns(c, a.workers, Begin(c, j), a.orders);
      if t.None? || !(t.value.pending <= c.g.Keys && t.value.pending !! t.value.results.Keys) then None
      else
        var full := Passes(c.g, a.workers, t.value).journal;
        if |j| <= a.cut <= |full| then Some(full[..a.cut]) else None
  }

  /** The journal after any sequence of crashed attempts. */
  ghost function AfterAttempts(c: Cohort, record: string, attempts: seq<Attempt>): Option<Journal> {
    if attempts == [] then Some([KickoffEvent(record)])
    else
      var before := AfterAttempts(c, record, attempts[..|attempts| - 1]);
      if before.None? then None else AfterAttempt(c, before.value, attempts[|attempts| - 1])
  }

  lemma {:induction false} AttemptsKeepJournalSound(c: Cohort, record: string, attempts: seq<Attempt>)
    requires ValidCohort(c) && AfterAttempts(c, record, attempts).Some?
    ensures SoundJournal(c, AfterAttempts(c, record, attempts).value)
  {
    if attempts == [] {
      assert Accepted([KickoffEvent(record)]) by { AcceptedSnoc([], KickoffEvent(record)); }
    } else {
      AttemptsKeepJournalSound(c, record, attempts[..|attempts| - 1]);
      AttemptKeepsJournalSound(c, AfterAttempts(c, record, attempts[..|attempts| - 1]).value, attempts[|attempts| - 1]);
    }
  }

  lemma AttemptKeepsJournalSound(c: Cohort, j: Journal, a: Attempt)
    requires AfterAttempt(c, j, a).Some?
    ensures SoundJournal(c, AfterAttempt(c, j, a).value)
  {
    hide Good;
    BeginGood(c, a.workers, j);
    RunTurnsGood(c, a.workers, Begin(c, j), a.orders);
    var t := RunTurns(c, a.workers, Begin(c, j), a.orders).value;
    PassesGood(c, a.workers, t);
    var last := Passes(c.g, a.workers, t);
    GoodJournalIsSound(c, a.workers, last);
    PrefixSound(c, last.journal, a.cut);
  }

  ghost predicate Converged(s: Loop) {
    s.pending == {} && s.active == {}
  }

  /**
   Confluence. After any crashed attempts, with any worker counts and any completion orders,
   a run that converges, in a turn that finishes something or in one that only blocks, gives
   every package the result of the recursive specification.
   */
  lemma Confluence(c: Cohort, record: string, attempts: seq<Attempt>, w: nat, orders: seq<seq<Id>>)
    requires ValidCohort(c) && AfterAttempts(c, record, attempts).Some?
    ensures SoundJournal(c, AfterAttempts(c, record, attempts).value)
    ensures var t := RunTurns(c, w, Begin(c, AfterAttempts(c, record, attempts).value), orders);
            t.Some? ==>
              && t.value.pending <= c.g.Keys && t.value.pending !! t.value.results.Keys
              && var last := Passes(c.g, w, t.value);
                 Converged(last) ==>
                   last.results.Keys == c.g.Keys && forall p | p in c.g :: Agrees(last.results[p], Spec(c, p))
  {
    AttemptsKeepJournalSound(c, record, attempts);
    var j := AfterAttempts(c, record, attempts).value;
    BeginGood(c, w, j);
    var t := RunTurns(c, w, Begin(c, j), orders);
    if t.Some? {
      RunTurnsGood(c, w, Begin(c, j), orders);
      PassesGood(c, w, t.value);
      if Converged(Passes(c.g, w, t.value)) { ConvergedAgrees(c, w, Passes(c.g, w, t.value)); }
    }
  }

  lemma ConvergedAgrees(c: Cohort, w: int, s: Loop)
    requires Good(c, w, s) && Converged(s)
    ensures s.results.Keys == c.g.Keys
    ensures forall p | p in c.g :: Agrees(s.results[p], Spec(c, p))
  {
    forall p | p in c.g ensures p in s.results && Agrees(s.results[p], Spec(c, p)) {
      assert ResultSound(c, p, s.results[p]);
    }
  }

  /**
   A converged run explains itself: each result is the gate's, or a block where a dependency's result is no
   success, or what the executor makes of the dependencies' results.
   */
  lemma ConvergedMeaning(c: Cohort, w: int, s: Loop, p: Id)
    requires Good(c, w, s) && Converged(s) && p in c.g
    ensures p in s.results && c.g[p].deps <= s.results.Keys
    ensures var r := s.results[p];
            if p in c.gated then r.state.BlockedPolicy? && r.output == "" && r.evidence == []
            else if exists d | d in c.g[p].deps :: !s.results[d].state.Succeeded?
            then r.state.BlockedDependency? && r.output == "" && r.evidence == []
            else
              var e := c.exec(p, DependencyResults(c.g, s.results, p));
              r.state == e.state && r.output == e.output && r.evidence == e.evidence && (r.state.Succeeded? ==> r == e)
  {
    assert p in s.results && forall q | q in c.g :: q in s.results;
    forall d | d in c.g[p].deps ensures d in s.results { assert d in DepsOf(c.g)[p]; }
    assert ResultSound(c, p, s.results[p]);
    ConvergedDependencies(c, w, s, p);
  }

  lemma ConvergedDependencies(c: Cohort, w: int, s: Loop, p: Id)
    requires Good(c, w, s) && p in c.g && c.g[p].deps <= s.results.Keys && ValidCohort(c)
    ensures forall d | d in c.g[p].deps :: SpecDependencies(c, p)[d].state == s.results[d].state
    ensures (forall d | d in c.g[p].deps :: s.results[d].state.Succeeded?) ==> SpecDependencies(c, p) == DependencyResults(c.g, s.results, p)
  {
    forall d | d in c.g[p].deps ensures SpecDependencies(c, p)[d].state == s.results[d].state
                                 && (s.results[d].state.Succeeded? ==> SpecDependencies(c, p)[d] == s.results[d]) {
      assert ResultSound(c, d, s.results[d]);
    }
  }

  /** What a journal holds is never executed again, nor changed. */
  lemma NeverReexecutes(c: Cohort, w: nat, j: Journal, orders: seq<seq<Id>>)
    requires SoundJournal(c, j)
    requires RunTurns(c, w, Begin(c, j), orders).Some?
    ensures var t := RunTurns(c, w, Begin(c, j), orders).value;
            var r := Replay(c.g.Keys, j).value;
            && t.pending <= c.g.Keys && t.pending !! t.results.Keys
            && Passes(c.g, w, t).active !! r.results.Keys
            && r.results.Keys <= t.results.Keys && forall p | p in r.results :: t.results[p] == r.results[p]
  {
    BeginGood(c, w, j);
    RunTurnsGood(c, w, Begin(c, j), orders);
    var t := RunTurns(c, w, Begin(c, j), orders).value;
    PassesGood(c, w, t);
    BlockedGood(c, w, t);
    NothingRecordedRuns(c.g, w, Passes(c.g, w, t));
  }

  lemma NothingRecordedRuns(g: Packages, w: int, s: Loop)
    requires Shape(g, w, s)
    ensures s.active !! s.results.Keys
  {}
}
