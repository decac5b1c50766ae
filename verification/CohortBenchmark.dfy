/**
 The strict-versus-cohort scheduling estimate: a discrete-event simulation of a greedy list
 scheduler with a worker cap, dependencies, and path and lock conflicts.
 */
module CohortBenchmark {
  import opened Wrappers
  import opened Identifiers
  import opened Dependencies
  import opened OutcomeGraph
  import opened Sums

  predicate Conflict(a: Package, b: Package) {
    a.paths * b.paths != {} || a.locks * b.locks != {}
  }

  /** `_conflicts`: does `p` clash with any of the packages `s`? */
  predicate Conflicts(g: Packages, p: Id, s: set<Id>)
    requires p in g && s <= g.Keys
  {
    exists q | q in s :: Conflict(g[p], g[q])
  }

  ghost predicate ConflictFree(g: Packages, s: set<Id>)
    requires s <= g.Keys
  {
    forall p, q | p in s && q in s && p != q :: !Conflict(g[p], g[q])
  }

  // --- Chains and their durations ---

  ghost function Total(dur: map<Id, int>, c: seq<Id>): int
    requires forall p | p in c :: p in dur
  {
    if c == [] then 0 else Total(dur, c[..|c| - 1]) + dur[c[|c| - 1]]
  }

  lemma TotalSnoc(dur: map<Id, int>, c: seq<Id>, p: Id)
    requires (forall q | q in c :: q in dur) && p in dur
    ensures Total(dur, c + [p]) == Total(dur, c) + dur[p]
  {
    assert (c + [p])[..|c|] == c;
  }

  /** `c` is a chain that ends just before `p`. */
  ghost predicate Feeds(g: Packages, c: seq<Id>, p: Id)
    requires p in g
  {
    IsChain(DepsOf(g), c) && (c == [] || c[|c| - 1] in g[p].deps)
  }

  /** Some chain below `p` lasts at least `amount`. */
  ghost predicate Covered(g: Packages, dur: map<Id, int>, p: Id, amount: int)
    requires p in g && dur.Keys == g.Keys
  {
    exists c :: Feeds(g, c, p) && Total(dur, c) >= amount
  }

  lemma FeedsSnoc(g: Packages, dur: map<Id, int>, c: seq<Id>, d: Id)
    requires d in g && dur.Keys == g.Keys && Feeds(g, c, d)
    ensures IsChain(DepsOf(g), c + [d]) && Total(dur, c + [d]) == Total(dur, c) + dur[d]
  {
    TotalSnoc(dur, c, d);
  }

  lemma CoveredByDependency(g: Packages, dur: map<Id, int>, p: Id, d: Id, amount: int)
    requires p in g && d in g && d in g[p].deps && dur.Keys == g.Keys
    requires Covered(g, dur, d, amount - dur[d])
    ensures Covered(g, dur, p, amount)
  {
    var c :| Feeds(g, c, d) && Total(dur, c) >= amount - dur[d];
    FeedsSnoc(g, dur, c, d);
    assert Feeds(g, c + [d], p);
  }

  lemma CoveredLess(g: Packages, dur: map<Id, int>, p: Id, a: int, b: int)
    requires p in g && dur.Keys == g.Keys && Covered(g, dur, p, a) && b <= a
    ensures Covered(g, dur, p, b)
  {
    var c :| Feeds(g, c, p) && Total(dur, c) >= a;
    assert Feeds(g, c, p) && Total(dur, c) >= b;
  }

  /** `a` must finish before `b` may start. */
  ghost predicate Precedes(g: Packages, a: Id, b: Id) {
    exists c :: IsChain(DepsOf(g), c) && |c| >= 2 && c[0] == a && c[|c| - 1] == b
  }

  /** Packages that clash are ordered by dependencies, so clashes never delay a launch. */
  ghost predicate Orderly(g: Packages) {
    forall a, b | a in g && b in g && a != b && Conflict(g[a], g[b]) :: Precedes(g, a, b) || Precedes(g, b, a)
  }

  ghost predicate LocksOrdered(g: Packages) {
    forall a, b | a in g && b in g && a != b && g[a].locks * g[b].locks != {} :: Precedes(g, a, b) || Precedes(g, b, a)
  }

  /** Admission already orders the writers of a path; only locks can make a graph disorderly. */
  lemma OrderlyUpToLocks(g: Packages)
    requires WritersOrdered(g) && Known(DepsOf(g)) && LocksOrdered(g)
    ensures Orderly(g)
  {
    forall a, b | a in g && b in g && a != b && Conflict(g[a], g[b])
      ensures Precedes(g, a, b) || Precedes(g, b, a)
    {
      if g[a].paths * g[b].paths != {} {
        if a in g[b].deps { assert IsChain(DepsOf(g), [a, b]); } else { assert IsChain(DepsOf(g), [b, a]); }
      }
    }
  }

  // --- The simulation state ---

  ghost predicate Partition(g: Packages, done: set<Id>, pending: set<Id>, active: set<Id>) {
    && done + pending + active == g.Keys
    && done !! pending !! active
    && forall p | p in done + active :: g[p].deps <= done
  }

  /** A product kept out of the solver's arithmetic until it is needed. */
  ghost function Times(n: nat, x: int): int {
    if n == 0 then 0 else Times(n - 1, x) + x
  }

  lemma {:induction false} TimesIsProduct(n: nat, x: int)
    ensures Times(n, x) == n * x
  {
    if n > 0 {
      TimesIsProduct(n - 1, x);
      assert n * x == (n - 1) * x + x;
    }
  }

  lemma {:induction false} TimesSplit(m: nat, n: nat, x: int)
    ensures Times(m + n, x) == Times(m, x) + Times(n, x)
  {
    if n > 0 { TimesSplit(m, n - 1, x); }
  }

  /** Worker time spent so far: durations started, less what the active packages still owe. */
  ghost function Work(dur: map<Id, int>, done: set<Id>, active: map<Id, int>, count: nat, now: int): int
    requires done + active.Keys <= dur.Keys
  {
    Balance(dur, done, active) + Times(count, now)
  }

  /** Durations started, less finish times still ahead. */
  ghost function Balance(dur: map<Id, int>, done: set<Id>, active: map<Id, int>): int
    requires done + active.Keys <= dur.Keys
  {
    Sum(done + active.Keys, dur) - Sum(active.Keys, active)
  }

  /** `active'` is `active` with `p` due at `v`. */
  ghost predicate Inserted(active: map<Id, int>, p: Id, v: int, active': map<Id, int>) {
    && p !in active
    && active'.Keys == active.Keys + {p}
    && active'[p] == v
    && forall q | q in active :: active'[q] == active[q]
  }

  lemma InsertedByUpdate(active: map<Id, int>, p: Id, v: int)
    requires p !in active
    ensures Inserted(active, p, v, active[p := v])
  {}

  lemma TakeOne(all: set<Id>, rest: set<Id>, p: Id)
    requires rest <= all && p in rest
    ensures all - (rest - {p}) == (all - rest) + {p}
  {}

  lemma InsertedCount(active: map<Id, int>, p: Id, v: int, active': map<Id, int>)
    requires Inserted(active, p, v, active')
    ensures |active'.Keys| == |active.Keys| + 1
  {}

  lemma BalanceLaunch(dur: map<Id, int>, done: set<Id>, active: map<Id, int>, p: Id, v: int, active': map<Id, int>)
    requires done + active.Keys <= dur.Keys && p in dur && p !in done && Inserted(active, p, v, active')
    ensures done + active'.Keys <= dur.Keys
    ensures Balance(dur, done, active') == Balance(dur, done, active) + dur[p] - v
  {
    assert done + active'.Keys == done + active.Keys + {p};
    SumAdd(done + active.Keys, dur, p);
    SumAdd(active.Keys, active', p);
    SumAgree(active.Keys, active, active');
  }

  lemma BalanceComplete(dur: map<Id, int>, done: set<Id>, active: map<Id, int>, p: Id)
    requires done + active.Keys <= dur.Keys && p !in done && p in active
    ensures done + {p} + (active - {p}).Keys <= dur.Keys
    ensures Balance(dur, done + {p}, active - {p}) == Balance(dur, done, active) + active[p]
  {
    var active' := active - {p};
    assert active'.Keys == active.Keys - {p};
    assert done + {p} + active'.Keys == done + active.Keys;
    SumRemove(active.Keys, active, p);
    SumAgree(active'.Keys, active, active');
  }

  lemma WorkLaunch(dur: map<Id, int>, done: set<Id>, active: map<Id, int>, count: nat, now: int, p: Id, active': map<Id, int>)
    requires done + active.Keys <= dur.Keys && p in dur && p !in done && Inserted(active, p, now + dur[p], active')
    ensures done + active'.Keys <= dur.Keys
    ensures Work(dur, done, active', count + 1, now) == Work(dur, done, active, count, now)
  {
    BalanceLaunch(dur, done, active, p, now + dur[p], active');
  }

  /** Between two events: some worker is busy, at most `w` are, and idle time is counted. */
  ghost predicate Accounts(w: int, now: int, work: int, idle: int) {
    now <= work <= w * now && w * now - work <= (w - 1) * idle
  }

  lemma AdvanceAccounts(w: int, k: int, now: int, next: int, work: int, idle: int)
    requires Accounts(w, now, work, idle) && 1 <= k <= w && now <= next
    ensures Accounts(w, next, work + k * next - k * now, if k < w then idle + next - now else idle)
  {
    var d := next - now;
    assert k * next - k * now == k * d;
    assert w * next == w * now + w * d;
    assert d <= k * d <= w * d by { MulMonotone(1, k, d); MulMonotone(k, w, d); }
    if k < w {
      assert (w - 1) * (idle + d) == (w - 1) * idle + w * d - d;
    }
  }

  lemma MulMonotone(a: int, b: int, d: int)
    requires a <= b && 0 <= d
    ensures a * d <= b * d
  {}

  /** Finish times respect dependencies; the done ones are past. */
  ghost predicate Timed(g: Packages, dur: map<Id, int>, done: set<Id>, active: map<Id, int>, finish: map<Id, int>, now: int)
    requires dur.Keys == g.Keys && done + active.Keys <= g.Keys
  {
    && finish.Keys == done + active.Keys
    && (forall p | p in active :: finish[p] == active[p] >= now)
    && (forall p | p in done :: finish[p] <= now)
    && (forall p | p in finish :: finish[p] >= dur[p])
    && (forall p, d | p in finish && d in g[p].deps :: d in finish && finish[d] + dur[p] <= finish[p])
  }

  /** Idle time so far is explained by a chain below every package that could have used it. */
  ghost predicate IdleExplained(g: Packages, dur: map<Id, int>, done: set<Id>, pending: set<Id>, active: map<Id, int>, now: int, idle: int)
    requires dur.Keys == g.Keys && pending + active.Keys <= g.Keys
  {
    && (forall p | p in active :: Covered(g, dur, p, idle - (now - (active[p] - dur[p]))))
    && (forall p | p in pending && g[p].deps <= done :: Covered(g, dur, p, idle))
  }

  /** A package whose dependencies are done never clashes with one that runs. */
  lemma ReadyNeverClashes(g: Packages, done: set<Id>, pending: set<Id>, active: set<Id>, p: Id, q: Id)
    requires Orderly(g) && Partition(g, done, pending, active)
    requires p in pending && g[p].deps <= done && q in active
    ensures !Conflict(g[p], g[q])
  {
    if Conflict(g[p], g[q]) {
      if Precedes(g, p, q) {
        var c :| IsChain(DepsOf(g), c) && |c| >= 2 && c[0] == p && c[|c| - 1] == q;
        ChainStartsDone(g, done, c);
      } else {
        var c :| IsChain(DepsOf(g), c) && |c| >= 2 && c[0] == q && c[|c| - 1] == p;
        ChainStartsDone(g, done, c);
      }
    }
  }

  lemma {:induction false} ChainStartsDone(g: Packages, done: set<Id>, c: seq<Id>)
    requires IsChain(DepsOf(g), c) && |c| >= 2
    requires done <= g.Keys && forall p | p in done :: g[p].deps <= done
    requires g[c[|c| - 1]].deps <= done
    ensures c[0] in done
  {
    var before := c[..|c| - 1];
    assert before[|before| - 1] in g[c[|c| - 1]].deps;
    if |c| > 2 {
      ChainStartsDone(g, done, before);
    }
  }

  // --- One scheduling pass ---

  /** A pass adds `batch`, once each, to the active packages. */
  ghost predicate Joined(before: set<Id>, after: set<Id>, batch: seq<Id>) {
    && Distinct(batch)
    && after == before + Elements(batch) && before !! Elements(batch)
  }

  /** What a pass over the pending packages did to the active ones. */
  ghost predicate LaunchedBatch(g: Packages, dur: map<Id, int>, now: int, done: set<Id>, before: map<Id, int>, after: map<Id, int>, batch: seq<Id>)
    requires dur.Keys == g.Keys && before.Keys <= g.Keys
  {
    && Joined(before.Keys, after.Keys, batch)
    && after.Keys <= g.Keys
    && (forall p | p in before :: after[p] == before[p])
    && (forall p | p in after.Keys - before.Keys :: g[p].deps <= done && after[p] == now + dur[p])
    && ConflictFree(g, after.Keys)
  }

  /** Greed: a package was left behind only if it was not ready, or clashed, or no worker was free. */
  ghost predicate LeftBehind(g: Packages, done: set<Id>, active: set<Id>, full: bool, p: Id)
    requires p in g && active <= g.Keys
  {
    !(g[p].deps <= done) || full || Conflicts(g, p, active)
  }

  lemma LeftBehindStays(g: Packages, done: set<Id>, active: set<Id>, active': set<Id>, p: Id)
    requires p in g && active <= active' <= g.Keys && LeftBehind(g, done, active, false, p)
    ensures LeftBehind(g, done, active', false, p)
  {}

  lemma JoinOne(before: set<Id>, after: set<Id>, batch: seq<Id>, p: Id)
    requires Joined(before, after, batch) && p !in after
    ensures Joined(before, after + {p}, batch + [p])
  {
    assert Elements(batch + [p]) == Elements(batch) + {p};
    assert forall q | q in batch :: q in Elements(batch);
  }

  lemma ConflictFreeAdd(g: Packages, s: set<Id>, p: Id)
    requires s <= g.Keys && p in g && ConflictFree(g, s) && !Conflicts(g, p, s)
    ensures ConflictFree(g, s + {p})
  {
    forall a, b | a in s + {p} && b in s + {p} && a != b ensures !Conflict(g[a], g[b]) {
      if a == p { ConflictSymmetric(g[a], g[b]); }
    }
  }

  lemma ConflictSymmetric(a: Package, b: Package)
    ensures Conflict(a, b) == Conflict(b, a)
  {
    assert a.paths * b.paths == b.paths * a.paths;
    assert a.locks * b.locks == b.locks * a.locks;
  }

  lemma LaunchOne(g: Packages, dur: map<Id, int>, now: int, done: set<Id>, before: map<Id, int>, after: map<Id, int>, batch: seq<Id>, p: Id, after': map<Id, int>)
    requires dur.Keys == g.Keys && before.Keys <= g.Keys && p in g
    requires LaunchedBatch(g, dur, now, done, before, after, batch)
    requires g[p].deps <= done && !Conflicts(g, p, after.Keys)
    requires Inserted(after, p, now + dur[p], after')
    ensures LaunchedBatch(g, dur, now, done, before, after', batch + [p])
  {
    JoinOne(before.Keys, after.Keys, batch, p);
    ConflictFreeAdd(g, after.Keys, p);
  }

  /** The pass after the packages `seen`: what it launched, and why it left the others. */
  ghost predicate Pass(g: Packages, dur: map<Id, int>, now: int, done: set<Id>, before: map<Id, int>, seen: set<Id>, active: map<Id, int>, launched: seq<Id>)
    requires dur.Keys == g.Keys && before.Keys <= g.Keys
  {
    && LaunchedBatch(g, dur, now, done, before, active, launched)
    && Elements(launched) <= seen <= g.Keys
    && forall p | p in seen && p !in active :: LeftBehind(g, done, active.Keys, false, p)
  }

  lemma PassLaunches(g: Packages, dur: map<Id, int>, now: int, done: set<Id>, before: map<Id, int>, seen: set<Id>, active: map<Id, int>, launched: seq<Id>, p: Id, active': map<Id, int>)
    requires dur.Keys == g.Keys && before.Keys <= g.Keys && p in g
    requires Pass(g, dur, now, done, before, seen, active, launched)
    requires g[p].deps <= done && !Conflicts(g, p, active.Keys)
    requires Inserted(active, p, now + dur[p], active')
    ensures Pass(g, dur, now, done, before, seen + {p}, active', launched + [p])
  {
    hide ConflictFree, Joined, Conflicts, LeftBehind;
    LaunchOne(g, dur, now, done, before, active, launched, p, active');
    assert Elements(launched + [p]) == Elements(launched) + {p};
    forall q | q in seen && q !in active' ensures LeftBehind(g, done, active'.Keys, false, q) {
      LeftBehindStays(g, done, active.Keys, active'.Keys, q);
    }
  }

  lemma PassSkips(g: Packages, dur: map<Id, int>, now: int, done: set<Id>, before: map<Id, int>, seen: set<Id>, active: map<Id, int>, launched: seq<Id>, p: Id)
    requires dur.Keys == g.Keys && before.Keys <= g.Keys && p in g
    requires Pass(g, dur, now, done, before, seen, active, launched)
    requires !(g[p].deps <= done) || Conflicts(g, p, active.Keys)
    ensures Pass(g, dur, now, done, before, seen + {p}, active, launched)
  {}

  datatype Scan = Scan(active: map<Id, int>, launched: seq<Id>, capacity: nat)

  predicate Launchable(g: Packages, done: set<Id>, active: set<Id>, p: Id)
    requires p in g && active <= g.Keys
  {
    g[p].deps <= done && !Conflicts(g, p, active)
  }

  /** One turn of the inner loop. */
  function ScanOne(g: Packages, dur: map<Id, int>, now: int, done: set<Id>, p: Id, s: Scan): Scan
    requires dur.Keys == g.Keys && p in g && s.active.Keys <= g.Keys && s.capacity > 0
  {
    if Launchable(g, done, s.active.Keys, p)
    then Scan(s.active[p := now + dur[p]], s.launched + [p], s.capacity - 1)
    else s
  }

  /** The rest of a pass: the least remaining identifier is taken next, until no worker is free. */
  function ScanPending(g: Packages, dur: map<Id, int>, now: int, done: set<Id>, rest: set<Id>, s: Scan): Scan
    requires dur.Keys == g.Keys && rest <= g.Keys && s.active.Keys <= g.Keys
    decreases rest
  {
    if rest == {} || s.capacity == 0 then s
    else ScanPending(g, dur, now, done, rest - {Least(rest)}, ScanOne(g, dur, now, done, Least(rest), s))
  }

  lemma ScanOneCounts(g: Packages, dur: map<Id, int>, now: int, done: set<Id>, p: Id, s: Scan)
    requires dur.Keys == g.Keys && p in g && s.active.Keys <= g.Keys && s.capacity > 0 && p !in s.active
    ensures var r := ScanOne(g, dur, now, done, p, s);
            |r.active.Keys| - |s.active.Keys| == |r.launched| - |s.launched| == s.capacity - r.capacity
  {
    InsertedByUpdate(s.active, p, now + dur[p]);
    InsertedCount(s.active, p, now + dur[p], s.active[p := now + dur[p]]);
  }

  lemma {:induction false} ScanCounts(g: Packages, dur: map<Id, int>, now: int, done: set<Id>, rest: set<Id>, s: Scan)
    requires dur.Keys == g.Keys && rest <= g.Keys && s.active.Keys <= g.Keys && rest !! s.active.Keys
    ensures var r := ScanPending(g, dur, now, done, rest, s);
            |r.active.Keys| - |s.active.Keys| == |r.launched| - |s.launched| == s.capacity - r.capacity
    decreases rest
  {
    if rest != {} && s.capacity > 0 {
      var p := Least(rest);
      ScanOneCounts(g, dur, now, done, p, s);
      ScanCounts(g, dur, now, done, rest - {p}, ScanOne(g, dur, now, done, p, s));
    }
  }

  lemma ScanOneWork(g: Packages, dur: map<Id, int>, now: int, done: set<Id>, p: Id, s: Scan, count: nat)
    requires dur.Keys == g.Keys && p in g && s.active.Keys <= g.Keys && s.capacity > 0 && p !in s.active
    requires done <= g.Keys && p !in done
    ensures var r := ScanOne(g, dur, now, done, p, s);
            && r.active.Keys <= g.Keys && r.capacity <= s.capacity
            && Work(dur, done, r.active, count + s.capacity - r.capacity, now) == Work(dur, done, s.active, count, now)
  {
    InsertedByUpdate(s.active, p, now + dur[p]);
    WorkLaunch(dur, done, s.active, count, now, p, s.active[p := now + dur[p]]);
  }

  /** Launching changes no account: what a package is to do is owed from the start. */
  lemma {:induction false} ScanWork(g: Packages, dur: map<Id, int>, now: int, done: set<Id>, rest: set<Id>, s: Scan, count: nat)
    requires dur.Keys == g.Keys && rest <= g.Keys && s.active.Keys <= g.Keys && done <= g.Keys
    requires rest !! s.active.Keys && rest !! done
    ensures var r := ScanPending(g, dur, now, done, rest, s);
            && r.active.Keys <= g.Keys && r.capacity <= s.capacity
            && Work(dur, done, r.active, count + s.capacity - r.capacity, now) == Work(dur, done, s.active, count, now)
    decreases rest
  {
    if rest != {} && s.capacity > 0 {
      var p := Least(rest);
      var s' := ScanOne(g, dur, now, done, p, s);
      ScanOneWork(g, dur, now, done, p, s, count);
      ScanWork(g, dur, now, done, rest - {p}, s', count + s.capacity - s'.capacity);
    }
  }

  lemma ScanOnePasses(g: Packages, dur: map<Id, int>, now: int, done: set<Id>, before: map<Id, int>, seen: set<Id>, p: Id, s: Scan)
    requires dur.Keys == g.Keys && before.Keys <= g.Keys && p in g && s.capacity > 0 && p !in s.active
    requires Pass(g, dur, now, done, before, seen, s.active, s.launched)
    ensures var r := ScanOne(g, dur, now, done, p, s);
            && Pass(g, dur, now, done, before, seen + {p}, r.active, r.launched)
            && r.active.Keys <= s.active.Keys + {p}
  {
    if Launchable(g, done, s.active.Keys, p) {
      InsertedByUpdate(s.active, p, now + dur[p]);
      PassLaunches(g, dur, now, done, before, seen, s.active, s.launched, p, s.active[p := now + dur[p]]);
    } else {
      PassSkips(g, dur, now, done, before, seen, s.active, s.launched, p);
    }
  }

  /** The pass is greedy and clash-free. */
  lemma {:induction false} ScanPasses(g: Packages, dur: map<Id, int>, now: int, done: set<Id>, before: map<Id, int>, pending: set<Id>, rest: set<Id>, s: Scan)
    requires dur.Keys == g.Keys && before.Keys <= g.Keys && pending <= g.Keys && rest <= pending
    requires Pass(g, dur, now, done, before, pending - rest, s.active, s.launched) && rest !! s.active.Keys
    ensures var r := ScanPending(g, dur, now, done, rest, s);
            && LaunchedBatch(g, dur, now, done, before, r.active, r.launched) && Elements(r.launched) <= pending
            && forall p | p in pending && p !in r.active :: LeftBehind(g, done, r.active.Keys, r.capacity == 0, p)
    decreases rest
  {
    if rest == {} {
      assert pending - rest == pending;
    } else if s.capacity > 0 {
      var p := Least(rest);
      TakeOne(pending, rest, p);
      ScanOnePasses(g, dur, now, done, before, pending - rest, p, s);
      ScanPasses(g, dur, now, done, before, pending, rest - {p}, ScanOne(g, dur, now, done, p, s));
    }
  }

  /** The inner `for` loop over the pending packages in sorted order. */
  method LaunchReady(g: Packages, dur: map<Id, int>, free: nat, now: int, done: set<Id>, pending: set<Id>, before: map<Id, int>)
    returns (active: map<Id, int>, launched: seq<Id>, capacity: nat)
    requires dur.Keys == g.Keys && pending <= g.Keys && before.Keys <= g.Keys
    ensures Scan(active, launched, capacity) == ScanPending(g, dur, now, done, pending, Scan(before, [], free))
  {
    active, launched, capacity := before, [], free;
    var rest := pending;
    while rest != {} && capacity > 0
      invariant rest <= pending && active.Keys <= g.Keys
      invariant ScanPending(g, dur, now, done, rest, Scan(active, launched, capacity))
             == ScanPending(g, dur, now, done, pending, Scan(before, [], free))
      decreases rest
    {
      var p := Least(rest);
      if Launchable(g, done, active.Keys, p) {
        active, launched, capacity := active[p := now + dur[p]], launched + [p], capacity - 1;
      }
      rest := rest - {p};
    }
  }

  // --- What a pass keeps ---

  lemma LaunchPartition(g: Packages, dur: map<Id, int>, now: int, done: set<Id>, pending: set<Id>, before: map<Id, int>, after: map<Id, int>, batch: seq<Id>)
    requires dur.Keys == g.Keys && Partition(g, done, pending, before.Keys)
    requires LaunchedBatch(g, dur, now, done, before, after, batch) && Elements(batch) <= pending
    ensures Partition(g, done, pending - Elements(batch), after.Keys)
  {}

  ghost function LaunchFinish(dur: map<Id, int>, now: int, finish: map<Id, int>, after: map<Id, int>): map<Id, int>
    requires after.Keys <= dur.Keys
  {
    map p | p in finish.Keys + after.Keys :: if p in finish then finish[p] else now + dur[p]
  }

  lemma LaunchTimed(g: Packages, dur: map<Id, int>, now: int, done: set<Id>, pending: set<Id>, before: map<Id, int>, after: map<Id, int>, batch: seq<Id>, finish: map<Id, int>)
    requires dur.Keys == g.Keys && Partition(g, done, pending, before.Keys) && (forall p | p in dur :: dur[p] >= 0)
    requires LaunchedBatch(g, dur, now, done, before, after, batch) && Elements(batch) <= pending
    requires Timed(g, dur, done, before, finish, now) && now >= 0
    ensures Timed(g, dur, done, after, LaunchFinish(dur, now, finish, after), now)
  {
    hide ConflictFree, Joined;
    var finish' := LaunchFinish(dur, now, finish, after);
    assert finish'.Keys == done + after.Keys by { LaunchGrows(before.Keys, after.Keys, batch); }
    LaunchGrows(before.Keys, after.Keys, batch);
    forall p, d | p in finish' && d in g[p].deps ensures d in finish' && finish'[d] + dur[p] <= finish'[p] {
      assert d in done;
    }
  }

  lemma LaunchGrows(before: set<Id>, after: set<Id>, batch: seq<Id>)
    requires Joined(before, after, batch)
    ensures before <= after && after - before == Elements(batch)
  {
  }

  lemma LaunchIdle(g: Packages, dur: map<Id, int>, now: int, done: set<Id>, pending: set<Id>, before: map<Id, int>, after: map<Id, int>, batch: seq<Id>, idle: int)
    requires dur.Keys == g.Keys && Partition(g, done, pending, before.Keys)
    requires LaunchedBatch(g, dur, now, done, before, after, batch) && Elements(batch) <= pending
    requires IdleExplained(g, dur, done, pending, before, now, idle)
    ensures IdleExplained(g, dur, done, pending - Elements(batch), after, now, idle)
  {
    forall p | p in after ensures Covered(g, dur, p, idle - (now - (after[p] - dur[p]))) {
      if p !in before { assert p in pending; }
    }
  }

  /** If a worker is free after a pass, everything still pending waits for a dependency. */
  lemma FreeWorkerMeansNothingReady(g: Packages, done: set<Id>, pending: set<Id>, active: set<Id>, p: Id)
    requires Orderly(g) && Partition(g, done, pending, active)
    requires p in pending && LeftBehind(g, done, active, false, p)
    ensures !(g[p].deps <= done)
  {
    if g[p].deps <= done {
      var q :| q in active && Conflict(g[p], g[q]);
      ReadyNeverClashes(g, done, pending, active, p, q);
    }
  }

  /** A pass with nothing active before it launches something: the scheduler cannot stall. */
  lemma PassMakesProgress(g: Packages, rank: map<Id, nat>, done: set<Id>, pending: set<Id>, active: set<Id>)
    requires Ranked(DepsOf(g), rank) && Partition(g, done, pending, active)
    requires forall p | p in pending :: LeftBehind(g, done, active, false, p)
    requires pending != {}
    ensures active != {}
  {
    var m := LeastRank(pending, rank);
    assert LeftBehind(g, done, active, false, m);
    assert g[m].deps <= done + active by {
      forall d | d in g[m].deps ensures d in done + active { assert d in DepsOf(g)[m] && d in g; }
    }
  }

  // --- Advancing to the next completion ---

  function FinishKey(active: map<Id, int>): Id -> int {
    p => if p in active then active[p] else 0
  }

  /** `min(active.values())` */
  function NextCompletion(active: map<Id, int>): (t: int)
    requires active.Keys != {}
    ensures (forall p | p in active :: t <= active[p]) && exists p | p in active :: active[p] == t
  {
    var m := First(FinishKey(active), active.Keys);
    assert forall p | p in active :: Before(FinishKey(active), m, p) ==> active[m] <= active[p];
    active[m]
  }

  function Completed(active: map<Id, int>, t: int): set<Id> {
    set p | p in active && active[p] == t
  }

  lemma AdvanceIdle(g: Packages, dur: map<Id, int>, done: set<Id>, pending: set<Id>, active: map<Id, int>, now: int, idle: int, next: int, full: bool)
    requires dur.Keys == g.Keys && Orderly(g) && Partition(g, done, pending, active.Keys)
    requires IdleExplained(g, dur, done, pending, active, now, idle) && now <= next
    requires forall p | p in pending :: LeftBehind(g, done, active.Keys, full, p)
    ensures IdleExplained(g, dur, done, pending, active, next, if full then idle else idle + next - now)
  {
    var idle' := if full then idle else idle + next - now;
    forall p | p in active ensures Covered(g, dur, p, idle' - (next - (active[p] - dur[p]))) {
      CoveredLess(g, dur, p, idle - (now - (active[p] - dur[p])), idle' - (next - (active[p] - dur[p])));
    }
    forall p | p in pending && g[p].deps <= done ensures Covered(g, dur, p, idle') {
      if !full { FreeWorkerMeansNothingReady(g, done, pending, active.Keys, p); }
    }
  }

  lemma CompleteIdle(g: Packages, dur: map<Id, int>, done: set<Id>, pending: set<Id>, active: map<Id, int>, now: int, idle: int)
    requires dur.Keys == g.Keys && Partition(g, done, pending, active.Keys)
    requires IdleExplained(g, dur, done, pending, active, now, idle)
    ensures IdleExplained(g, dur, done + Completed(active, now), pending, active - Completed(active, now), now, idle)
  {
    var k := Completed(active, now);
    forall p | p in pending && g[p].deps <= done + k ensures Covered(g, dur, p, idle) {
      if !(g[p].deps <= done) {
        var d :| d in g[p].deps && d !in done;
        assert d in active && active[d] == now;
        CoveredByDependency(g, dur, p, d, idle);
      }
    }
  }

  lemma CompletePartition(g: Packages, done: set<Id>, pending: set<Id>, active: map<Id, int>, k: set<Id>)
    requires Partition(g, done, pending, active.Keys) && k <= active.Keys
    ensures Partition(g, done + k, pending, (active - k).Keys)
  {}

  lemma CompleteTimed(g: Packages, dur: map<Id, int>, done: set<Id>, active: map<Id, int>, finish: map<Id, int>, past: int, now: int)
    requires dur.Keys == g.Keys && done + active.Keys <= g.Keys && Timed(g, dur, done, active, finish, past)
    requires past <= now && forall p | p in active :: now <= active[p]
    ensures Timed(g, dur, done + Completed(active, now), active - Completed(active, now), finish, now)
  {
    assert finish.Keys == done + Completed(active, now) + (active - Completed(active, now)).Keys;
  }

  /** Popping the completed packages moves what they were due into the balance. */
  lemma {:induction false} CompleteBalance(dur: map<Id, int>, done: set<Id>, active: map<Id, int>, k: set<Id>)
    requires done + active.Keys <= dur.Keys && done !! active.Keys && k <= active.Keys
    ensures done + k + (active - k).Keys <= dur.Keys
    ensures Balance(dur, done + k, active - k) == Balance(dur, done, active) + Sum(k, active)
    decreases k
  {
    if k == {} {
      assert active - k == active && done + k == done;
    } else {
      var p :| p in k;
      BalanceComplete(dur, done, active, p);
      CompleteBalance(dur, done + {p}, active - {p}, k - {p});
      PopRest(done, active, k, p);
      SumRemove(k, active, p);
      SumAgree(k - {p}, active, active - {p});
    }
  }

  lemma PopRest(done: set<Id>, active: map<Id, int>, k: set<Id>, p: Id)
    requires p in k
    ensures done + {p} + (k - {p}) == done + k
    ensures active - {p} - (k - {p}) == active - k
  {}

  lemma {:induction false} SumConstant(k: set<Id>, f: map<Id, int>, x: int)
    requires k <= f.Keys && forall p | p in k :: f[p] == x
    ensures Sum(k, f) == Times(|k|, x)
    decreases k
  {
    if k != {} {
      var p :| p in k;
      SumRemove(k, f, p);
      SumConstant(k - {p}, f, x);
    }
  }

  lemma CompleteWork(dur: map<Id, int>, done: set<Id>, active: map<Id, int>, now: int, k: set<Id>, n: nat, rest: nat)
    requires done + active.Keys <= dur.Keys && done !! active.Keys && k <= active.Keys
    requires Sum(k, active) == Times(n, now)
    ensures done + k + (active - k).Keys <= dur.Keys
    ensures Work(dur, done + k, active - k, rest, now) == Work(dur, done, active, rest + n, now)
  {
    CompleteBalance(dur, done, active, k);
    TimesSplit(rest, n, now);
  }

  lemma PopCount(active: map<Id, int>, k: set<Id>)
    requires k <= active.Keys
    ensures |(active - k).Keys| == |active.Keys| - |k|
  {
    assert (active - k).Keys == active.Keys - k;
  }

  // --- The whole simulation ---

  /** `count` is the number of active packages. */
  datatype Sim = Sim(now: int, done: set<Id>, pending: set<Id>, active: map<Id, int>, count: nat, batches: seq<seq<Id>>, peak: nat)

  ghost predicate Instance(g: Packages, dur: map<Id, int>, w: int) {
    && dur.Keys == g.Keys && w >= 1
    && Acyclic(DepsOf(g))
    && forall p | p in dur :: dur[p] >= 0
  }

  ghost predicate Shape(g: Packages, w: int, s: Sim) {
    && s.now >= 0
    && Partition(g, s.done, s.pending, s.active.Keys)
    && ConflictFree(g, s.active.Keys)
    && s.count <= w
  }

  ghost predicate Counted(s: Sim) {
    s.count == |s.active.Keys|
  }

  function Dispatch(g: Packages, dur: map<Id, int>, w: int, s: Sim): Scan
    requires dur.Keys == g.Keys && s.pending <= g.Keys && s.active.Keys <= g.Keys && s.count <= w
  {
    ScanPending(g, dur, s.now, s.done, s.pending, Scan(s.active, [], w - s.count))
  }

  /** The state after a pass, before time moves. */
  function Dispatched(w: int, s: Sim, r: Scan): Sim
    requires r.capacity <= w
  {
    s.(active := r.active, pending := s.pending - Elements(r.launched), count := w - r.capacity,
       batches := if r.launched == [] then s.batches else s.batches + [r.launched],
       peak := if r.launched == [] || w - r.capacity <= s.peak then s.peak else w - r.capacity)
  }

  /** Time moves to the next completion. */
  function Advanced(s: Sim, left: nat): Sim
    requires s.active.Keys != {}
  {
    var t := NextCompletion(s.active);
    var k := Completed(s.active, t);
    s.(now := t, done := s.done + k, active := s.active - k, count := left)
  }

  function Left(active: map<Id, int>): nat
    requires active.Keys != {}
  {
    |(active - Completed(active, NextCompletion(active))).Keys|
  }

  /** Of the active packages, `s.count - left` complete next and `left` stay. */
  ghost predicate Leaves(s: Sim, left: nat)
    requires s.active.Keys != {}
  {
    var t := NextCompletion(s.active);
    left < s.count && Sum(Completed(s.active, t), s.active) == Times(s.count - left, t)
  }

  lemma SomeCompletes(active: map<Id, int>)
    requires active.Keys != {}
    ensures |Completed(active, NextCompletion(active))| >= 1
  {
    var t := NextCompletion(active);
    var p :| p in active && active[p] == t;
    assert p in Completed(active, t);
  }

  lemma CountLeft(s: Sim, left: nat)
    requires Counted(s) && s.active.Keys != {}
    requires left == Left(s.active)
    ensures Leaves(s, left)
  {
    hide Sum, Times;
    var t := NextCompletion(s.active);
    var k := Completed(s.active, t);
    PopCount(s.active, k);
    SumConstant(k, s.active, t);
    SomeCompletes(s.active);
  }

  lemma {:induction false} ScanCapacity(g: Packages, dur: map<Id, int>, now: int, done: set<Id>, rest: set<Id>, s: Scan)
    requires dur.Keys == g.Keys && rest <= g.Keys && s.active.Keys <= g.Keys
    ensures ScanPending(g, dur, now, done, rest, s).capacity + |ScanPending(g, dur, now, done, rest, s).launched| == s.capacity + |s.launched|
    ensures ScanPending(g, dur, now, done, rest, s).capacity <= s.capacity
    decreases rest
  {
    if rest != {} && s.capacity > 0 {
      ScanCapacity(g, dur, now, done, rest - {Least(rest)}, ScanOne(g, dur, now, done, Least(rest), s));
    }
  }

  lemma DispatchGreedy(g: Packages, dur: map<Id, int>, w: int, s: Sim)
    requires Instance(g, dur, w) && Shape(g, w, s)
    ensures var r := Dispatch(g, dur, w, s);
            && r.capacity <= w && s.count + |r.launched| == w - r.capacity
            && LaunchedBatch(g, dur, s.now, s.done, s.active, r.active, r.launched) && Elements(r.launched) <= s.pending
            && (forall p | p in s.pending && p !in r.active :: LeftBehind(g, s.done, r.active.Keys, r.capacity == 0, p))
  {
    hide ConflictFree, Acyclic, ScanPending, LeftBehind;
    var start := Scan(s.active, [], w - s.count);
    ScanCapacity(g, dur, s.now, s.done, s.pending, start);
    ScanPasses(g, dur, s.now, s.done, s.active, s.pending, s.pending, start);
  }

  lemma DispatchShape(g: Packages, dur: map<Id, int>, w: int, s: Sim)
    requires Instance(g, dur, w) && Shape(g, w, s)
    ensures var r := Dispatch(g, dur, w, s);
            && r.capacity <= w
            && Shape(g, w, Dispatched(w, s, r))
            && (forall p | p in s.pending - Elements(r.launched) :: LeftBehind(g, s.done, r.active.Keys, r.capacity == 0, p))
  {
    DispatchGreedy(g, dur, w, s);
    var r := Dispatch(g, dur, w, s);
    LaunchPartition(g, dur, s.now, s.done, s.pending, s.active, r.active, r.launched);
  }

  lemma DispatchCounted(g: Packages, dur: map<Id, int>, w: int, s: Sim)
    requires dur.Keys == g.Keys && s.pending <= g.Keys && s.active.Keys <= g.Keys && s.pending !! s.active.Keys
    requires s.count <= w && Counted(s)
    ensures Dispatch(g, dur, w, s).capacity <= w
    ensures Counted(Dispatched(w, s, Dispatch(g, dur, w, s)))
  {
    hide ScanPending;
    ScanCapacity(g, dur, s.now, s.done, s.pending, Scan(s.active, [], w - s.count));
    ScanCounts(g, dur, s.now, s.done, s.pending, Scan(s.active, [], w - s.count));
  }

  lemma DispatchNeverStalls(g: Packages, dur: map<Id, int>, w: int, s: Sim)
    requires Instance(g, dur, w) && Shape(g, w, s) && Counted(s) && s.pending + s.active.Keys != {}
    ensures Dispatch(g, dur, w, s).active.Keys != {}
  {
    DispatchCounted(g, dur, w, s);
    DispatchShape(g, dur, w, s);
    var r := Dispatch(g, dur, w, s);
    if r.active.Keys == {} {
      var rank :| Ranked(DepsOf(g), rank);
      DispatchGreedy(g, dur, w, s);
      PassMakesProgress(g, rank, s.done, s.pending - Elements(r.launched), r.active.Keys);
    }
  }

  lemma AdvanceShape(g: Packages, w: int, s: Sim, left: nat)
    requires Shape(g, w, s) && s.active.Keys != {} && s.now <= NextCompletion(s.active) && Leaves(s, left)
    ensures Shape(g, w, Advanced(s, left))
  {
    CompletePartition(g, s.done, s.pending, s.active, Completed(s.active, NextCompletion(s.active)));
  }

  // Accounts

  ghost predicate Accounted(g: Packages, dur: map<Id, int>, w: int, s: Sim, idle: int) {
    && dur.Keys == g.Keys && s.done + s.active.Keys <= g.Keys
    && Accounts(w, s.now, Work(dur, s.done, s.active, s.count, s.now), idle)
  }

  lemma DispatchAccounted(g: Packages, dur: map<Id, int>, w: int, s: Sim, idle: int)
    requires Instance(g, dur, w) && Shape(g, w, s) && Accounted(g, dur, w, s, idle)
    ensures Dispatch(g, dur, w, s).capacity <= w
    ensures Accounted(g, dur, w, Dispatched(w, s, Dispatch(g, dur, w, s)), idle)
  {
    hide ConflictFree, Acyclic, ScanPending, Balance, Times;
    ScanWork(g, dur, s.now, s.done, s.pending, Scan(s.active, [], w - s.count), s.count);
  }

  ghost function IdleAfter(w: int, s: Sim, idle: int): int
    requires s.active.Keys != {}
  {
    if s.count == w then idle else idle + NextCompletion(s.active) - s.now
  }

  lemma AdvanceAccounted(g: Packages, dur: map<Id, int>, w: int, s: Sim, idle: int, left: nat)
    requires Shape(g, w, s) && Accounted(g, dur, w, s, idle)
    requires s.active.Keys != {} && s.now <= NextCompletion(s.active) && Leaves(s, left)
    ensures Accounted(g, dur, w, Advanced(s, left), IdleAfter(w, s, idle))
  {
    hide ConflictFree, Times, Sum, Work;
    var t := NextCompletion(s.active);
    CompleteWork(dur, s.done, s.active, t, Completed(s.active, t), s.count - left, left);
    WorkOverTime(dur, s.done, s.active, s.count, s.now, t);
    AdvanceAccounts(w, s.count, s.now, t, Work(dur, s.done, s.active, s.count, s.now), idle);
  }

  lemma WorkOverTime(dur: map<Id, int>, done: set<Id>, active: map<Id, int>, n: nat, now: int, t: int)
    requires done + active.Keys <= dur.Keys
    ensures Work(dur, done, active, n, t) == Work(dur, done, active, n, now) + n * t - n * now
  {
    TimesIsProduct(n, t);
    TimesIsProduct(n, now);
  }

  // Finish times

  ghost predicate OnTime(g: Packages, dur: map<Id, int>, s: Sim, finish: map<Id, int>) {
    && dur.Keys == g.Keys && s.done + s.active.Keys <= g.Keys
    && Timed(g, dur, s.done, s.active, finish, s.now)
  }

  lemma DispatchOnTime(g: Packages, dur: map<Id, int>, w: int, s: Sim, finish: map<Id, int>)
    requires Instance(g, dur, w) && Shape(g, w, s) && OnTime(g, dur, s, finish)
    ensures var r := Dispatch(g, dur, w, s);
            && r.active.Keys <= g.Keys && r.capacity <= w
            && OnTime(g, dur, Dispatched(w, s, r), LaunchFinish(dur, s.now, finish, r.active))
  {
    DispatchGreedy(g, dur, w, s);
    var r := Dispatch(g, dur, w, s);
    LaunchTimed(g, dur, s.now, s.done, s.pending, s.active, r.active, r.launched, finish);
  }

  lemma AdvanceOnTime(g: Packages, dur: map<Id, int>, s: Sim, finish: map<Id, int>, left: nat)
    requires OnTime(g, dur, s, finish) && s.active.Keys != {}
    ensures s.now <= NextCompletion(s.active)
    ensures OnTime(g, dur, Advanced(s, left), finish)
  {
    CompleteTimed(g, dur, s.done, s.active, finish, s.now, NextCompletion(s.active));
  }

  /** No schedule beats a dependency chain. */
  lemma {:induction false} ChainFitsBeforeFinish(g: Packages, dur: map<Id, int>, finish: map<Id, int>, c: seq<Id>)
    requires dur.Keys == g.Keys == finish.Keys && IsChain(DepsOf(g), c) && c != []
    requires forall p | p in finish :: finish[p] >= dur[p]
    requires forall p, d | p in finish && d in g[p].deps :: d in finish && finish[d] + dur[p] <= finish[p]
    ensures Total(dur, c) <= finish[c[|c| - 1]]
  {
    var before := c[..|c| - 1];
    if before != [] {
      assert before[|before| - 1] in DepsOf(g)[c[|c| - 1]];
      ChainFitsBeforeFinish(g, dur, finish, before);
    }
  }

  // Clashes

  /** Two packages that clash run one after the other. */
  ghost predicate NoOverlap(g: Packages, dur: map<Id, int>, finish: map<Id, int>) {
    && dur.Keys == g.Keys && finish.Keys <= g.Keys
    && forall p, q | p in finish && q in finish && p != q && Conflict(g[p], g[q]) ::
         finish[p] + dur[q] <= finish[q] || finish[q] + dur[p] <= finish[p]
  }

  lemma LaunchNoOverlap(g: Packages, dur: map<Id, int>, now: int, done: set<Id>, before: map<Id, int>, after: map<Id, int>, batch: seq<Id>, finish: map<Id, int>)
    requires dur.Keys == g.Keys && done + before.Keys <= g.Keys
    requires LaunchedBatch(g, dur, now, done, before, after, batch)
    requires Timed(g, dur, done, before, finish, now) && NoOverlap(g, dur, finish)
    ensures NoOverlap(g, dur, LaunchFinish(dur, now, finish, after))
  {
    hide Conflict;
    var finish' := LaunchFinish(dur, now, finish, after);
    LaunchGrows(before.Keys, after.Keys, batch);
    forall p, q | p in finish' && q in finish' && p != q && Conflict(g[p], g[q])
      ensures finish'[p] + dur[q] <= finish'[q] || finish'[q] + dur[p] <= finish'[p]
    {
      assert p !in finish && q !in done ==> p in after && q in after;
      assert q !in finish && p !in done ==> p in after && q in after;
    }
  }

  ghost predicate Clash(g: Packages, k: set<Id>) {
    k <= g.Keys && forall p, q | p in k && q in k && p != q :: Conflict(g[p], g[q])
  }

  function LatestKey(finish: map<Id, int>): Id -> int {
    p => if p in finish then -finish[p] else 0
  }

  lemma ClashShrinks(g: Packages, k: set<Id>)
    requires Clash(g, k)
    ensures k <= g.Keys && forall p | p in k :: Clash(g, k - {p})
  {
    hide Conflict;
  }

  lemma LastToFinish(g: Packages, dur: map<Id, int>, finish: map<Id, int>, k: set<Id>) returns (m: Id)
    requires NoOverlap(g, dur, finish) && Clash(g, k) && k <= finish.Keys && k != {}
    requires forall p | p in k :: dur[p] > 0
    ensures m in k && forall p | p in k - {m} :: finish[p] <= finish[m] - dur[m]
  {
    hide Conflict;
    m := First(LatestKey(finish), k);
    forall p | p in k - {m} ensures finish[p] <= finish[m] - dur[m] {
      assert Before(LatestKey(finish), m, p);
      assert Conflict(g[p], g[m]);
    }
  }

  /** Packages that all clash with each other need the sum of their durations. */
  lemma {:induction false} ClashFits(g: Packages, dur: map<Id, int>, finish: map<Id, int>, k: set<Id>, t: int)
    requires NoOverlap(g, dur, finish) && Clash(g, k) && k <= finish.Keys && t >= 0
    requires forall p | p in k :: 0 <= dur[p] <= finish[p] <= t
    ensures Sum(k, dur) <= t
    decreases k
  {
    ClashShrinks(g, k);
    if q :| q in k && dur[q] == 0 {
      hide NoOverlap, Clash;
      SumRemove(k, dur, q);
      ClashFits(g, dur, finish, k - {q}, t);
    } else if k != {} {
      var m := LastToFinish(g, dur, finish, k);
      hide NoOverlap, Clash;
      SumRemove(k, dur, m);
      ClashFits(g, dur, finish, k - {m}, finish[m] - dur[m]);
    }
  }

  // Idle time

  ghost predicate SomeChainLasts(g: Packages, dur: map<Id, int>, amount: int)
    requires dur.Keys == g.Keys
  {
    exists c :: IsChain(DepsOf(g), c) && Total(dur, c) >= amount
  }

  ghost predicate Explained(g: Packages, dur: map<Id, int>, s: Sim, idle: int) {
    && dur.Keys == g.Keys && s.pending + s.active.Keys <= g.Keys
    && IdleExplained(g, dur, s.done, s.pending, s.active, s.now, idle)
    && SomeChainLasts(g, dur, idle)
  }

  lemma DispatchExplained(g: Packages, dur: map<Id, int>, w: int, s: Sim, idle: int)
    requires Instance(g, dur, w) && Shape(g, w, s) && Explained(g, dur, s, idle)
    ensures Dispatch(g, dur, w, s).capacity <= w
    ensures Explained(g, dur, Dispatched(w, s, Dispatch(g, dur, w, s)), idle)
  {
    DispatchGreedy(g, dur, w, s);
    var r := Dispatch(g, dur, w, s);
    LaunchIdle(g, dur, s.now, s.done, s.pending, s.active, r.active, r.launched, idle);
  }

  lemma AdvanceExplained(g: Packages, dur: map<Id, int>, w: int, s: Sim, idle: int, left: nat)
    requires Shape(g, w, s) && Orderly(g) && Explained(g, dur, s, idle)
    requires s.active.Keys != {} && s.now <= NextCompletion(s.active)
    requires forall p | p in s.pending :: LeftBehind(g, s.done, s.active.Keys, s.count == w, p)
    ensures Explained(g, dur, Advanced(s, left), IdleAfter(w, s, idle))
  {
    var t, idle' := NextCompletion(s.active), IdleAfter(w, s, idle);
    AdvanceIdle(g, dur, s.done, s.pending, s.active, s.now, idle, t, s.count == w);
    CompleteIdle(g, dur, s.done, s.pending, s.active, t, idle');
    CompletionChain(g, dur, s.done, s.pending, s.active, t, idle');
  }

  lemma CompletionChain(g: Packages, dur: map<Id, int>, done: set<Id>, pending: set<Id>, active: map<Id, int>, t: int, idle: int)
    requires dur.Keys == g.Keys && pending + active.Keys <= g.Keys && IdleExplained(g, dur, done, pending, active, t, idle)
    requires exists p | p in active :: active[p] == t
    ensures SomeChainLasts(g, dur, idle)
  {
    var p :| p in active && active[p] == t;
    assert Covered(g, dur, p, idle - dur[p]);
    var c :| Feeds(g, c, p) && Total(dur, c) >= idle - dur[p];
    FeedsSnoc(g, dur, c, p);
  }

  // Batches

  function Flatten(batches: seq<seq<Id>>): seq<Id> {
    if batches == [] then [] else Flatten(batches[..|batches| - 1]) + batches[|batches| - 1]
  }

  /** The batches list every started package once, each after all its dependencies. */
  ghost predicate Batched(g: Packages, started: set<Id>, batches: seq<seq<Id>>) {
    && Distinct(Flatten(batches)) && Elements(Flatten(batches)) == started
    && forall i | 0 <= i < |batches| :: batches[i] != [] && FitsAfter(g, batches[..i], batches[i])
  }

  ghost predicate FitsAfter(g: Packages, batches: seq<seq<Id>>, batch: seq<Id>) {
    forall p | p in batch :: p in g && g[p].deps <= Elements(Flatten(batches))
  }

  lemma BatchedSnoc(g: Packages, started: set<Id>, batches: seq<seq<Id>>, batch: seq<Id>)
    requires Batched(g, started, batches) && batch != [] && FitsAfter(g, batches, batch)
    requires Distinct(batch) && Elements(batch) !! started
    ensures Batched(g, started + Elements(batch), batches + [batch])
  {
    var all := batches + [batch];
    assert all[..|batches|] == batches;
    FlattenSnoc(batches, batch, started);
    forall i | 0 <= i < |all| ensures all[i] != [] && FitsAfter(g, all[..i], all[i]) {
      assert all[..i] == batches[..i];
    }
  }

  lemma FlattenSnoc(batches: seq<seq<Id>>, batch: seq<Id>, started: set<Id>)
    requires Distinct(Flatten(batches)) && Elements(Flatten(batches)) == started
    requires Distinct(batch) && Elements(batch) !! started
    ensures Flatten(batches + [batch]) == Flatten(batches) + batch
    ensures Distinct(Flatten(batches + [batch])) && Elements(Flatten(batches + [batch])) == started + Elements(batch)
  {
    var a := Flatten(batches);
    assert (batches + [batch])[..|batches|] == batches;
    assert forall i | 0 <= i < |a| :: a[i] in Elements(a);
    assert forall i | 0 <= i < |batch| :: batch[i] in Elements(batch);
  }

  ghost predicate Peaked(w: int, s: Sim) {
    s.peak <= w && forall i | 0 <= i < |s.batches| :: |s.batches[i]| <= s.peak
  }

  lemma LaunchFits(g: Packages, dur: map<Id, int>, now: int, done: set<Id>, before: map<Id, int>, after: map<Id, int>, batch: seq<Id>, batches: seq<seq<Id>>)
    requires dur.Keys == g.Keys && before.Keys <= g.Keys && LaunchedBatch(g, dur, now, done, before, after, batch)
    requires Batched(g, done + before.Keys, batches)
    ensures FitsAfter(g, batches, batch)
  {
    forall p | p in batch ensures p in g && g[p].deps <= Elements(Flatten(batches)) {
      assert p in Elements(batch);
    }
  }

  lemma DispatchBatched(g: Packages, dur: map<Id, int>, w: int, s: Sim)
    requires Instance(g, dur, w) && Shape(g, w, s) && Peaked(w, s)
    requires Batched(g, s.done + s.active.Keys, s.batches)
    ensures Dispatch(g, dur, w, s).capacity <= w
    ensures var d := Dispatched(w, s, Dispatch(g, dur, w, s));
            Peaked(w, d) && Batched(g, d.done + d.active.Keys, d.batches)
  {
    hide ConflictFree, Acyclic, ScanPending, LeftBehind, Batched;
    DispatchGreedy(g, dur, w, s);
    var r := Dispatch(g, dur, w, s);
    var started := s.done + s.active.Keys;
    if r.launched == [] {
      assert r.active.Keys == s.active.Keys;
    } else {
      LaunchFits(g, dur, s.now, s.done, s.active, r.active, r.launched, s.batches);
      BatchedSnoc(g, started, s.batches, r.launched);
      assert s.done + r.active.Keys == started + Elements(r.launched);
    }
  }

  lemma AdvanceBatched(g: Packages, s: Sim, left: nat)
    requires s.active.Keys != {} && Batched(g, s.done + s.active.Keys, s.batches)
    ensures var a := Advanced(s, left); Batched(g, a.done + a.active.Keys, a.batches)
  {
    var a := Advanced(s, left);
    assert a.done + a.active.Keys == s.done + s.active.Keys;
  }

  // The loop

  ghost predicate Invariant(g: Packages, dur: map<Id, int>, w: int, s: Sim, finish: map<Id, int>, idle: int) {
    && Shape(g, w, s) && Counted(s)
    && Accounted(g, dur, w, s, idle)
    && OnTime(g, dur, s, finish) && NoOverlap(g, dur, finish)
    && (Orderly(g) ==> Explained(g, dur, s, idle))
    && Peaked(w, s) && Batched(g, s.done + s.active.Keys, s.batches)
  }

  lemma DispatchNoOverlap(g: Packages, dur: map<Id, int>, w: int, s: Sim, finish: map<Id, int>)
    requires Instance(g, dur, w) && Shape(g, w, s) && OnTime(g, dur, s, finish) && NoOverlap(g, dur, finish)
    ensures Dispatch(g, dur, w, s).active.Keys <= dur.Keys
    ensures NoOverlap(g, dur, LaunchFinish(dur, s.now, finish, Dispatch(g, dur, w, s).active))
  {
    hide NoOverlap, Acyclic;
    DispatchGreedy(g, dur, w, s);
    var r := Dispatch(g, dur, w, s);
    LaunchNoOverlap(g, dur, s.now, s.done, s.active, r.active, r.launched, finish);
  }

  lemma DispatchInvariant(g: Packages, dur: map<Id, int>, w: int, s: Sim, finish: map<Id, int>, idle: int)
    requires Instance(g, dur, w) && Invariant(g, dur, w, s, finish, idle)
    ensures var r := Dispatch(g, dur, w, s);
            && r.active.Keys <= g.Keys && r.capacity <= w
            && Invariant(g, dur, w, Dispatched(w, s, r), LaunchFinish(dur, s.now, finish, r.active), idle)
  {
    DispatchShape(g, dur, w, s);
    DispatchCounted(g, dur, w, s);
    DispatchAccounted(g, dur, w, s, idle);
    DispatchOnTime(g, dur, w, s, finish);
    DispatchNoOverlap(g, dur, w, s, finish);
    hide NoOverlap;
    if Orderly(g) { DispatchExplained(g, dur, w, s, idle); }
    DispatchBatched(g, dur, w, s);
  }

  lemma AdvanceInvariant(g: Packages, dur: map<Id, int>, w: int, s: Sim, finish: map<Id, int>, idle: int, left: nat)
    requires Invariant(g, dur, w, s, finish, idle) && s.active.Keys != {}
    requires left == Left(s.active)
    requires forall p | p in s.pending :: LeftBehind(g, s.done, s.active.Keys, s.count == w, p)
    ensures Invariant(g, dur, w, Advanced(s, left), finish, IdleAfter(w, s, idle)) && left < s.count
  {
    hide NoOverlap, Accounted, Explained, Batched, Orderly, Partition, ConflictFree, LeftBehind, OnTime;
    CountLeft(s, left);
    AdvanceOnTime(g, dur, s, finish, left);
    AdvanceShape(g, w, s, left);
    AdvanceAccounted(g, dur, w, s, idle, left);
    if Orderly(g) { AdvanceExplained(g, dur, w, s, idle, left); }
    AdvanceBatched(g, s, left);
  }

  /** No schedule beats packages that all clash with each other. */
  ghost predicate ClashesFit(g: Packages, dur: map<Id, int>, elapsed: int)
    requires dur.Keys == g.Keys
  {
    forall k | Clash(g, k) :: Sum(k, dur) <= elapsed
  }

  /** What is known of a finished schedule. */
  ghost predicate Finishes(g: Packages, dur: map<Id, int>, w: int, elapsed: int, peak: nat, batches: seq<seq<Id>>)
    requires dur.Keys == g.Keys
  {
    && elapsed <= Sum(dur.Keys, dur) <= w * elapsed
    && (forall c | IsChain(DepsOf(g), c) :: Total(dur, c) <= elapsed)
    && ClashesFit(g, dur, elapsed)
    && (Orderly(g) ==> GrahamBound(g, dur, w, elapsed))
    && Batched(g, g.Keys, batches)
    && peak <= w && forall i | 0 <= i < |batches| :: |batches[i]| <= peak
  }

  /** Graham's list-scheduling bound, by the length of some dependency chain. */
  ghost predicate GrahamBound(g: Packages, dur: map<Id, int>, w: int, elapsed: int)
    requires dur.Keys == g.Keys
  {
    exists c :: IsChain(DepsOf(g), c) && w * elapsed <= Sum(dur.Keys, dur) + (w - 1) * Total(dur, c)
  }

  lemma FinalAccounts(g: Packages, dur: map<Id, int>, w: int, s: Sim, idle: int)
    requires Shape(g, w, s) && Counted(s) && Accounted(g, dur, w, s, idle)
    requires s.pending == {} && s.active.Keys == {}
    ensures Accounts(w, s.now, Sum(dur.Keys, dur), idle)
  {
    assert s.done + s.active.Keys == dur.Keys;
    assert s.count == 0;
  }

  lemma FinalGraham(g: Packages, dur: map<Id, int>, w: int, now: int, idle: int)
    requires Instance(g, dur, w) && SomeChainLasts(g, dur, idle)
    requires Accounts(w, now, Sum(dur.Keys, dur), idle)
    ensures GrahamBound(g, dur, w, now)
  {
    var c :| IsChain(DepsOf(g), c) && Total(dur, c) >= idle;
    hide Total, IsChain, Acyclic, Sum;
    MulMonotone(idle, Total(dur, c), w - 1);
    assert w * now <= Sum(dur.Keys, dur) + (w - 1) * Total(dur, c);
  }

  lemma FinalChains(g: Packages, dur: map<Id, int>, w: int, s: Sim, finish: map<Id, int>)
    requires Shape(g, w, s) && OnTime(g, dur, s, finish) && s.pending == {} && s.active.Keys == {}
    ensures forall c | IsChain(DepsOf(g), c) :: Total(dur, c) <= s.now
  {
    assert finish.Keys == g.Keys;
    forall c | IsChain(DepsOf(g), c) ensures Total(dur, c) <= s.now {
      if c != [] {
        ChainFitsBeforeFinish(g, dur, finish, c);
        assert c[|c| - 1] in s.done;
      }
    }
  }

  lemma FinalClashes(g: Packages, dur: map<Id, int>, w: int, s: Sim, finish: map<Id, int>)
    requires Instance(g, dur, w) && Shape(g, w, s) && OnTime(g, dur, s, finish) && NoOverlap(g, dur, finish)
    requires s.pending == {} && s.active.Keys == {}
    ensures ClashesFit(g, dur, s.now)
  {
    hide NoOverlap, Acyclic, Conflict;
    assert finish.Keys == g.Keys;
    forall k | Clash(g, k) ensures Sum(k, dur) <= s.now {
      ClashFits(g, dur, finish, k, s.now);
    }
  }

  /** States of the simulation, with some record of finish and idle times that explains them. */
  ghost predicate Reached(g: Packages, dur: map<Id, int>, w: int, s: Sim) {
    exists finish, idle :: Invariant(g, dur, w, s, finish, idle)
  }

  function Start(g: Packages): Sim {
    Sim(0, {}, g.Keys, map[], 0, [], 0)
  }

  lemma StartExplained(g: Packages, dur: map<Id, int>, w: int)
    requires Instance(g, dur, w)
    ensures Explained(g, dur, Start(g), 0)
  {
    hide Acyclic;
    forall p | p in g ensures Covered(g, dur, p, 0) {
      assert Feeds(g, [], p) && Total(dur, []) >= 0;
    }
    assert IsChain(DepsOf(g), []) && Total(dur, []) >= 0;
  }

  lemma StartAccounted(g: Packages, dur: map<Id, int>, w: int)
    requires Instance(g, dur, w)
    ensures Shape(g, w, Start(g)) && Counted(Start(g)) && Accounted(g, dur, w, Start(g), 0)
    ensures OnTime(g, dur, Start(g), map[])
  {
    hide Acyclic;
  }

  lemma StartBatched(g: Packages)
    ensures Batched(g, {}, [])
  {}

  lemma StartInvariant(g: Packages, dur: map<Id, int>, w: int)
    requires Instance(g, dur, w)
    ensures Invariant(g, dur, w, Start(g), map[], 0)
  {
    assert NoOverlap(g, dur, map[]);
    hide Shape, Counted, Accounted, OnTime, Explained, Batched, Acyclic, Orderly, NoOverlap;
    StartExplained(g, dur, w);
    StartAccounted(g, dur, w);
    StartBatched(g);
    assert Start(g).done + Start(g).active.Keys == {};
  }

  lemma StartReached(g: Packages, dur: map<Id, int>, w: int)
    requires Instance(g, dur, w)
    ensures Reached(g, dur, w, Start(g))
  {
    hide Invariant, Start;
    StartInvariant(g, dur, w);
  }

  lemma FinishInvariant(g: Packages, dur: map<Id, int>, w: int, s: Sim, finish: map<Id, int>, idle: int)
    requires Instance(g, dur, w) && Invariant(g, dur, w, s, finish, idle)
    requires s.pending == {} && s.active.Keys == {}
    ensures Finishes(g, dur, w, s.now, s.peak, s.batches)
  {
    hide NoOverlap, ClashesFit, OnTime, Acyclic, Accounted, Explained, Batched;
    FinalAccounts(g, dur, w, s, idle);
    FinalChains(g, dur, w, s, finish);
    FinalClashes(g, dur, w, s, finish);
    if Orderly(g) { ExplainedLasts(g, dur, s, idle); FinalGraham(g, dur, w, s.now, idle); }
    assert s.done + s.active.Keys == g.Keys;
  }

  lemma ExplainedLasts(g: Packages, dur: map<Id, int>, s: Sim, idle: int)
    requires Explained(g, dur, s, idle)
    ensures dur.Keys == g.Keys && SomeChainLasts(g, dur, idle)
  {}

  lemma FinishReached(g: Packages, dur: map<Id, int>, w: int, s: Sim)
    requires Instance(g, dur, w) && Reached(g, dur, w, s)
    requires s.pending == {} && s.active.Keys == {}
    ensures Finishes(g, dur, w, s.now, s.peak, s.batches)
  {
    hide Invariant, Finishes, Acyclic;
    var finish, idle :| Invariant(g, dur, w, s, finish, idle);
    FinishInvariant(g, dur, w, s, finish, idle);
  }

  /** A state from which the body of the event loop runs through. */
  ghost predicate CanTurn(g: Packages, dur: map<Id, int>, w: int, s: Sim) {
    MayTurn(g, dur, w, s) && Dispatch(g, dur, w, s).active.Keys != {}
  }

  /** A state in which the body of the event loop is defined; it may still raise. */
  ghost predicate MayTurn(g: Packages, dur: map<Id, int>, w: int, s: Sim) {
    && dur.Keys == g.Keys && s.pending <= g.Keys && s.active.Keys <= g.Keys && s.count <= w
    && var r := Dispatch(g, dur, w, s);
       r.capacity <= w && Counted(Dispatched(w, s, r))
  }

  /** The state after one turn of the event loop. */
  ghost function Next(g: Packages, dur: map<Id, int>, w: int, s: Sim): Sim
    requires CanTurn(g, dur, w, s)
  {
    var r := Dispatch(g, dur, w, s);
    Advanced(Dispatched(w, s, r), Left(r.active))
  }

  /** One turn keeps the invariant, cannot stall, and completes something. */
  lemma TurnReached(g: Packages, dur: map<Id, int>, w: int, s: Sim)
    requires Instance(g, dur, w) && Reached(g, dur, w, s) && s.pending + s.active.Keys != {}
    ensures CanTurn(g, dur, w, s)
    ensures Reached(g, dur, w, Next(g, dur, w, s))
    ensures Next(g, dur, w, s).pending + Next(g, dur, w, s).active.Keys < s.pending + s.active.Keys
  {
    var finish, idle :| Invariant(g, dur, w, s, finish, idle);
    DispatchNeverStalls(g, dur, w, s);
    DispatchInvariant(g, dur, w, s, finish, idle);
    var r := Dispatch(g, dur, w, s);
    assert CanTurn(g, dur, w, s);
    var finish', idle' := NextInvariant(g, dur, w, s, finish, idle);
    NextShrinks(g, dur, w, s);
  }

  lemma NextInvariant(g: Packages, dur: map<Id, int>, w: int, s: Sim, finish: map<Id, int>, idle: int)
    returns (finish': map<Id, int>, idle': int)
    requires Instance(g, dur, w) && Invariant(g, dur, w, s, finish, idle) && CanTurn(g, dur, w, s)
    ensures Invariant(g, dur, w, Next(g, dur, w, s), finish', idle')
  {
    hide NoOverlap, Accounted, OnTime, Explained, Batched, Orderly, Peaked, Acyclic;
    DispatchInvariant(g, dur, w, s, finish, idle);
    DispatchShape(g, dur, w, s);
    var r := Dispatch(g, dur, w, s);
    var d := Dispatched(w, s, r);
    finish', idle' := LaunchFinish(dur, s.now, finish, r.active), IdleAfter(w, d, idle);
    hide Invariant, Shape;
    AdvanceInvariant(g, dur, w, d, finish', idle, Left(r.active));
  }

  lemma NextShrinks(g: Packages, dur: map<Id, int>, w: int, s: Sim)
    requires Instance(g, dur, w) && Shape(g, w, s) && CanTurn(g, dur, w, s)
    ensures Next(g, dur, w, s).pending + Next(g, dur, w, s).active.Keys < s.pending + s.active.Keys
  {
    DispatchGreedy(g, dur, w, s);
    var r := Dispatch(g, dur, w, s);
    BatchShrinks(s.pending, s.active, r.active, r.launched);
  }

  lemma BatchShrinks(pending: set<Id>, before: map<Id, int>, after: map<Id, int>, batch: seq<Id>)
    requires Joined(before.Keys, after.Keys, batch) && Elements(batch) <= pending && after.Keys != {}
    requires pending !! before.Keys
    ensures var k := Completed(after, NextCompletion(after));
            (pending - Elements(batch)) + (after - k).Keys < pending + before.Keys
  {
    var t := NextCompletion(after);
    var p :| p in after && after[p] == t;
    assert p in pending + before.Keys && p !in (after - Completed(after, t)).Keys;
  }

  /** The state in which the event loop ends. */
  ghost function Final(g: Packages, dur: map<Id, int>, w: int, s: Sim): (r: Sim)
    requires Instance(g, dur, w) && Reached(g, dur, w, s)
    ensures Reached(g, dur, w, r) && r.pending == {} && r.active.Keys == {}
    decreases s.pending + s.active.Keys
  {
    if s.pending + s.active.Keys == {} then s
    else
      TurnReached(g, dur, w, s);
      Final(g, dur, w, Next(g, dur, w, s))
  }

  ghost function Outcome(g: Packages, dur: map<Id, int>, w: int): (r: Sim)
    requires Instance(g, dur, w)
    ensures Finishes(g, dur, w, r.now, r.peak, r.batches)
  {
    StartReached(g, dur, w);
    var r := Final(g, dur, w, Start(g));
    FinishReached(g, dur, w, r);
    r
  }

  /** The body of the event loop. The "cannot make progress" error is the `stalled` result. */
  method Turn(g: Packages, dur: map<Id, int>, w: int, s: Sim) returns (stalled: bool, s': Sim)
    requires MayTurn(g, dur, w, s)
    ensures stalled <==> Dispatch(g, dur, w, s).active.Keys == {}
    ensures !stalled ==> CanTurn(g, dur, w, s) && s' == Next(g, dur, w, s)
  {
    hide ScanPending;
    var active, launched, capacity := LaunchReady(g, dur, w - s.count, s.now, s.done, s.pending, s.active);
    var r := Scan(active, launched, capacity);
    assert r == Dispatch(g, dur, w, s);
    hide Dispatch, Left, Advanced;
    s' := Dispatched(w, s, r);
    stalled := r.active.Keys == {};
    if !stalled {
      s' := Advanced(s', Left(r.active));
    }
  }

  method Simulate(g: Packages, dur: map<Id, int>, w: int) returns (stalled: bool, elapsed: int, peak: nat, batches: seq<seq<Id>>)
    requires Instance(g, dur, w)
    ensures !stalled
    ensures var r := Outcome(g, dur, w); elapsed == r.now && peak == r.peak && batches == r.batches
    ensures Finishes(g, dur, w, elapsed, peak, batches)
  {
    hide Reached, Finishes, Instance, MayTurn, Next, Dispatch;
    var s := Start(g);
    StartReached(g, dur, w);
    while s.pending != {} || s.active.Keys != {}
      invariant Reached(g, dur, w, s)
      invariant Final(g, dur, w, s) == Outcome(g, dur, w)
      decreases s.pending + s.active.Keys
    {
      TurnReached(g, dur, w, s);
      stalled, s := Turn(g, dur, w, s);
      if stalled {
        return true, s.now, s.peak, s.batches;
      }
    }
    return false, s.now, s.peak, s.batches;
  }

  datatype TopologyEstimate = TopologyEstimate(
    elapsed: int, busy: int, maximumWorkers: int, peak: nat, checkpoints: nat, batches: seq<seq<Id>>)
  {
    function Utilization(): real {
      if elapsed * maximumWorkers == 0 then 0.0 else busy as real / (elapsed * maximumWorkers) as real
    }
  }

  datatype Comparison =
    | Compared(strict: TopologyEstimate, cohort: TopologyEstimate)
    | BadGraph
    | BadDurations
    | BadWorkers
    | CannotProgress

  function Singletons(order: seq<Id>): seq<seq<Id>> {
    seq(|order|, i requires 0 <= i < |order| => [order[i]])
  }

  method TotalDuration(dur: map<Id, int>) returns (total: int)
    ensures total == Sum(dur.Keys, dur)
  {
    total := 0;
    var rest := dur.Keys;
    while rest != {}
      invariant rest <= dur.Keys
      invariant total + Sum(rest, dur) == Sum(dur.Keys, dur)
      decreases rest
    {
      var p :| p in rest;
      SumRemove(rest, dur, p);
      total := total + dur[p];
      rest := rest - {p};
    }
  }

  /** One worker, one package at a time in the given order, a checkpoint after each and one at the end. */
  ghost predicate Serial(order: seq<Id>, total: int, e: TopologyEstimate) {
    && e.elapsed == e.busy == total && e.maximumWorkers == 1
    && Flatten(e.batches) == order && (forall i | 0 <= i < |e.batches| :: |e.batches[i]| == 1)
    && e.peak == (if order == [] then 0 else 1) && e.checkpoints == |order| + e.peak
  }

  /** The outcome of the event simulation with `w` workers, two checkpoints, and what that outcome promises. */
  ghost predicate Cooperative(g: Packages, dur: map<Id, int>, w: int, e: TopologyEstimate)
    requires Instance(g, dur, w)
  {
    && e.maximumWorkers == w && e.busy == Sum(dur.Keys, dur)
    && (var o := Outcome(g, dur, w); e.elapsed == o.now && e.peak == o.peak && e.batches == o.batches)
    && Finishes(g, dur, w, e.elapsed, e.peak, e.batches)
    && 0.0 <= e.Utilization() <= 1.0 && e.Utilization() * (w * e.elapsed) as real == e.busy as real
    && e.checkpoints == if g.Keys == {} then 0 else 2
  }

  method EstimateStrict(order: seq<Id>, total: int) returns (e: TopologyEstimate)
    ensures Serial(order, total, e)
  {
    var some := if order == [] then 0 else 1;
    e := TopologyEstimate(total, total, 1, some, |order| + some, Singletons(order));
    StrictBatches(order);
  }

  method EstimateCohort(g: Packages, dur: map<Id, int>, w: int, total: int) returns (stalled: bool, e: TopologyEstimate)
    requires Instance(g, dur, w) && total == Sum(dur.Keys, dur)
    ensures !stalled && Cooperative(g, dur, w, e)
  {
    hide Outcome, Acyclic, Batched, Orderly, ClashesFit, IsChain, GrahamBound;
    var elapsed, peak, batches;
    stalled, elapsed, peak, batches := Simulate(g, dur, w);
    e := TopologyEstimate(elapsed, total, w, peak, if g.Keys == {} then 0 else 2, batches);
    SumNonNegative(dur.Keys, dur);
    UtilizationBounds(e);
  }

  /**
   The comparison never stalls on an admitted graph, and the cohort estimate lies between the
   dependency chains and strict serialisation, within Graham's bound when clashes are ordered.
   The workers are the fewer of those requested and those the graph allows.
   */
  method CompareExecutionTopologies(graph: Graph, dur: map<Id, int>, requested: Option<int>) returns (r: Comparison)
    requires Elements(graph.order) == graph.byId.Keys
    ensures r.BadGraph? <==> !WellFormed(graph)
    ensures r.BadDurations? <==> !r.BadGraph? && (dur.Keys != graph.byId.Keys || exists p | p in dur :: dur[p] < 0)
    ensures r.BadWorkers? <==> !r.BadGraph? && !r.BadDurations? && requested.Some? && requested.value < 1
    ensures !r.CannotProgress?
    ensures r.Compared? ==>
      var w := r.cohort.maximumWorkers;
      && w <= graph.maximumConcurrent && (requested.Some? ==> w <= requested.value)
      && (w == graph.maximumConcurrent || (requested.Some? && w == requested.value))
      && dur.Keys == graph.byId.Keys && Serial(graph.order, Sum(dur.Keys, dur), r.strict)
      && Instance(graph.byId, dur, w) && Cooperative(graph.byId, dur, w, r.cohort)
      && (LocksOrdered(graph.byId) ==> GrahamBound(graph.byId, dur, w, r.cohort.elapsed))
      && r.cohort.elapsed <= r.strict.elapsed
  {
    hide Outcome, Batched, ClashesFit, GrahamBound, Flatten;
    var compiled := Compile(graph);
    if !compiled.Compiled? {
      return BadGraph;
    }
    if dur.Keys != graph.byId.Keys || exists p | p in dur :: dur[p] < 0 {
      return BadDurations;
    }
    var wanted := if requested.None? then graph.maximumConcurrent else requested.value;
    if wanted < 1 {
      return BadWorkers;
    }
    var w := if wanted < graph.maximumConcurrent then wanted else graph.maximumConcurrent;
    var total := TotalDuration(dur);
    var strict := EstimateStrict(graph.order, total);
    var stalled, cohort := EstimateCohort(graph.byId, dur, w, total);
    if stalled {
      return CannotProgress;
    }
    if LocksOrdered(graph.byId) { OrderlyUpToLocks(graph.byId); }
    r := Compared(strict, cohort);
  }

  lemma UtilizationBounds(e: TopologyEstimate)
    requires 0 <= e.busy <= e.maximumWorkers * e.elapsed
    ensures 0.0 <= e.Utilization() <= 1.0
    ensures e.Utilization() * (e.maximumWorkers * e.elapsed) as real == e.busy as real
  {
    var capacity := e.elapsed * e.maximumWorkers;
    assert capacity == e.maximumWorkers * e.elapsed;
    if capacity != 0 { QuotientAtMostOne(e.busy as real, capacity as real); }
  }

  lemma {:induction false} StrictBatches(order: seq<Id>)
    ensures Flatten(Singletons(order)) == order
  {
    if order != [] {
      var before := order[..|order| - 1];
      StrictBatches(before);
      assert Singletons(order)[..|order| - 1] == Singletons(before);
      assert order == before + [order[|order| - 1]];
    }
  }

  lemma QuotientAtMostOne(a: real, b: real)
    requires 0.0 <= a <= b && b > 0.0
    ensures 0.0 <= a / b <= 1.0 && a / b * b == a
  {
    assert a / b * b == a;
  }
}
