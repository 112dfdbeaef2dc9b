/**
 Shortest-job-first scheduling on agents that become available at different
 times.  This is the theory behind the invariant heuristic of the planner:
 what a "plan" for a set of jobs is, what it costs, what the greedy
 least-loaded-agent rule produces, and why no plan does better.
 */
module Scheduling {

  // ---------------------------------------------------------------- jobs and plans

  /** A task reduced to its invariant part: the earliest it may start and finish. */
  datatype Job = Job(start: real, finish: real) {
    function Duration(): real { finish - start }
  }

  /** One job placed in an agent's itinerary. */
  datatype Slot = Slot(job: Job, begin: real) {
    function Finish(): real { begin + job.Duration() }
  }

  /** An agent's slots respect its availability, every earliest start, and each other. */
  ghost predicate RowFeasible(row: seq<Slot>, available: real) {
    forall k :: 0 <= k < |row| ==>
      && row[k].begin >= row[k].job.start
      && row[k].begin >= available
      && (k > 0 ==> row[k].begin >= row[k - 1].Finish())
  }

  /** A plan gives every agent its own list of slots. */
  ghost predicate Feasible(plan: seq<seq<Slot>>, available: seq<real>) {
    && |plan| == |available|
    && forall i :: 0 <= i < |plan| ==> RowFeasible(plan[i], available[i])
  }

  ghost function RowJobs(row: seq<Slot>): (r: seq<Job>)
    ensures |r| == |row|
    ensures forall k :: 0 <= k < |row| ==> r[k] == row[k].job
  {
    if row == [] then [] else [row[0].job] + RowJobs(row[1..])
  }

  ghost function PlanJobs(plan: seq<seq<Slot>>): (r: seq<seq<Job>>)
    ensures |r| == |plan|
    ensures forall i :: 0 <= i < |plan| ==> r[i] == RowJobs(plan[i])
  {
    if plan == [] then [] else [RowJobs(plan[0])] + PlanJobs(plan[1..])
  }

  /** All jobs of an assignment, over all agents. */
  ghost function Flat(assignment: seq<seq<Job>>): multiset<Job> {
    if assignment == [] then multiset{} else multiset(assignment[0]) + Flat(assignment[1..])
  }

  /** The plan carries out exactly these jobs, each once, in any order on any agent. */
  ghost predicate Covers(plan: seq<seq<Slot>>, jobs: seq<Job>) {
    Flat(PlanJobs(plan)) == multiset(jobs)
  }

  ghost function RowCost(row: seq<Slot>): real {
    if row == [] then 0.0 else (row[0].Finish() - row[0].job.start) + RowCost(row[1..])
  }

  /** What the planner's cost function charges: lateness of every finish over its earliest start. */
  ghost function PlanCost(plan: seq<seq<Slot>>): real {
    if plan == [] then 0.0 else RowCost(plan[0]) + PlanCost(plan[1..])
  }

  // ---------------------------------------------------------------- greedy rule

  ghost predicate ShortestFirst(jobs: seq<Job>) {
    forall i, j :: 0 <= i <= j < |jobs| ==> jobs[i].Duration() <= jobs[j].Duration()
  }

  ghost predicate NonNegative(jobs: seq<Job>) {
    forall i :: 0 <= i < |jobs| ==> jobs[i].Duration() >= 0.0
  }

  predicate Sorted(s: seq<real>) {
    |s| < 2 || (s[0] <= s[1] && Sorted(s[1..]))
  }

  /** Sorted insertion, in front of the first element that is not smaller. */
  function Insert(s: seq<real>, x: real): (r: seq<real>)
    ensures |r| == |s| + 1
  {
    if s == [] || x <= s[0] then [x] + s else [s[0]] + Insert(s[1..], x)
  }

  function SortReals(s: seq<real>): (r: seq<real>)
    ensures |r| == |s|
  {
    if s == [] then [] else Insert(SortReals(s[1..]), s[0])
  }

  lemma {:induction false} InsertSorted(s: seq<real>, x: real)
    requires Sorted(s)
    ensures Sorted(Insert(s, x))
    ensures Insert(s, x)[0] == if s == [] || x <= s[0] then x else s[0]
  {
    if s != [] && x > s[0] {
      InsertSorted(s[1..], x);
      assert Insert(s, x)[1..] == Insert(s[1..], x);
    } else {
      assert ([x] + s)[1..] == s;
    }
  }

  lemma {:induction false} InsertElements(s: seq<real>, x: real)
    ensures multiset(Insert(s, x)) == multiset(s) + multiset{x}
  {
    if s != [] && x > s[0] {
      InsertElements(s[1..], x);
      assert s == [s[0]] + s[1..];
    }
  }

  /** Sorting yields a sorted permutation. */
  lemma {:induction false} SortRealsSorts(s: seq<real>)
    ensures Sorted(SortReals(s)) && multiset(SortReals(s)) == multiset(s)
  {
    if s != [] {
      SortRealsSorts(s[1..]);
      InsertSorted(SortReals(s[1..]), s[0]);
      InsertElements(SortReals(s[1..]), s[0]);
      assert s == [s[0]] + s[1..];
    }
  }

  lemma {:induction false} SortedHead(s: seq<real>, i: nat)
    requires Sorted(s) && i < |s|
    ensures s[0] <= s[i]
  {
    if i > 0 {
      SortedHead(s[1..], i - 1);
    }
  }

  /** End times produced by always serving the agent at the front of a sorted queue. */
  ghost function Completions(loads: seq<real>, jobs: seq<Job>): (r: seq<real>)
    requires loads != []
    ensures |r| == |jobs|
    decreases |jobs|
  {
    if jobs == [] then []
    else
      var c := loads[0] + jobs[0].Duration();
      [c] + Completions(Insert(loads[1..], c), jobs[1..])
  }

  /** An agent with the least load; the agents are in no particular order. */
  ghost function MinIndex(loads: seq<real>): (m: nat)
    requires loads != []
    ensures m < |loads|
    ensures forall i :: 0 <= i < |loads| ==> loads[m] <= loads[i]
  {
    if |loads| == 1 then 0
    else
      var m := MinIndex(loads[1..]);
      assert forall i :: 1 <= i < |loads| ==> loads[i] == loads[1..][i - 1];
      if loads[0] <= loads[1..][m] then 0 else m + 1
  }

  /** Reference scheduler: give each job to a least loaded agent, without keeping a queue. */
  ghost function LeastLoaded(loads: seq<real>, jobs: seq<Job>): (r: seq<real>)
    requires loads != []
    ensures |r| == |jobs|
    decreases |jobs|
  {
    if jobs == [] then []
    else
      var m := MinIndex(loads);
      var c := loads[m] + jobs[0].Duration();
      [c] + LeastLoaded(loads[m := c], jobs[1..])
  }

  ghost function Sum(s: seq<real>): real {
    if s == [] then 0.0 else s[0] + Sum(s[1..])
  }

  // ---------------------------------------------------------------- the queue is the reference scheduler

  /** The order in which loads are kept is irrelevant to the end times. */
  lemma {:induction false} LeastLoadedIgnoresOrder(a: seq<real>, b: seq<real>, jobs: seq<Job>)
    requires a != [] && b != [] && multiset(a) == multiset(b)
    ensures LeastLoaded(a, jobs) == LeastLoaded(b, jobs)
    decreases |jobs|
  {
    if jobs != [] {
      var m, n := MinIndex(a), MinIndex(b);
      SameMinimum(a, m, b, n);
      var c := a[m] + jobs[0].Duration();
      LeastLoadedIgnoresOrder(a[m := c], b[n := c], jobs[1..]);
      LeastLoadedStep(a, jobs, m, c);
      LeastLoadedStep(b, jobs, n, c);
    }
  }

  lemma {:induction false} LeastLoadedStep(loads: seq<real>, jobs: seq<Job>, m: nat, c: real)
    requires loads != [] && jobs != [] && m == MinIndex(loads) && c == loads[m] + jobs[0].Duration()
    ensures LeastLoaded(loads, jobs) == [c] + LeastLoaded(loads[m := c], jobs[1..])
  {
  }

  lemma {:induction false} CompletionsStep(loads: seq<real>, jobs: seq<Job>, c: real)
    requires loads != [] && jobs != [] && c == loads[0] + jobs[0].Duration()
    ensures Completions(loads, jobs) == [c] + Completions(Insert(loads[1..], c), jobs[1..])
  {
  }

  lemma {:induction false} SameMinimum(a: seq<real>, m: nat, b: seq<real>, n: nat)
    requires multiset(a) == multiset(b) && m < |a| && n < |b|
    requires forall i :: 0 <= i < |a| ==> a[m] <= a[i]
    requires forall i :: 0 <= i < |b| ==> b[n] <= b[i]
    ensures a[m] == b[n]
  {
    assert a[m] in multiset(a) && b[n] in multiset(b);
    assert a[m] in multiset(b) && b[n] in multiset(a);
  }

  lemma {:induction false} ServeFront(loads: seq<real>, m: nat, c: real)
    requires m < |loads| && loads[m] == loads[0]
    ensures multiset(loads[m := c]) == multiset(Insert(loads[1..], c))
  {
    InsertElements(loads[1..], c);
    assert loads == [loads[0]] + loads[1..];
  }

  /** Serving the front of the sorted queue is serving a least loaded agent. */
  lemma {:induction false} CompletionsAreLeastLoaded(loads: seq<real>, jobs: seq<Job>)
    requires loads != [] && Sorted(loads)
    ensures Completions(loads, jobs) == LeastLoaded(loads, jobs)
    decreases |jobs|
  {
    if jobs != [] {
      var m, rest := MinIndex(loads), jobs[1..];
      SortedHead(loads, m);
      var c := loads[0] + jobs[0].Duration();
      ServeFront(loads, m, c);
      InsertSorted(loads[1..], c);
      CompletionsAreLeastLoaded(Insert(loads[1..], c), rest);
      LeastLoadedIgnoresOrder(loads[m := c], Insert(loads[1..], c), rest);
      LeastLoadedStep(loads, jobs, m, c);
      CompletionsStep(loads, jobs, c);
    }
  }

  // ---------------------------------------------------------------- monotonicity

  ghost predicate Below(u: seq<real>, v: seq<real>) {
    |u| == |v| && forall i :: 0 <= i < |u| ==> u[i] <= v[i]
  }

  lemma {:induction false} InsertHead(s: seq<real>)
    requires s != [] && Sorted(s)
    ensures Insert(s[1..], s[0]) == s
  {
    assert s == [s[0]] + s[1..];
  }

  lemma {:induction false} BelowCons(x: real, u: seq<real>, y: real, v: seq<real>)
    requires x <= y && Below(u, v)
    ensures Below([x] + u, [y] + v)
  {
  }

  lemma {:induction false} InsertMonotone(u: seq<real>, v: seq<real>, c: real, d: real)
    requires Sorted(u) && Sorted(v) && Below(u, v) && c <= d
    ensures Below(Insert(u, c), Insert(v, d))
    decreases |u|
  {
    if u != [] {
      var u', v' := u[1..], v[1..];
      assert Below(u', v');
      if c <= u[0] && d <= v[0] {
        BelowCons(c, u, d, v);
      } else if c <= u[0] {
        InsertHead(u);
        InsertMonotone(u', v', u[0], d);
        BelowCons(c, u, v[0], Insert(v', d));
      } else if d <= v[0] {
        InsertHead(v);
        InsertMonotone(u', v', c, v[0]);
        BelowCons(u[0], Insert(u', c), d, v);
      } else {
        InsertMonotone(u', v', c, d);
        BelowCons(u[0], Insert(u', c), v[0], Insert(v', d));
      }
    }
  }

  /** Making agents available later never lets any job end earlier. */
  lemma {:induction false} StepMonotone(u: seq<real>, v: seq<real>, c: real, d: real)
    requires u != [] && Sorted(u) && Sorted(v) && Below(u, v) && c <= d
    ensures var nu, nv := Insert(u[1..], c), Insert(v[1..], d);
      nu != [] && Sorted(nu) && Sorted(nv) && Below(nu, nv)
  {
    InsertMonotone(u[1..], v[1..], c, d);
    InsertSorted(u[1..], c);
    InsertSorted(v[1..], d);
  }

  lemma {:induction false} CompletionsMonotone(u: seq<real>, v: seq<real>, jobs: seq<Job>)
    requires u != [] && Sorted(u) && Sorted(v) && Below(u, v)
    ensures Below(Completions(u, jobs), Completions(v, jobs))
    decreases |jobs|
  {
    if jobs != [] {
      var c, d := u[0] + jobs[0].Duration(), v[0] + jobs[0].Duration();
      var nu, nv := Insert(u[1..], c), Insert(v[1..], d);
      StepMonotone(u, v, c, d);
      CompletionsMonotone(nu, nv, jobs[1..]);
      CompletionsStep(u, jobs, c);
      CompletionsStep(v, jobs, d);
      BelowCons(c, Completions(nu, jobs[1..]), d, Completions(nv, jobs[1..]));
    }
  }

  // ---------------------------------------------------------------- cost of an assignment without gaps

  /** Sum of end times when an agent works through `q` without pause from `a`. */
  ghost function FlowTime(a: real, q: seq<Job>): real
    decreases |q|
  {
    if q == [] then 0.0
    else (a + q[0].Duration()) + FlowTime(a + q[0].Duration(), q[1..])
  }

  ghost function Total(loads: seq<real>, assignment: seq<seq<Job>>): real
    requires |loads| == |assignment|
  {
    if loads == [] then 0.0
    else FlowTime(loads[0], assignment[0]) + Total(loads[1..], assignment[1..])
  }

  /** `n` payments of `d`. */
  ghost function Times(n: nat, d: real): real {
    if n == 0 then 0.0 else d + Times(n - 1, d)
  }

  lemma {:induction false} TimesMonotone(m: nat, n: nat, d: real)
    requires m <= n && d >= 0.0
    ensures Times(m, d) <= Times(n, d)
    decreases n
  {
    if m < n {
      TimesMonotone(m, n - 1, d);
    }
  }

  /** A later availability is paid once by every job of the agent. */
  lemma {:induction false} FlowTimeShift(a: real, delta: real, q: seq<Job>)
    ensures FlowTime(a + delta, q) == FlowTime(a, q) + Times(|q|, delta)
    decreases |q|
  {
    if q != [] {
      var d := q[0].Duration();
      FlowTimeShift(a + d, delta, q[1..]);
      assert a + delta + d == a + d + delta;
    }
  }

  lemma {:induction false} TotalUpdate(loads: seq<real>, assignment: seq<seq<Job>>, i: nat, x: real, q: seq<Job>)
    requires |loads| == |assignment| && i < |loads|
    ensures Total(loads[i := x], assignment[i := q])
         == Total(loads, assignment) - FlowTime(loads[i], assignment[i]) + FlowTime(x, q)
    decreases |loads|
  {
    if i > 0 {
      TotalUpdate(loads[1..], assignment[1..], i - 1, x, q);
      assert loads[i := x][1..] == loads[1..][i - 1 := x];
      assert assignment[i := q][1..] == assignment[1..][i - 1 := q];
    } else {
      assert loads[i := x][1..] == loads[1..];
      assert assignment[i := q][1..] == assignment[1..];
    }
  }

  lemma {:induction false} FlatUpdate(assignment: seq<seq<Job>>, i: nat, q: seq<Job>)
    requires i < |assignment|
    ensures Flat(assignment[i := q]) + multiset(assignment[i])
         == Flat(assignment) + multiset(q)
    decreases |assignment|
  {
    if i > 0 {
      var rest := assignment[1..];
      FlatUpdate(rest, i - 1, q);
      assert assignment[i := q][1..] == rest[i - 1 := q];
      calc {
        Flat(assignment[i := q]) + multiset(assignment[i]);
        multiset(assignment[0]) + (Flat(rest[i - 1 := q]) + multiset(rest[i - 1]));
        multiset(assignment[0]) + (Flat(rest) + multiset(q));
      }
    } else {
      assert assignment[i := q][1..] == assignment[1..];
    }
  }

  lemma {:induction false} ReplaceRow(loads: seq<real>, assignment: seq<seq<Job>>, i: nat, q: seq<Job>)
    requires |loads| == |assignment| && i < |loads|
    ensures Total(loads, assignment[i := q])
         == Total(loads, assignment) - FlowTime(loads[i], assignment[i]) + FlowTime(loads[i], q)
    ensures Flat(assignment[i := q]) + multiset(assignment[i]) == Flat(assignment) + multiset(q)
  {
    TotalUpdate(loads, assignment, i, loads[i], q);
    FlatUpdate(assignment, i, q);
    assert loads[i := loads[i]] == loads;
  }

  lemma {:induction false} ReplaceTwoRows(loads: seq<real>, assignment: seq<seq<Job>>, m: nat, q: seq<Job>, i: nat,
                                          r: seq<Job>)
    returns (better: seq<seq<Job>>)
    requires |loads| == |assignment| && m < |loads| && i < |loads| && m != i
    requires multiset(q) + multiset(r) == multiset(assignment[m]) + multiset(assignment[i])
    ensures better == assignment[m := q][i := r]
    ensures Flat(better) == Flat(assignment)
    ensures Total(loads, better) == Total(loads, assignment)
      - FlowTime(loads[m], assignment[m]) - FlowTime(loads[i], assignment[i])
      + FlowTime(loads[m], q) + FlowTime(loads[i], r)
  {
    var half := assignment[m := q];
    better := half[i := r];
    ReplaceRow(loads, assignment, m, q);
    ReplaceRow(loads, half, i, r);
    Telescope(Flat(better), Flat(half), Flat(assignment),
              multiset(q), multiset(r), multiset(assignment[m]), multiset(assignment[i]));
  }

  lemma Telescope(c: multiset<Job>, b: multiset<Job>, a: multiset<Job>,
                  q: multiset<Job>, r: multiset<Job>, x: multiset<Job>, y: multiset<Job>)
    requires b + x == a + q && c + y == b + r && q + r == x + y
    ensures c == a
  {
    forall j: Job ensures c[j] == a[j] {
      assert (b + x)[j] == (a + q)[j] && (c + y)[j] == (b + r)[j] && (q + r)[j] == (x + y)[j];
    }
  }

  lemma Cancel(a: multiset<Job>, b: multiset<Job>, x: multiset<Job>)
    requires a + x == b + x
    ensures a == b
  {
    forall j: Job ensures a[j] == b[j] {
      assert (a + x)[j] == (b + x)[j];
    }
  }

  lemma {:induction false} FlatContains(assignment: seq<seq<Job>>, i: nat)
    requires i < |assignment|
    ensures forall k :: 0 <= k < |assignment[i]| ==> assignment[i][k] in Flat(assignment)
    decreases |assignment|
  {
    if i > 0 {
      FlatContains(assignment[1..], i - 1);
    }
  }

  // ---------------------------------------------------------------- exchange argument

  lemma {:induction false} FindJob(assignment: seq<seq<Job>>, p: Job) returns (i: nat, r: nat)
    requires p in Flat(assignment)
    ensures i < |assignment| && r < |assignment[i]| && assignment[i][r] == p
    decreases |assignment|
  {
    if p in assignment[0] {
      i := 0;
      r :| 0 <= r < |assignment[0]| && assignment[0][r] == p;
    } else {
      i, r := FindJob(assignment[1..], p);
      i := i + 1;
    }
  }

  ghost function ToFront(q: seq<Job>, r: nat): seq<Job>
    requires r < |q|
  {
    [q[r]] + q[..r] + q[r + 1..]
  }

  lemma {:induction false} FlowTimeOne(a: real, x: Job, tail: seq<Job>)
    ensures FlowTime(a, [x] + tail) == (a + x.Duration()) + FlowTime(a + x.Duration(), tail)
  {
    assert ([x] + tail)[1..] == tail;
  }

  lemma {:induction false} FlowTimeTwo(a: real, x: Job, y: Job, tail: seq<Job>)
    ensures FlowTime(a, [x] + ([y] + tail))
         == (a + x.Duration()) + (a + x.Duration() + y.Duration()) + FlowTime(a + x.Duration() + y.Duration(), tail)
  {
    FlowTimeOne(a, x, [y] + tail);
    FlowTimeOne(a + x.Duration(), y, tail);
  }

  /** Within one agent, doing the shortest job first never costs more. */
  lemma {:induction false} ShortestToFront(a: real, q: seq<Job>, r: nat)
    requires r < |q|
    requires forall k :: 0 <= k < |q| ==> q[r].Duration() <= q[k].Duration()
    ensures FlowTime(a, ToFront(q, r)) <= FlowTime(a, q)
    decreases |q|
  {
    if r > 0 {
      var rest, tail := q[1..], q[1..r] + q[r + 1..];
      ShortestToFront(a + q[0].Duration(), rest, r - 1);
      ToFrontSplits(q, r, rest, tail);
      SwapFirst(a, q[0], q[r], tail);
    } else {
      assert ToFront(q, r) == q;
    }
  }

  lemma {:induction false} ToFrontSplits(q: seq<Job>, r: nat, rest: seq<Job>, tail: seq<Job>)
    requires 0 < r < |q| && rest == q[1..] && tail == q[1..r] + q[r + 1..]
    ensures ToFront(rest, r - 1) == [q[r]] + tail && ToFront(q, r) == [q[r]] + ([q[0]] + tail)
  {
    assert rest[..r - 1] == q[1..r] && rest[r..] == q[r + 1..];
    assert q[..r] == [q[0]] + q[1..r];
  }

  /** Of two jobs in a row, the shorter one first costs no more. */
  lemma {:induction false} SwapFirst(a: real, x: Job, p: Job, tail: seq<Job>)
    requires p.Duration() <= x.Duration()
    ensures FlowTime(a, [p] + ([x] + tail)) <= a + x.Duration() + FlowTime(a + x.Duration(), [p] + tail)
  {
    FlowTimeTwo(a, p, x, tail);
    FlowTimeOne(a + x.Duration(), p, tail);
    assert a + x.Duration() + p.Duration() == a + p.Duration() + x.Duration();
  }

  lemma {:induction false} ToFrontElements(q: seq<Job>, r: nat)
    requires r < |q|
    ensures multiset(ToFront(q, r)) == multiset(q)
  {
    assert q == q[..r] + [q[r]] + q[r + 1..];
  }

  /** Trading the first jobs of two agents when the earlier agent has at least as many jobs. */
  lemma {:induction false} TradeFirst(am: real, ai: real, x: Job, xs: seq<Job>, y: Job, ys: seq<Job>)
    requires |xs| >= |ys| && y.Duration() <= x.Duration()
    ensures FlowTime(am, [y] + xs) + FlowTime(ai, [x] + ys) <= FlowTime(am, [x] + xs) + FlowTime(ai, [y] + ys)
  {
    var p, q := y.Duration(), x.Duration();
    FlowTimeOne(am, x, xs);
    FlowTimeOne(am, y, xs);
    FlowTimeOne(ai, x, ys);
    FlowTimeOne(ai, y, ys);
    FlowTimeShift(am + p, q - p, xs);
    FlowTimeShift(ai + p, q - p, ys);
    assert am + p + (q - p) == am + q && ai + p + (q - p) == ai + q;
    TimesMonotone(|ys|, |xs|, q - p);
  }

  /** Trading whole sequences when the later agent has more jobs. */
  lemma {:induction false} TradeAll(am: real, ai: real, xs: seq<Job>, ys: seq<Job>)
    requires |xs| <= |ys| && am <= ai
    ensures FlowTime(am, ys) + FlowTime(ai, xs) <= FlowTime(am, xs) + FlowTime(ai, ys)
  {
    FlowTimeShift(am, ai - am, xs);
    FlowTimeShift(am, ai - am, ys);
    assert am + (ai - am) == ai;
    TimesMonotone(|xs|, |ys|, ai - am);
  }

  /** Between two agents: put the shortest job first on the earlier one without raising the cost. */
  lemma {:induction false} ExchangeBetween(am: real, ai: real, qm: seq<Job>, qi: seq<Job>)
    returns (rest: seq<Job>, other: seq<Job>)
    requires qi != [] && am <= ai
    requires forall k :: 0 <= k < |qm| ==> qi[0].Duration() <= qm[k].Duration()
    ensures FlowTime(am, [qi[0]] + rest) + FlowTime(ai, other) <= FlowTime(am, qm) + FlowTime(ai, qi)
    ensures multiset([qi[0]] + rest) + multiset(other) == multiset(qm) + multiset(qi)
  {
    assert qi == [qi[0]] + qi[1..];
    if |qm| >= |qi| {
      assert qm == [qm[0]] + qm[1..];
      rest, other := qm[1..], [qm[0]] + qi[1..];
      TradeFirst(am, ai, qm[0], rest, qi[0], qi[1..]);
    } else {
      rest, other := qi[1..], qm;
      TradeAll(am, ai, qm, qi);
    }
  }

  ghost predicate Shortest(p: Job, q: seq<Job>) {
    forall k :: 0 <= k < |q| ==> p.Duration() <= q[k].Duration()
  }

  /** Some assignment of no greater total puts a shortest job first on a least loaded agent. */
  lemma {:induction false} Exchange(loads: seq<real>, assignment: seq<seq<Job>>, m: nat, p: Job, i: nat, r: nat)
    returns (better: seq<seq<Job>>, rest: seq<Job>)
    requires |loads| == |assignment| && m < |loads| && i < |loads| && loads[m] <= loads[i]
    requires r < |assignment[i]| && assignment[i][r] == p
    requires Shortest(p, assignment[i]) && Shortest(p, assignment[m])
    ensures |better| == |assignment| && better[m] == [p] + rest
    ensures Flat(better) == Flat(assignment)
    ensures Total(loads, better) <= Total(loads, assignment)
  {
    var front := ToFront(assignment[i], r);
    ShortestToFront(loads[i], assignment[i], r);
    ToFrontElements(assignment[i], r);
    if i == m {
      better, rest := assignment[i := front], front[1..];
      ReplaceRow(loads, assignment, i, front);
      Cancel(Flat(better), Flat(assignment), multiset(front));
      assert front == [p] + rest;
    } else {
      var other;
      rest, other := ExchangeBetween(loads[m], loads[i], assignment[m], front);
      better := ReplaceTwoRows(loads, assignment, m, [p] + rest, i, other);
    }
  }

  /** Taking the first job off a row leaves its end time plus the total for the later availability. */
  lemma {:induction false} TakeFirst(loads: seq<real>, assignment: seq<seq<Job>>, m: nat, p: Job, rest: seq<Job>,
                                     others: multiset<Job>)
    requires |loads| == |assignment| && m < |loads| && assignment[m] == [p] + rest
    requires Flat(assignment) == multiset{p} + others
    ensures Flat(assignment[m := rest]) == others
    ensures Total(loads, assignment)
         == loads[m] + p.Duration() + Total(loads[m := loads[m] + p.Duration()], assignment[m := rest])
  {
    TakeFirstFlat(assignment, m, p, rest, others);
    TotalUpdate(loads, assignment, m, loads[m] + p.Duration(), rest);
    FlowTimeOne(loads[m], p, rest);
  }

  lemma {:induction false} TakeFirstFlat(assignment: seq<seq<Job>>, m: nat, p: Job, rest: seq<Job>,
                                         others: multiset<Job>)
    requires m < |assignment| && assignment[m] == [p] + rest && Flat(assignment) == multiset{p} + others
    ensures Flat(assignment[m := rest]) == others
  {
    FlatUpdate(assignment, m, rest);
    Regroup(Flat(assignment[m := rest]), multiset(assignment[m]), multiset(rest), others, p);
  }

  lemma Regroup(a: multiset<Job>, row: multiset<Job>, rest: multiset<Job>, others: multiset<Job>, p: Job)
    requires row == multiset{p} + rest && a + row == (multiset{p} + others) + rest
    ensures a == others
  {
    assert a + row == a + (multiset{p} + rest) == (a + multiset{p}) + rest;
    assert (multiset{p} + others) + rest == (others + multiset{p}) + rest;
    Cancel(a + multiset{p}, others + multiset{p}, rest);
    Cancel(a, others, multiset{p});
  }

  lemma {:induction false} ShortestRow(jobs: seq<Job>, assignment: seq<seq<Job>>, j: nat)
    requires jobs != [] && ShortestFirst(jobs) && Flat(assignment) == multiset(jobs) && j < |assignment|
    ensures Shortest(jobs[0], assignment[j])
  {
    FlatContains(assignment, j);
    forall k | 0 <= k < |assignment[j]| ensures jobs[0].Duration() <= assignment[j][k].Duration() {
      assert assignment[j][k] in multiset(jobs);
    }
  }

  lemma {:induction false} LeastLoadedSum(loads: seq<real>, jobs: seq<Job>, m: nat, c: real)
    requires loads != [] && jobs != [] && m == MinIndex(loads) && c == loads[m] + jobs[0].Duration()
    ensures Sum(LeastLoaded(loads, jobs)) == c + Sum(LeastLoaded(loads[m := c], jobs[1..]))
  {
    LeastLoadedStep(loads, jobs, m, c);
    assert LeastLoaded(loads, jobs)[1..] == LeastLoaded(loads[m := c], jobs[1..]);
  }

  /** No assignment of the jobs, in any order on any agents, has a smaller sum of end times. */
  lemma {:induction false} LeastLoadedOptimal(loads: seq<real>, jobs: seq<Job>, assignment: seq<seq<Job>>)
    requires loads != [] && |loads| == |assignment|
    requires ShortestFirst(jobs)
    requires Flat(assignment) == multiset(jobs)
    ensures Sum(LeastLoaded(loads, jobs)) <= Total(loads, assignment)
    decreases |jobs|
  {
    if jobs == [] {
      NothingAssigned(loads, assignment);
    } else {
      var m, c := MinIndex(loads), loads[MinIndex(loads)] + jobs[0].Duration();
      var rest := ScheduleFirst(loads, jobs, assignment, m);
      ShortestFirstTail(jobs);
      LeastLoadedOptimal(loads[m := c], jobs[1..], rest);
      LeastLoadedSum(loads, jobs, m, c);
    }
  }

  lemma {:induction false} ShortestFirstTail(jobs: seq<Job>)
    requires ShortestFirst(jobs) && jobs != []
    ensures ShortestFirst(jobs[1..])
  {
    forall i, j | 0 <= i <= j < |jobs| - 1 ensures jobs[1..][i].Duration() <= jobs[1..][j].Duration() {
      assert jobs[i + 1].Duration() <= jobs[j + 1].Duration();
    }
  }

  /** Giving the first job to a least loaded agent leaves a problem of the same kind, at no loss. */
  lemma {:induction false} ScheduleFirst(loads: seq<real>, jobs: seq<Job>, assignment: seq<seq<Job>>, m: nat)
    returns (rest: seq<seq<Job>>)
    requires |loads| == |assignment| && m < |loads| && jobs != []
    requires forall i :: 0 <= i < |loads| ==> loads[m] <= loads[i]
    requires ShortestFirst(jobs) && Flat(assignment) == multiset(jobs)
    ensures |rest| == |loads| && Flat(rest) == multiset(jobs[1..])
    ensures var c := loads[m] + jobs[0].Duration(); c + Total(loads[m := c], rest) <= Total(loads, assignment)
  {
    var p := jobs[0];
    FirstAndRest(jobs);
    var i, r := FindJob(assignment, p);
    ShortestRow(jobs, assignment, i);
    ShortestRow(jobs, assignment, m);
    var better, others := Exchange(loads, assignment, m, p, i, r);
    TakeFirst(loads, better, m, p, others, multiset(jobs[1..]));
    rest := better[m := others];
  }

  lemma {:induction false} FirstAndRest(jobs: seq<Job>)
    requires jobs != []
    ensures multiset(jobs) == multiset{jobs[0]} + multiset(jobs[1..])
  {
    assert jobs == [jobs[0]] + jobs[1..];
  }

  lemma {:induction false} NothingAssigned(loads: seq<real>, assignment: seq<seq<Job>>)
    requires |loads| == |assignment| && Flat(assignment) == multiset{}
    ensures Total(loads, assignment) == 0.0
    decreases |loads|
  {
    if loads != [] {
      assert |multiset(assignment[0]) + Flat(assignment[1..])| == |assignment[0]| + |Flat(assignment[1..])|;
      assert Flat(assignment) == Flat(assignment[1..]);
      NothingAssigned(loads[1..], assignment[1..]);
    }
  }

  // ---------------------------------------------------------------- lower bound on every plan

  ghost function RowFinish(row: seq<Slot>): real {
    if row == [] then 0.0 else row[0].Finish() + RowFinish(row[1..])
  }

  ghost function StartSum(jobs: seq<Job>): real {
    if jobs == [] then 0.0 else jobs[0].start + StartSum(jobs[1..])
  }

  lemma {:induction false} RowCostSplits(row: seq<Slot>)
    ensures RowCost(row) == RowFinish(row) - StartSum(RowJobs(row))
  {
    if row != [] {
      RowCostSplits(row[1..]);
      assert RowJobs(row)[1..] == RowJobs(row[1..]);
    }
  }

  lemma {:induction false} RestFeasible(row: seq<Slot>, available: real)
    requires row != [] && RowFeasible(row, available)
    ensures RowFeasible(row[1..], available)
    ensures |row| > 1 ==> row[1].begin >= row[0].Finish()
  {
    forall k | 0 <= k < |row| - 1 ensures row[1..][k] == row[k + 1] {}
  }

  /** Gaps in an agent's row can only delay its jobs. */
  lemma {:induction false} RowBound(row: seq<Slot>, available: real, from: real)
    requires RowFeasible(row, available)
    requires row != [] ==> from <= row[0].begin
    ensures FlowTime(from, RowJobs(row)) <= RowFinish(row)
    decreases |row|
  {
    if row != [] {
      var d, rest := row[0].job.Duration(), row[1..];
      RestFeasible(row, available);
      RowBound(rest, available, from + d);
      assert RowJobs(row)[1..] == RowJobs(rest);
    }
  }

  function Clip(s: seq<real>, lo: real): (r: seq<real>)
    ensures |r| == |s|
    ensures forall i :: 0 <= i < |s| ==> r[i] == if s[i] < lo then lo else s[i]
  {
    if s == [] then [] else [if s[0] < lo then lo else s[0]] + Clip(s[1..], lo)
  }

  lemma {:induction false} PlanBound(plan: seq<seq<Slot>>, available: seq<real>, lo: real)
    requires Feasible(plan, available)
    requires forall j :: j in Flat(PlanJobs(plan)) ==> lo <= j.start
    ensures Total(Clip(available, lo), PlanJobs(plan)) <= PlanCost(plan) + StartSum(FlatSeq(PlanJobs(plan)))
    decreases |plan|
  {
    if plan != [] {
      var jobs := PlanJobs(plan);
      var rest := plan[1..];
      assert jobs[1..] == PlanJobs(rest);
      assert Clip(available, lo)[1..] == Clip(available[1..], lo);
      assert Feasible(rest, available[1..]);
      PlanBound(rest, available[1..], lo);
      if plan[0] != [] {
        assert plan[0][0].job == jobs[0][0];
        assert jobs[0][0] in multiset(jobs[0]);
        assert jobs[0][0] in Flat(jobs);
      }
      RowBound(plan[0], available[0], Clip(available, lo)[0]);
      RowCostSplits(plan[0]);
      StartSumConcat(jobs[0], FlatSeq(jobs[1..]));
    }
  }

  /** From the agents' own availability: the finishes of a plan are at least those without gaps. */
  lemma {:induction false} GaplessBound(plan: seq<seq<Slot>>, available: seq<real>)
    requires Feasible(plan, available)
    ensures Total(available, PlanJobs(plan)) <= PlanCost(plan) + StartSum(FlatSeq(PlanJobs(plan)))
    decreases |plan|
  {
    if plan != [] {
      var jobs, rest := PlanJobs(plan), plan[1..];
      assert jobs[1..] == PlanJobs(rest);
      assert Feasible(rest, available[1..]);
      GaplessBound(rest, available[1..]);
      RowBound(plan[0], available[0], available[0]);
      RowCostSplits(plan[0]);
      StartSumConcat(jobs[0], FlatSeq(jobs[1..]));
    }
  }

  /** The jobs of an assignment as one list. */
  ghost function FlatSeq(assignment: seq<seq<Job>>): (r: seq<Job>)
    ensures multiset(r) == Flat(assignment)
  {
    if assignment == [] then [] else assignment[0] + FlatSeq(assignment[1..])
  }

  lemma {:induction false} StartSumConcat(a: seq<Job>, b: seq<Job>)
    ensures StartSum(a + b) == StartSum(a) + StartSum(b)
    decreases |a|
  {
    if a == [] {
      assert a + b == b;
    } else {
      StartSumConcat(a[1..], b);
      assert (a + b)[1..] == a[1..] + b;
    }
  }

  lemma {:induction false} StartSumIgnoresOrder(a: seq<Job>, b: seq<Job>)
    requires multiset(a) == multiset(b)
    ensures StartSum(a) == StartSum(b)
    decreases |a|
  {
    if a == [] {
      assert |multiset(b)| == 0;
    } else {
      assert a[0] in multiset(b);
      var k :| 0 <= k < |b| && b[k] == a[0];
      assert a == [a[0]] + a[1..];
      assert b == b[..k] + ([b[k]] + b[k + 1..]);
      var rest := b[..k] + b[k + 1..];
      StartSumConcat(b[..k], [b[k]] + b[k + 1..]);
      StartSumConcat(b[..k], b[k + 1..]);
      assert ([b[k]] + b[k + 1..])[1..] == b[k + 1..];
      assert multiset(a[1..]) == multiset(rest) by {
        assert multiset(a) == multiset(a[1..]) + multiset{a[0]};
        assert multiset(b) == multiset(rest) + multiset{a[0]};
        Cancel(multiset(a[1..]), multiset(rest), multiset{a[0]});
      }
      StartSumIgnoresOrder(a[1..], rest);
    }
  }

  // ---------------------------------------------------------------- admissibility

  /** The heuristic's estimate: lateness of the greedy ends, never counted below zero. */
  ghost function Lateness(ends: seq<real>, jobs: seq<Job>): real
    requires |ends| == |jobs|
  {
    if jobs == [] then 0.0
    else
      var late := ends[0] - jobs[0].start;
      (if late < 0.0 then 0.0 else late) + Lateness(ends[1..], jobs[1..])
  }

  /** How far the earliest starts lie above a common lower bound. */
  ghost function Spread(jobs: seq<Job>, lo: real): real {
    if jobs == [] then 0.0 else (jobs[0].start - lo) + Spread(jobs[1..], lo)
  }

  lemma {:induction false} SortMonotone(a: seq<real>, b: seq<real>)
    requires Below(a, b)
    ensures Below(SortReals(a), SortReals(b))
  {
    if a != [] {
      SortMonotone(a[1..], b[1..]);
      SortRealsSorts(a[1..]);
      SortRealsSorts(b[1..]);
      InsertMonotone(SortReals(a[1..]), SortReals(b[1..]), a[0], b[0]);
    }
  }

  /** Raising any agent's initial value never lowers any job's end. */
  lemma {:induction false} InitialValuesMonotone(a: seq<real>, b: seq<real>, jobs: seq<Job>)
    requires a != [] && Below(a, b)
    ensures Below(Completions(SortReals(a), jobs), Completions(SortReals(b), jobs))
  {
    SortMonotone(a, b);
    SortRealsSorts(a);
    SortRealsSorts(b);
    CompletionsMonotone(SortReals(a), SortReals(b), jobs);
  }

  ghost predicate AtLeast(s: seq<real>, lo: real) {
    forall i :: 0 <= i < |s| ==> lo <= s[i]
  }

  lemma {:induction false} InsertAtLeast(s: seq<real>, x: real, lo: real)
    requires AtLeast(s, lo) && lo <= x
    ensures AtLeast(Insert(s, x), lo)
  {
    if s != [] && x > s[0] {
      InsertAtLeast(s[1..], x, lo);
    }
  }

  lemma {:induction false} SortAtLeast(s: seq<real>, lo: real)
    requires AtLeast(s, lo)
    ensures AtLeast(SortReals(s), lo)
  {
    if s != [] {
      SortAtLeast(s[1..], lo);
      InsertAtLeast(SortReals(s[1..]), s[0], lo);
    }
  }

  lemma {:induction false} CompletionsAtLeast(loads: seq<real>, jobs: seq<Job>, lo: real)
    requires loads != [] && AtLeast(loads, lo) && NonNegative(jobs)
    ensures AtLeast(Completions(loads, jobs), lo)
    decreases |jobs|
  {
    if jobs != [] {
      var c := loads[0] + jobs[0].Duration();
      InsertAtLeast(loads[1..], c, lo);
      assert NonNegative(jobs[1..]);
      CompletionsAtLeast(Insert(loads[1..], c), jobs[1..], lo);
    }
  }

  lemma {:induction false} LatenessBound(ends: seq<real>, later: seq<real>, jobs: seq<Job>, lo: real)
    requires |ends| == |jobs| && Below(ends, later) && AtLeast(later, lo)
    requires forall i :: 0 <= i < |jobs| ==> lo <= jobs[i].start
    ensures Lateness(ends, jobs) <= Sum(later) - StartSum(jobs) + Spread(jobs, lo)
    decreases |jobs|
  {
    if jobs != [] {
      LatenessBound(ends[1..], later[1..], jobs[1..], lo);
    }
  }

  /** When no job ends before any may start, nothing is clipped. */
  lemma {:induction false} LatenessUnclipped(ends: seq<real>, jobs: seq<Job>, m: real)
    requires |ends| == |jobs| && AtLeast(ends, m) && forall i :: 0 <= i < |jobs| ==> jobs[i].start <= m
    ensures Lateness(ends, jobs) == Sum(ends) - StartSum(jobs)
    decreases |jobs|
  {
    if jobs != [] {
      LatenessUnclipped(ends[1..], jobs[1..], m);
    }
  }

  /**
   The estimate never exceeds the cost of any plan by more than the spread of the
   earliest starts: the jobs may run on any agents, in any order, with any gaps.
   */
  lemma {:induction false} EstimateBound(initial: seq<real>, jobs: seq<Job>, plan: seq<seq<Slot>>, lo: real)
    requires initial != [] && ShortestFirst(jobs) && NonNegative(jobs)
    requires forall i :: 0 <= i < |jobs| ==> lo <= jobs[i].start
    requires Feasible(plan, initial) && Covers(plan, jobs)
    ensures Lateness(Completions(SortReals(initial), jobs), jobs) <= PlanCost(plan) + Spread(jobs, lo)
  {
    var clipped := Clip(initial, lo);
    var sorted := SortReals(clipped);
    InitialValuesMonotone(initial, clipped, jobs);
    SortRealsSorts(clipped);
    SortAtLeast(clipped, lo);
    CompletionsAtLeast(sorted, jobs, lo);
    LatenessBound(Completions(SortReals(initial), jobs), Completions(sorted, jobs), jobs, lo);
    CompletionsAreLeastLoaded(sorted, jobs);
    LeastLoadedIgnoresOrder(sorted, clipped, jobs);
    LeastLoadedOptimal(clipped, jobs, PlanJobs(plan));
    forall j | j in Flat(PlanJobs(plan)) ensures lo <= j.start {
      assert j in multiset(jobs);
    }
    PlanBound(plan, initial, lo);
    StartSumIgnoresOrder(FlatSeq(PlanJobs(plan)), jobs);
  }

  lemma {:induction false} NoSpread(jobs: seq<Job>, s: real)
    requires forall i :: 0 <= i < |jobs| ==> jobs[i].start == s
    ensures Spread(jobs, s) == 0.0
  {
    if jobs != [] {
      NoSpread(jobs[1..], s);
    }
  }
}
