/**
 The invariant heuristic queue of the planner: agents are stacks of
 placements kept sorted by their last end, every new job goes on the front
 stack, and the front stack is rotated back to its place in the order.
 */
module HeuristicQueue {
  import opened Scheduling

  datatype Element = Element(start: real, end: real)
  type Stack = seq<Element>

  predicate WellFormed(stacks: seq<Stack>) {
    stacks != [] && forall i :: 0 <= i < |stacks| ==> stacks[i] != []
  }

  function LastEnd(stack: Stack): real
    requires stack != []
  {
    stack[|stack| - 1].end
  }

  ghost function Ends(stacks: seq<Stack>): (r: seq<real>)
    requires forall i :: 0 <= i < |stacks| ==> stacks[i] != []
    ensures |r| == |stacks|
    ensures forall i :: 0 <= i < |stacks| ==> r[i] == LastEnd(stacks[i])
  {
    if stacks == [] then [] else [LastEnd(stacks[0])] + Ends(stacks[1..])
  }

  /** What one placement costs; the first element of a stack is never charged. */
  function Charge(e: Element): real {
    if e.end - e.start < 0.0 then 0.0 else e.end - e.start
  }

  ghost function StackCost(stack: Stack): real {
    if |stack| <= 1 then 0.0 else StackCost(stack[..|stack| - 1]) + Charge(stack[|stack| - 1])
  }

  ghost function Cost(stacks: seq<Stack>): real {
    if stacks == [] then 0.0 else StackCost(stacks[0]) + Cost(stacks[1..])
  }

  /** Insertion of a stack in front of the first one that does not end earlier. */
  ghost function InsertStack(stacks: seq<Stack>, stack: Stack): (r: seq<Stack>)
    requires stack != [] && forall i :: 0 <= i < |stacks| ==> stacks[i] != []
    ensures |r| == |stacks| + 1
    ensures forall i :: 0 <= i < |r| ==> r[i] != []
  {
    if stacks == [] || LastEnd(stack) <= LastEnd(stacks[0]) then [stack] + stacks
    else [stacks[0]] + InsertStack(stacks[1..], stack)
  }

  /** One `add`: the job goes on the front stack, which is re-inserted. */
  ghost function Push(stacks: seq<Stack>, job: Job): (r: seq<Stack>)
    requires WellFormed(stacks)
    ensures WellFormed(r)
  {
    InsertStack(stacks[1..], stacks[0] + [Placed(LastEnd(stacks[0]), job)])
  }

  /** The placement of a job after a previous end. */
  function Placed(previousEnd: real, job: Job): Element {
    Element(job.start, previousEnd + job.Duration())
  }

  ghost function PushAll(stacks: seq<Stack>, jobs: seq<Job>): (r: seq<Stack>)
    requires WellFormed(stacks)
    ensures WellFormed(r)
    decreases |jobs|
  {
    if jobs == [] then stacks else PushAll(Push(stacks, jobs[0]), jobs[1..])
  }

  function Initial(values: seq<real>): (r: seq<Stack>)
    ensures |r| == |values|
    ensures forall i :: 0 <= i < |values| ==> r[i] == [Element(0.0, values[i])]
  {
    if values == [] then [] else [[Element(0.0, values[0])]] + Initial(values[1..])
  }

  class InvariantHeuristicQueue {
    var stacks: seq<Stack>

    ghost predicate Valid()
      reads this
    {
      WellFormed(stacks) && Sorted(Ends(stacks))
    }

    constructor (initialValues: seq<real>)
      requires initialValues != []
      ensures Valid()
      ensures stacks == Initial(SortReals(initialValues))
    {
      stacks := Initial(SortReals(initialValues));
      SortRealsSorts(initialValues);
      assert Ends(Initial(SortReals(initialValues))) == SortReals(initialValues);
    }

    method Add(earliestStart: real, earliestFinish: real)
      requires Valid()
      modifies this
      ensures Valid()
      ensures stacks == Push(old(stacks), Job(earliestStart, earliestFinish))
    {
      var newEnd := LastEnd(stacks[0]) + (earliestFinish - earliestStart);
      var front := stacks[0] + [Element(earliestStart, newEnd)];
      ghost var rest := stacks[1..];
      var endIt := 1;
      while endIt < |stacks| && !(newEnd <= LastEnd(stacks[endIt]))
        invariant 1 <= endIt <= |stacks|
        invariant forall k :: 1 <= k < endIt ==> LastEnd(stacks[k]) < newEnd
      {
        endIt := endIt + 1;
      }
      InsertStackAt(rest, front, endIt - 1);
      PushSorted(stacks, Job(earliestStart, earliestFinish));
      assert rest[..endIt - 1] == stacks[1..endIt] && rest[endIt - 1..] == stacks[endIt..];
      // rotating [0, endIt) left by one puts the front stack at endIt - 1
      stacks := stacks[1..endIt] + [front] + stacks[endIt..];
    }

    method ComputeCost() returns (total: real)
      requires Valid()
      ensures total == Cost(stacks)
    {
      total := 0.0;
      for s := 0 to |stacks|
        invariant total + Cost(stacks[s..]) == Cost(stacks)
      {
        var stack := stacks[s];
        ghost var before := total;
        for i := 1 to |stack|
          invariant total == before + StackCost(stack[..i])
        {
          total := total + Charge(stack[i]);
          assert stack[..i + 1][..i] == stack[..i];
        }
        assert stack[..|stack|] == stack;
      }
    }
  }

  // ---------------------------------------------------------------- the rotation is a sorted insertion

  lemma {:induction false} InsertStackAt(stacks: seq<Stack>, stack: Stack, k: nat)
    requires stack != [] && forall i :: 0 <= i < |stacks| ==> stacks[i] != []
    requires k <= |stacks|
    requires forall i :: 0 <= i < k ==> LastEnd(stacks[i]) < LastEnd(stack)
    requires k < |stacks| ==> LastEnd(stack) <= LastEnd(stacks[k])
    ensures InsertStack(stacks, stack) == stacks[..k] + [stack] + stacks[k..]
    decreases k
  {
    if k > 0 {
      InsertStackAt(stacks[1..], stack, k - 1);
      assert stacks[..k] == [stacks[0]] + stacks[1..][..k - 1];
    }
  }

  lemma {:induction false} EndsOfInsert(stacks: seq<Stack>, stack: Stack)
    requires stack != [] && forall i :: 0 <= i < |stacks| ==> stacks[i] != []
    ensures Ends(InsertStack(stacks, stack)) == Insert(Ends(stacks), LastEnd(stack))
  {
    if stacks == [] || LastEnd(stack) <= LastEnd(stacks[0]) {
      assert ([stack] + stacks)[1..] == stacks;
    } else {
      EndsOfInsert(stacks[1..], stack);
      assert Ends(stacks)[1..] == Ends(stacks[1..]);
    }
  }

  lemma {:induction false} EndsOfPush(stacks: seq<Stack>, job: Job)
    requires WellFormed(stacks)
    ensures Ends(Push(stacks, job)) == Insert(Ends(stacks)[1..], Ends(stacks)[0] + job.Duration())
  {
    GrownFrontEnds(stacks[0], stacks[1..], Placed(LastEnd(stacks[0]), job));
    EndsOfTail(stacks);
  }

  lemma {:induction false} GrownFrontEnds(front: Stack, rest: seq<Stack>, e: Element)
    requires front != [] && forall i :: 0 <= i < |rest| ==> rest[i] != []
    ensures Ends(InsertStack(rest, front + [e])) == Insert(Ends(rest), e.end)
  {
    EndsOfInsert(rest, front + [e]);
  }

  lemma {:induction false} EndsOfTail(stacks: seq<Stack>)
    requires WellFormed(stacks)
    ensures Ends(stacks)[1..] == Ends(stacks[1..]) && Ends(stacks)[0] == LastEnd(stacks[0])
  {
  }

  lemma {:induction false} PushSorted(stacks: seq<Stack>, job: Job)
    requires WellFormed(stacks) && Sorted(Ends(stacks))
    ensures Sorted(Ends(Push(stacks, job)))
    ensures Ends(Push(stacks, job)) == Insert(Ends(stacks)[1..], Ends(stacks)[0] + job.Duration())
  {
    EndsOfPush(stacks, job);
    InsertSorted(Ends(stacks)[1..], Ends(stacks)[0] + job.Duration());
  }

  // ---------------------------------------------------------------- cost after a run of adds

  lemma {:induction false} StackCostAppend(stack: Stack, e: Element)
    requires stack != []
    ensures StackCost(stack + [e]) == StackCost(stack) + Charge(e)
  {
    assert (stack + [e])[..|stack|] == stack;
  }

  lemma {:induction false} CostOfInsert(stacks: seq<Stack>, stack: Stack)
    requires stack != [] && forall i :: 0 <= i < |stacks| ==> stacks[i] != []
    ensures Cost(InsertStack(stacks, stack)) == Cost(stacks) + StackCost(stack)
  {
    if stacks == [] || LastEnd(stack) <= LastEnd(stacks[0]) {
      assert ([stack] + stacks)[1..] == stacks;
    } else {
      CostOfInsert(stacks[1..], stack);
      assert InsertStack(stacks, stack)[1..] == InsertStack(stacks[1..], stack);
    }
  }

  lemma {:induction false} PushAllSnoc(stacks: seq<Stack>, jobs: seq<Job>, last: Job)
    requires WellFormed(stacks)
    ensures PushAll(stacks, jobs + [last]) == Push(PushAll(stacks, jobs), last)
    decreases |jobs|
  {
    if jobs == [] {
      assert [last][1..] == [];
    } else {
      PushAllSnoc(Push(stacks, jobs[0]), jobs[1..], last);
      assert (jobs + [last])[1..] == jobs[1..] + [last];
    }
  }

  /** An `add` raises the cost by the charge of the new placement alone. */
  lemma {:induction false} StepCost(stacks: seq<Stack>, job: Job)
    requires WellFormed(stacks)
    ensures Cost(Push(stacks, job)) == Cost(stacks) + Charge(Element(job.start, Ends(stacks)[0] + job.Duration()))
  {
    GrownFrontCost(stacks[0], stacks[1..], Placed(LastEnd(stacks[0]), job));
  }

  lemma {:induction false} GrownFrontCost(front: Stack, rest: seq<Stack>, e: Element)
    requires front != [] && forall i :: 0 <= i < |rest| ==> rest[i] != []
    ensures Cost(InsertStack(rest, front + [e])) == StackCost(front) + Cost(rest) + Charge(e)
  {
    StackCostAppend(front, e);
    CostOfInsert(rest, front + [e]);
  }

  lemma {:induction false} LatenessStep(loads: seq<real>, jobs: seq<Job>)
    requires loads != [] && jobs != []
    ensures var c := loads[0] + jobs[0].Duration();
      Lateness(Completions(loads, jobs), jobs)
      == Charge(Element(jobs[0].start, c)) + Lateness(Completions(Insert(loads[1..], c), jobs[1..]), jobs[1..])
  {
    var c := loads[0] + jobs[0].Duration();
    assert Completions(loads, jobs)[1..] == Completions(Insert(loads[1..], c), jobs[1..]);
  }

  /** After any run of adds the cost is the lateness of the greedy ends. */
  lemma {:induction false} CostIsLateness(stacks: seq<Stack>, jobs: seq<Job>)
    requires WellFormed(stacks) && Sorted(Ends(stacks))
    ensures Cost(PushAll(stacks, jobs)) == Cost(stacks) + Lateness(Completions(Ends(stacks), jobs), jobs)
    decreases |jobs|
  {
    if jobs != [] {
      var next, c := Push(stacks, jobs[0]), Ends(stacks)[0] + jobs[0].Duration();
      PushSorted(stacks, jobs[0]);
      CostIsLateness(next, jobs[1..]);
      assert PushAll(stacks, jobs) == PushAll(next, jobs[1..]);
      assert Cost(next) == Cost(stacks) + Charge(Element(jobs[0].start, c)) by { StepCost(stacks, jobs[0]); }
      LatenessStep(Ends(stacks), jobs);
    }
  }

  lemma {:induction false} InitialCost(values: seq<real>)
    ensures Cost(Initial(values)) == 0.0
  {
    if values != [] {
      InitialCost(values[1..]);
      assert Initial(values)[1..] == Initial(values[1..]);
    }
  }

  // ---------------------------------------------------------------- the heuristic as the planner uses it

  /** The order of the planner's set of unassigned invariants. */
  ghost predicate ByFinish(jobs: seq<Job>) {
    forall i, j :: 0 <= i <= j < |jobs| ==> jobs[i].finish <= jobs[j].finish
  }

  /** All jobs may start at the same time and none has a negative duration. */
  ghost predicate CommonStart(jobs: seq<Job>, s: real) {
    forall i :: 0 <= i < |jobs| ==> jobs[i].start == s && s <= jobs[i].finish
  }

  /** All jobs may start by `m` and none has a negative duration. */
  ghost predicate StartsBy(jobs: seq<Job>, m: real) {
    forall i :: 0 <= i < |jobs| ==> jobs[i].start <= m && jobs[i].start <= jobs[i].finish
  }

  /** With a common earliest start the estimate is a lower bound on every plan. */
  lemma {:induction false} Admissible(initial: seq<real>, jobs: seq<Job>, plan: seq<seq<Slot>>, s: real)
    requires initial != [] && CommonStart(jobs, s) && ByFinish(jobs)
    requires Feasible(plan, initial) && Covers(plan, jobs)
    ensures Cost(PushAll(Initial(SortReals(initial)), jobs)) <= PlanCost(plan)
  {
    EstimateIsLateness(initial, jobs);
    EstimateBound(initial, jobs, plan, s);
    NoSpread(jobs, s);
  }

  lemma {:induction false} EstimateIsLateness(initial: seq<real>, jobs: seq<Job>)
    requires initial != []
    ensures Cost(PushAll(Initial(SortReals(initial)), jobs))
         == Lateness(Completions(SortReals(initial), jobs), jobs)
  {
    var stacks := Initial(SortReals(initial));
    SortRealsSorts(initial);
    assert Ends(stacks) == SortReals(initial);
    CostIsLateness(stacks, jobs);
    InitialCost(SortReals(initial));
  }

  // ---------------------------------------------------------------- the order contract is exact

  /** The estimate for jobs added in this order. */
  ghost function Estimate(initial: seq<real>, jobs: seq<Job>): real
    requires initial != []
  {
    Cost(PushAll(Initial(SortReals(initial)), jobs))
  }

  /** The row of an agent that works through `q` without pause from `a`. */
  ghost function NoGaps(a: real, q: seq<Job>): seq<Slot>
    decreases |q|
  {
    if q == [] then [] else [Slot(q[0], a)] + NoGaps(a + q[0].Duration(), q[1..])
  }

  lemma {:induction false} NoGapsRow(a: real, q: seq<Job>, m: real, available: real)
    requires StartsBy(q, m) && m <= a && available <= a
    ensures RowJobs(NoGaps(a, q)) == q && RowFinish(NoGaps(a, q)) == FlowTime(a, q)
    ensures RowFeasible(NoGaps(a, q), available) && (q != [] ==> NoGaps(a, q)[0].begin == a)
    decreases |q|
  {
    if q != [] {
      var next := a + q[0].Duration();
      var rest, row := NoGaps(next, q[1..]), NoGaps(a, q);
      NoGapsRow(next, q[1..], m, available);
      assert row[1..] == rest && RowJobs(row) == [q[0]] + RowJobs(rest);
      forall k | 0 < k < |row| ensures row[k] == rest[k - 1] {}
    }
  }

  lemma {:induction false} OneAgentLateness(a: real, q: seq<Job>, m: real)
    requires StartsBy(q, m) && m <= a
    ensures Lateness(Completions([a], q), q) == FlowTime(a, q) - StartSum(q)
    decreases |q|
  {
    if q != [] {
      var c := a + q[0].Duration();
      OneAgentLateness(c, q[1..], m);
      assert [a][1..] == [] && Insert([], c) == [c];
      assert Completions([a], q)[1..] == Completions([c], q[1..]);
    }
  }

  /** Two neighbours in the other order. */
  ghost function Swapped(q: seq<Job>, i: nat): seq<Job>
    requires i + 1 < |q|
  {
    q[..i] + [q[i + 1], q[i]] + q[i + 2..]
  }

  lemma {:induction false} SwappedElements(q: seq<Job>, i: nat)
    requires i + 1 < |q|
    ensures multiset(Swapped(q, i)) == multiset(q)
  {
    assert q == q[..i] + [q[i], q[i + 1]] + q[i + 2..];
  }

  lemma {:induction false} SwapChangesFlow(a: real, q: seq<Job>, i: nat)
    requires i + 1 < |q|
    ensures FlowTime(a, Swapped(q, i)) == FlowTime(a, q) - (q[i].Duration() - q[i + 1].Duration())
    decreases i
  {
    if i == 0 {
      assert Swapped(q, 0) == [q[1]] + ([q[0]] + q[2..]) && q == [q[0]] + ([q[1]] + q[2..]);
      FlowTimeTwo(a, q[1], q[0], q[2..]);
      FlowTimeTwo(a, q[0], q[1], q[2..]);
    } else {
      SwapChangesFlow(a + q[0].Duration(), q[1..], i - 1);
      assert Swapped(q, i)[1..] == Swapped(q[1..], i - 1);
    }
  }

  lemma {:induction false} NeighboursSuffice(jobs: seq<Job>, i: nat, j: nat)
    requires forall k :: 0 <= k < |jobs| - 1 ==> jobs[k].Duration() <= jobs[k + 1].Duration()
    requires i <= j < |jobs|
    ensures jobs[i].Duration() <= jobs[j].Duration()
    decreases j
  {
    if i < j {
      NeighboursSuffice(jobs, i, j - 1);
    }
  }

  /** Two neighbours in the wrong order: one agent that takes them the other way round is cheaper. */
  lemma {:induction false} WrongOrderOverestimates(jobs: seq<Job>, m: real, i: nat)
    requires StartsBy(jobs, m) && i + 1 < |jobs| && jobs[i].Duration() > jobs[i + 1].Duration()
    ensures Overestimates([m], jobs, [NoGaps(m, Swapped(jobs, i))])
  {
    SwappedElements(jobs, i);
    OneAgentPlan(Swapped(jobs, i), jobs, m);
    SwapChangesFlow(m, jobs, i);
    OneAgentEstimate(jobs, m);
  }

  /** One agent, free once every job may start, works through the jobs without pause in some order. */
  lemma {:induction false} OneAgentPlan(q: seq<Job>, jobs: seq<Job>, m: real)
    requires StartsBy(q, m) && multiset(q) == multiset(jobs)
    ensures var plan := [NoGaps(m, q)];
      Feasible(plan, [m]) && Covers(plan, jobs) && PlanCost(plan) == FlowTime(m, q) - StartSum(jobs)
  {
    var row := NoGaps(m, q);
    NoGapsRow(m, q, m, m);
    RowCostSplits(row);
    StartSumIgnoresOrder(q, jobs);
    OneRow(row, m);
  }

  lemma {:induction false} OneRow(row: seq<Slot>, available: real)
    ensures Flat(PlanJobs([row])) == multiset(RowJobs(row)) && PlanCost([row]) == RowCost(row)
    ensures Feasible([row], [available]) <==> RowFeasible(row, available)
  {
    var q := RowJobs(row);
    assert [row][1..] == [] && PlanJobs([row]) == [q] && [q][1..] == [];
  }

  lemma {:induction false} OneAgentEstimate(jobs: seq<Job>, m: real)
    requires StartsBy(jobs, m)
    ensures Estimate([m], jobs) == FlowTime(m, jobs) - StartSum(jobs)
  {
    EstimateIsLateness([m], jobs);
    OneAgentLateness(m, jobs, m);
    assert SortReals([m]) == [m];
  }

  /** Jobs that are not added shortest first have two neighbours in the wrong order. */
  lemma {:induction false} WrongNeighbours(jobs: seq<Job>) returns (k: nat)
    requires !ShortestFirst(jobs)
    ensures k + 1 < |jobs| && jobs[k].Duration() > jobs[k + 1].Duration()
  {
    var i, j :| 0 <= i <= j < |jobs| && jobs[i].Duration() > jobs[j].Duration();
    if forall n :: 0 <= n < |jobs| - 1 ==> jobs[n].Duration() <= jobs[n + 1].Duration() {
      NeighboursSuffice(jobs, i, j);
      assert false;
    }
    k :| 0 <= k < |jobs| - 1 && jobs[k].Duration() > jobs[k + 1].Duration();
  }

  ghost predicate Overestimates(initial: seq<real>, jobs: seq<Job>, plan: seq<seq<Slot>>) {
    initial != [] && Feasible(plan, initial) && Covers(plan, jobs) && PlanCost(plan) < Estimate(initial, jobs)
  }

  /**
   The order contract is exact: for jobs with a common earliest start, added in any order, the
   estimate never exceeds a plan, whatever the agents, if and only if the order is shortest first.
   */
  lemma {:induction false} OrderContractExact(jobs: seq<Job>, s: real)
    requires CommonStart(jobs, s)
    ensures ShortestFirst(jobs) <==> forall initial, plan :: !Overestimates(initial, jobs, plan)
  {
    if ShortestFirst(jobs) {
      forall initial, plan | Overestimates(initial, jobs, plan) ensures false {
        EstimateIsLateness(initial, jobs);
        EstimateBound(initial, jobs, plan, s);
        NoSpread(jobs, s);
      }
    } else {
      var k := WrongNeighbours(jobs);
      WrongOrderOverestimates(jobs, s, k);
    }
  }

  /**
   The same for jobs with any earliest starts, on agents that are busy until all jobs may start:
   the estimate never exceeds a plan on such agents if and only if the order is shortest first.
   */
  lemma {:induction false} LateAgentsExact(jobs: seq<Job>, m: real)
    requires StartsBy(jobs, m)
    ensures ShortestFirst(jobs)
       <==> forall initial, plan :: AtLeast(initial, m) ==> !Overestimates(initial, jobs, plan)
  {
    if ShortestFirst(jobs) {
      forall initial, plan | AtLeast(initial, m) && Overestimates(initial, jobs, plan) ensures false {
        LateAgentsAdmissible(initial, jobs, plan, m);
      }
    } else {
      var k := WrongNeighbours(jobs);
      WrongOrderOverestimates(jobs, m, k);
      assert AtLeast([m], m);
    }
  }

  lemma {:induction false} LateAgentsAdmissible(initial: seq<real>, jobs: seq<Job>, plan: seq<seq<Slot>>, m: real)
    requires initial != [] && StartsBy(jobs, m) && ShortestFirst(jobs) && AtLeast(initial, m)
    requires Feasible(plan, initial) && Covers(plan, jobs)
    ensures Estimate(initial, jobs) <= PlanCost(plan)
  {
    EstimateIsLateness(initial, jobs);
    var sorted := SortReals(initial);
    SortRealsSorts(initial);
    SortAtLeast(initial, m);
    CompletionsAtLeast(sorted, jobs, m);
    LatenessUnclipped(Completions(sorted, jobs), jobs, m);
    CompletionsAreLeastLoaded(sorted, jobs);
    LeastLoadedIgnoresOrder(sorted, initial, jobs);
    LeastLoadedOptimal(initial, jobs, PlanJobs(plan));
    GaplessBound(plan, initial);
    StartSumIgnoresOrder(FlatSeq(PlanJobs(plan)), jobs);
  }

  /** The invariant part of the planner's heuristic h(n). */
  method ComputeH(initial: seq<real>, jobs: seq<Job>) returns (h: real)
    requires initial != []
    ensures h == Lateness(LeastLoaded(initial, jobs), jobs)
    ensures forall plan, s ::
      CommonStart(jobs, s) && ByFinish(jobs) && Feasible(plan, initial) && Covers(plan, jobs)
      ==> h <= PlanCost(plan)
  {
    var queue := new InvariantHeuristicQueue(initial);
    ghost var first := queue.stacks;
    for i := 0 to |jobs|
      invariant queue.Valid()
      invariant queue.stacks == PushAll(first, jobs[..i])
    {
      queue.Add(jobs[i].start, jobs[i].finish);
      PushAllSnoc(first, jobs[..i], jobs[i]);
      assert jobs[..i + 1] == jobs[..i] + [jobs[i]];
    }
    assert jobs[..|jobs|] == jobs;
    h := queue.ComputeCost();
    EstimateIsLateness(initial, jobs);
    SortRealsSorts(initial);
    CompletionsAreLeastLoaded(SortReals(initial), jobs);
    LeastLoadedIgnoresOrder(SortReals(initial), initial, jobs);
    forall plan, s | CommonStart(jobs, s) && ByFinish(jobs) && Feasible(plan, initial) && Covers(plan, jobs)
      ensures h <= PlanCost(plan)
    {
      Admissible(initial, jobs, plan, s);
    }
  }

  /**
   Ordering by finish is ordering by duration only for equal earliest starts.  A long job that
   may start early and a short job that may start late come in the wrong order, and one agent
   that is free only later makes the estimate exceed a plan.
   */
  lemma UnequalStartsOverestimate() returns (initial: seq<real>, jobs: seq<Job>, plan: seq<seq<Slot>>)
    ensures initial != [] && ByFinish(jobs) && NonNegative(jobs)
    ensures Overestimates(initial, jobs, plan)
  {
    var long, short := Job(0.0, 10.0), Job(9.5, 10.5);
    initial, jobs := [9.5], [long, short];
    plan := [NoGaps(9.5, Swapped(jobs, 0))];
    WrongOrderOverestimates(jobs, 9.5, 0);
  }

  /**
   Agents that are free before some job may start are a different matter: even shortest first, the
   estimate can exceed a plan, because a short job that starts late delays the others in the queue
   but not in the plan.
   */
  lemma EarlyAgentOverestimates() returns (initial: seq<real>, jobs: seq<Job>, plan: seq<seq<Slot>>)
    ensures ShortestFirst(jobs) && NonNegative(jobs) && Overestimates(initial, jobs, plan)
  {
    var late, early := Job(100.0, 101.0), Job(0.0, 2.0);
    initial, jobs := [0.0], [late, early, early];
    plan := [[Slot(early, 0.0), Slot(early, 2.0), Slot(late, 100.0)]];
    EstimateIsLateness(initial, jobs);
    EarlyAgentEstimate(late, early);
    EarlyAgentPlan(late, early);
  }

  lemma EarlyAgentEstimate(late: Job, early: Job)
    requires late == Job(100.0, 101.0) && early == Job(0.0, 2.0)
    ensures Lateness(Completions(SortReals([0.0]), [late, early, early]), [late, early, early]) == 8.0
  {
    assert [late, early, early][1..] == [early, early] && [early, early][1..] == [early] && [early][1..] == [];
    assert SortReals([0.0]) == [0.0];
    assert Completions([3.0], [early]) == [5.0];
    assert Completions([1.0], [early, early]) == [3.0, 5.0];
    assert Completions([0.0], [late, early, early]) == [1.0, 3.0, 5.0];
    assert [1.0, 3.0, 5.0][1..] == [3.0, 5.0] && [3.0, 5.0][1..] == [5.0];
    assert Lateness([5.0], [early]) == 5.0;
    assert Lateness([3.0, 5.0], [early, early]) == 8.0;
  }

  lemma EarlyAgentPlan(late: Job, early: Job)
    requires late == Job(100.0, 101.0) && early == Job(0.0, 2.0)
    ensures var plan := [[Slot(early, 0.0), Slot(early, 2.0), Slot(late, 100.0)]];
      Feasible(plan, [0.0]) && Covers(plan, [late, early, early]) && PlanCost(plan) == 7.0
  {
    var row := [Slot(early, 0.0), Slot(early, 2.0), Slot(late, 100.0)];
    OneRow(row, 0.0);
    assert row[1..] == [Slot(early, 2.0), Slot(late, 100.0)] && row[1..][1..] == [Slot(late, 100.0)];
    assert RowCost([Slot(late, 100.0)]) == 1.0;
    assert RowCost(row[1..]) == 5.0;
    assert RowJobs(row) == [early, early, late];
  }
}
