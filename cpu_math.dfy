/** The CPU math benchmark's work bookkeeping (cpu_math.cpp): the split of
    `total_iterations` into 100 tasks, the dynamic claiming of those tasks with an
    atomic `fetch_add`, the progress sum, and the single-core progress reporter.
    The floating-point work itself (`heavy_math`) is not modelled. */
module CpuMath {

  import opened Common

  const NUM_TASKS: nat := 100
  const DEFAULT_ITERATIONS: nat := 70000000

  // ---------------------------------------------------------------------------
  // The static task boundaries (cpu_math.cpp:116-118, 147-148)

  function TaskSize(total: nat): nat { total / NUM_TASKS }

  function Remainder(total: nat): nat { total % NUM_TASKS }

  /** `task_start` of task `i`. */
  function TaskStart(total: nat, i: nat): nat
  {
    i * TaskSize(total) + (if i < Remainder(total) then i else Remainder(total))
  }

  /** `task_end` of task `i` (exclusive). */
  function TaskEnd(total: nat, i: nat): nat
  {
    TaskStart(total, i) + TaskSize(total) + (if i < Remainder(total) then 1 else 0)
  }

  /** Number of iterations task `i` runs. */
  function TaskUnits(total: nat, i: nat): nat
  {
    TaskEnd(total, i) - TaskStart(total, i)
  }

  /** Consecutive tasks are contiguous: each task ends where the next begins. */
  lemma TaskEndIsNextStart(total: nat, i: nat)
    ensures TaskEnd(total, i) == TaskStart(total, i + 1)
  {
    var q := TaskSize(total);
    assert (i + 1) * q == i * q + q;
  }

  /** The first task starts at 0 and the last one ends at `total_iterations`. */
  lemma TasksSpanWholeRange(total: nat)
    ensures TaskStart(total, 0) == 0
    ensures TaskEnd(total, NUM_TASKS - 1) == total
    ensures TaskStart(total, NUM_TASKS) == total
  {
    TaskEndIsNextStart(total, NUM_TASKS - 1);
    assert TaskStart(total, NUM_TASKS) == NUM_TASKS * TaskSize(total) + Remainder(total);
  }

  /** Task sizes differ by at most one, and exactly the first `remainder` tasks get
      the extra unit. */
  lemma TaskSizesBalanced(total: nat, i: nat, j: nat)
    requires i < NUM_TASKS && j < NUM_TASKS
    ensures TaskUnits(total, i) == TaskSize(total) + 1 <==> i < Remainder(total)
    ensures TaskUnits(total, i) == TaskSize(total) <==> i >= Remainder(total)
    ensures TaskUnits(total, i) - TaskUnits(total, j) in {-1, 0, 1}
  {
  }

  /** Earlier tasks lie entirely before later ones: no two tasks overlap. */
  lemma {:induction false} TasksOrdered(total: nat, i: nat, j: nat)
    requires i < j
    ensures TaskEnd(total, i) <= TaskStart(total, j)
    decreases j - i
  {
    TaskEndIsNextStart(total, i);
    if i + 1 < j {
      TasksOrdered(total, i + 1, j);
    }
  }

  /** The task that runs iteration `x`, found by scanning from task `k` upwards. */
  function TaskContaining(total: nat, x: nat, k: nat): (i: nat)
    requires k < NUM_TASKS && TaskStart(total, k) <= x < total
    ensures k <= i < NUM_TASKS && TaskStart(total, i) <= x < TaskEnd(total, i)
    decreases NUM_TASKS - k
  {
    TaskEndIsNextStart(total, k);
    TasksSpanWholeRange(total);
    if x < TaskEnd(total, k) then k else TaskContaining(total, x, k + 1)
  }

  /** The 100 tasks partition `[0, total_iterations)`: every iteration belongs to
      exactly one task. */
  lemma TasksPartition(total: nat, x: nat)
    requires x < total
    ensures exists i :: 0 <= i < NUM_TASKS && TaskStart(total, i) <= x < TaskEnd(total, i)
    ensures forall i, j ::
      (0 <= i < NUM_TASKS && 0 <= j < NUM_TASKS &&
       TaskStart(total, i) <= x < TaskEnd(total, i) &&
       TaskStart(total, j) <= x < TaskEnd(total, j)) ==> i == j
  {
    TasksSpanWholeRange(total);
    var i := TaskContaining(total, x, 0);
    forall i, j | 0 <= i < NUM_TASKS && 0 <= j < NUM_TASKS &&
      TaskStart(total, i) <= x < TaskEnd(total, i) &&
      TaskStart(total, j) <= x < TaskEnd(total, j)
      ensures i == j
    {
      if i < j { TasksOrdered(total, i, j); }
      if j < i { TasksOrdered(total, j, i); }
    }
  }

  // ---------------------------------------------------------------------------
  // Dynamic claiming by the worker threads (cpu_math.cpp:120-121, 134-168)

  /** The two atomics shared by the workers of one multi-core run. */
  class TaskPool {
    /** `next_task` */
    var next: int
    /** `completed_iterations` */
    var completed: int

    constructor ()
      ensures next == 0 && completed == 0
    {
      next := 0;
      completed := 0;
    }

    /** `next_task.fetch_add(1)`: hands out the current index and advances it. */
    method Claim() returns (index: int)
      modifies this`next
      ensures index == old(next) && next == old(next) + 1
    {
      index := next;
      next := next + 1;
    }

    /** `completed_iterations.fetch_add(units) + units`: the sum after the add. */
    method AddCompleted(units: nat) returns (after: int)
      modifies this`completed
      ensures completed == old(completed) + units && after == completed
    {
      completed := completed + units;
      after := completed;
    }
  }

  /** Where one worker thread is in its `while (true)` loop: about to claim, holding a
      claimed task whose iterations it is running, between adding the task's units to
      `completed_iterations` (which returned `after`) and sending `after` as progress,
      or gone after a claim at or above `num_tasks`. */
  datatype Worker = Idle | Holding(task: nat) | Reporting(after: int) | Exited

  /** One successful claim: which worker got which task index. */
  datatype ClaimRecord = ClaimRecord(worker: nat, task: nat)

  datatype MulticoreResult =
    /** `total_iterations <= 0` or a null activity: 0 is returned before any thread starts. */
    | NotStarted
    /** All workers joined. `sums` are the values the `completed_iterations.fetch_add`
        calls produced, in the order the adds happened; `reports` are the numerators
        (over `total_iterations`) of the progress values sent, in the order they were
        sent, the last one being the final 1.0. */
    | Joined(workers: nat, claims: seq<ClaimRecord>, sums: seq<int>, reports: seq<int>, completed: int)

  function HeldUnits(total: nat, w: Worker): nat
  {
    if w.Holding? then TaskUnits(total, w.task) else 0
  }

  /** Iterations claimed but not yet added to `completed_iterations`. */
  function Pending(total: nat, ws: seq<Worker>): nat
  {
    if ws == [] then 0 else Pending(total, ws[..|ws| - 1]) + HeldUnits(total, ws[|ws| - 1])
  }

  /** Number of workers holding a task. */
  function HeldCount(ws: seq<Worker>): nat
  {
    if ws == [] then 0 else HeldCount(ws[..|ws| - 1]) + (if ws[|ws| - 1].Holding? then 1 else 0)
  }

  function ReportOf(w: Worker): multiset<int>
  {
    if w.Reporting? then multiset{w.after} else multiset{}
  }

  /** Sums that have been added but not yet sent as progress. */
  function Unreported(ws: seq<Worker>): multiset<int>
  {
    UnreportedIn(ws, |ws|)
  }

  /** The unsent sums of the first `n` workers. */
  function UnreportedIn(ws: seq<Worker>, n: nat): multiset<int>
    requires n <= |ws|
  {
    if n == 0 then multiset{} else UnreportedIn(ws, n - 1) + ReportOf(ws[n - 1])
  }

  lemma {:induction false} PendingUpdate(total: nat, ws: seq<Worker>, k: nat, w: Worker)
    requires k < |ws|
    ensures Pending(total, ws[k := w]) == Pending(total, ws) - HeldUnits(total, ws[k]) + HeldUnits(total, w)
    ensures HeldCount(ws[k := w]) == HeldCount(ws) - (if ws[k].Holding? then 1 else 0) + (if w.Holding? then 1 else 0)
  {
    var n := |ws|;
    var ws' := ws[k := w];
    if k < n - 1 {
      assert ws'[..n - 1] == ws[..n - 1][k := w];
      PendingUpdate(total, ws[..n - 1], k, w);
    } else {
      assert ws'[..n - 1] == ws[..n - 1];
    }
  }

  /** Replacing worker `k` by `w` swaps its unsent sum (if any) for that of `w`. */
  lemma UnreportedUpdate(ws: seq<Worker>, k: nat, w: Worker)
    requires k < |ws|
    ensures Unreported(ws[k := w]) + ReportOf(ws[k]) == Unreported(ws) + ReportOf(w)
  {
    UnreportedUpdateIn(ws, k, w, |ws|);
  }

  lemma {:induction false} UnreportedUpdateIn(ws: seq<Worker>, k: nat, w: Worker, n: nat)
    requires k < n <= |ws|
    ensures UnreportedIn(ws[k := w], n) + ReportOf(ws[k]) == UnreportedIn(ws, n) + ReportOf(w)
  {
    var ws' := ws[k := w];
    if n == k + 1 {
      UnreportedBelow(ws, k, w, k);
      var a := UnreportedIn(ws, k);
      assert UnreportedIn(ws', n) == a + ReportOf(w);
      assert UnreportedIn(ws, n) == a + ReportOf(ws[k]);
      SwapLast(a, ReportOf(w), ReportOf(ws[k]));
    } else {
      UnreportedUpdateIn(ws, k, w, n - 1);
      assert ws'[n - 1] == ws[n - 1];
      AddToBothSides(UnreportedIn(ws', n - 1), ReportOf(ws[k]), UnreportedIn(ws, n - 1), ReportOf(w), ReportOf(ws[n - 1]));
    }
  }

  /** Workers after the first `n` do not affect their unsent sums. */
  lemma {:induction false} UnreportedBelow(ws: seq<Worker>, k: nat, w: Worker, n: nat)
    requires n <= k < |ws|
    ensures UnreportedIn(ws[k := w], n) == UnreportedIn(ws, n)
  {
    if n > 0 {
      UnreportedBelow(ws, k, w, n - 1);
    }
  }

  /** Workers that hold no unsent sum contribute none. */
  lemma {:induction false} UnreportedNone(ws: seq<Worker>, n: nat)
    requires n <= |ws| && forall v :: 0 <= v < n ==> !ws[v].Reporting?
    ensures UnreportedIn(ws, n) == multiset{}
  {
    if n > 0 {
      UnreportedNone(ws, n - 1);
    }
  }

  lemma SwapLast(a: multiset<int>, b: multiset<int>, c: multiset<int>)
    ensures (a + b) + c == (a + c) + b
  {
  }

  lemma AddToBothSides(a: multiset<int>, b: multiset<int>, c: multiset<int>, d: multiset<int>, e: multiset<int>)
    requires a + b == c + d
    ensures (a + e) + b == (c + e) + d
  {
    assert (a + e) + b == (a + b) + e;
    assert (c + e) + d == (c + d) + e;
  }

  lemma {:induction false} NothingPendingWhenAllExited(total: nat, ws: seq<Worker>)
    requires forall v :: 0 <= v < |ws| ==> ws[v].Exited?
    ensures Pending(total, ws) == 0 && HeldCount(ws) == 0 && Unreported(ws) == multiset{}
  {
    if ws != [] {
      NothingPendingWhenAllExited(total, ws[..|ws| - 1]);
    }
    UnreportedNone(ws, |ws|);
  }

  predicate Sorted(s: seq<int>)
  {
    forall i, j :: 0 <= i <= j < |s| ==> s[i] <= s[j]
  }

  predicate StrictlyIncreasing(s: seq<int>)
  {
    forall i, j :: 0 <= i < j < |s| ==> s[i] < s[j]
  }

  /** Each element is at least (or, when `strict`, above) the one before it. */
  predicate StepsUp(s: seq<int>, strict: bool)
  {
    forall i :: 0 < i < |s| ==> if strict then s[i - 1] < s[i] else s[i - 1] <= s[i]
  }

  /** Comparing neighbours is enough: a sequence that never steps down is sorted, and
      one that always steps up is strictly increasing. */
  lemma {:induction false} StepsUpOrdered(s: seq<int>, strict: bool)
    requires StepsUp(s, strict)
    ensures Sorted(s)
    ensures strict ==> StrictlyIncreasing(s)
  {
    if |s| > 1 {
      var p := s[..|s| - 1];
      assert StepsUp(p, strict);
      StepsUpOrdered(p, strict);
      forall i, j | 0 <= i <= j < |s|
        ensures s[i] <= s[j]
        ensures strict && i < j ==> s[i] < s[j]
      {
        if j < |s| - 1 {
          assert s[i] == p[i] && s[j] == p[j];
        } else if i < j {
          assert s[i] == p[i] && s[j - 1] == p[j - 1];
        }
      }
    }
  }

  /** When there are at least as many iterations as tasks, every task runs at least one
      iteration, so every add moves `completed_iterations` forward. */
  lemma TaskUnitsPositive(total: nat, i: nat)
    requires total >= NUM_TASKS
    ensures TaskUnits(total, i) >= 1
  {
  }

  /** Claims so far: task indices are handed out in order, each claim names a worker,
      a holding worker holds the task it claimed, and a worker has exited only once
      `next_task` passed `num_tasks`. */
  ghost predicate ClaimsOk(next: int, ws: seq<Worker>, claims: seq<ClaimRecord>)
  {
    var k := Min(next, NUM_TASKS);
    && 0 <= next
    && |claims| == k
    && (forall i :: 0 <= i < k ==> claims[i].task == i && claims[i].worker < |ws|)
    && (forall v :: 0 <= v < |ws| && ws[v].Holding? ==> ws[v].task < k && claims[ws[v].task].worker == v)
    && (forall v :: 0 <= v < |ws| && ws[v].Exited? ==> next > NUM_TASKS)
  }

  /** `completed_iterations` plus the iterations still held is the start of the first
      unclaimed task; one add per finished task, each returning the running sum. */
  ghost predicate SumsOk(total: nat, next: int, completed: int, ws: seq<Worker>, sums: seq<int>)
  {
    && 0 <= next
    && completed + Pending(total, ws) == TaskStart(total, Min(next, NUM_TASKS))
    && |sums| + HeldCount(ws) == Min(next, NUM_TASKS)
    && (if |sums| == 0 then completed == 0 else sums[|sums| - 1] == completed)
    && StepsUp(sums, total >= NUM_TASKS)
    && (forall i :: 0 <= i < |sums| ==> 0 <= sums[i] <= completed)
  }

  /** Every sum is either sent already or still held by the worker that got it. */
  ghost predicate ReportsOk(ws: seq<Worker>, sums: seq<int>, reports: seq<int>)
  {
    multiset(reports) + Unreported(ws) == multiset(sums)
  }

  /** The invariant tying the two atomics to the workers' states and to what has been
      handed out, added and reported so far. */
  ghost predicate Consistent(total: nat, next: int, completed: int, ws: seq<Worker>,
                             claims: seq<ClaimRecord>, sums: seq<int>, reports: seq<int>)
  {
    ClaimsOk(next, ws, claims) && SumsOk(total, next, completed, ws, sums) && ReportsOk(ws, sums, reports)
  }

  /** How far worker `w` is from exiting, given the current `next_task`. */
  function StepsLeft(w: Worker, next: int): nat
  {
    var remaining := if next < NUM_TASKS then NUM_TASKS - next else 0;
    match w
    case Exited => 0
    case Idle => 3 * remaining + 1
    case Reporting(_) => 3 * remaining + 2
    case Holding(_) => 3 * remaining + 3
  }

  lemma MoveOne(reports: multiset<int>, held: multiset<int>, held': multiset<int>, a: int, sums: multiset<int>)
    requires reports + held == sums && held' + multiset{a} == held
    ensures (reports + multiset{a}) + held' == sums
  {
    assert (reports + multiset{a}) + held' == reports + (held' + multiset{a});
  }

  lemma AddOne(reports: multiset<int>, held: multiset<int>, held': multiset<int>, a: int, sums: multiset<int>)
    requires reports + held == sums && held' == held + multiset{a}
    ensures reports + held' == sums + multiset{a}
  {
    assert reports + held' == (reports + held) + multiset{a};
  }

  lemma UnionEmpty(m: multiset<int>)
    ensures m + multiset{} == m
  {
  }

  /** A worker that holds no unsent sum before or after the change leaves the unsent
      sums as they were. */
  lemma UnreportedKept(ws: seq<Worker>, k: nat, w: Worker)
    requires k < |ws| && !ws[k].Reporting? && !w.Reporting?
    ensures Unreported(ws[k := w]) == Unreported(ws)
  {
    UnreportedUpdate(ws, k, w);
    UnionEmpty(Unreported(ws[k := w]));
    UnionEmpty(Unreported(ws));
  }

  /** A claim keeps the invariant: below `num_tasks` the worker now holds the next
      task, which is recorded as its claim; otherwise it leaves its loop. */
  lemma ClaimStep(total: nat, next: int, completed: int, ws: seq<Worker>,
                  claims: seq<ClaimRecord>, sums: seq<int>, reports: seq<int>, w: nat)
    requires w < |ws| && ws[w].Idle? && Consistent(total, next, completed, ws, claims, sums, reports)
    ensures next >= NUM_TASKS ==>
      Consistent(total, next + 1, completed, ws[w := Exited], claims, sums, reports)
    ensures next < NUM_TASKS ==>
      Consistent(total, next + 1, completed, ws[w := Holding(next)], claims + [ClaimRecord(w, next)], sums, reports)
  {
    var w' := if next >= NUM_TASKS then Exited else Holding(next);
    UnreportedKept(ws, w, w');
    PendingUpdate(total, ws, w, w');
    if next < NUM_TASKS {
      TaskEndIsNextStart(total, next);
      ClaimsAfterClaim(next, ws, claims, w);
    }
  }

  lemma ClaimsAfterClaim(next: int, ws: seq<Worker>, claims: seq<ClaimRecord>, w: nat)
    requires w < |ws| && ws[w].Idle? && ClaimsOk(next, ws, claims) && next < NUM_TASKS
    ensures ClaimsOk(next + 1, ws[w := Holding(next)], claims + [ClaimRecord(w, next)])
  {
  }

  /** A worker that moves to a state holding no task keeps the claims consistent. */
  lemma ClaimsAfterRelease(next: int, ws: seq<Worker>, claims: seq<ClaimRecord>, w: nat, w': Worker)
    requires w < |ws| && ClaimsOk(next, ws, claims) && (w'.Idle? || w'.Reporting?)
    ensures ClaimsOk(next, ws[w := w'], claims)
  {
  }

  /** Adding a finished task's units keeps the invariant: the new sum is at least
      every earlier one (strictly above when every task has an iteration), and it is
      the one sum the worker still has to send. */
  lemma AddStep(total: nat, next: int, completed: int, ws: seq<Worker>,
                claims: seq<ClaimRecord>, sums: seq<int>, reports: seq<int>, w: nat, after: int)
    requires w < |ws| && ws[w].Holding? && Consistent(total, next, completed, ws, claims, sums, reports)
    requires after == completed + TaskUnits(total, ws[w].task)
    ensures Consistent(total, next, after, ws[w := Reporting(after)], claims, sums + [after], reports)
  {
    ClaimsAfterRelease(next, ws, claims, w, Reporting(after));
    SumsAfterAdd(total, next, completed, ws, sums, w, after);
    ReportsAfterAdd(ws, sums, reports, w, after);
  }

  lemma SumsAfterAdd(total: nat, next: int, completed: int, ws: seq<Worker>, sums: seq<int>, w: nat, after: int)
    requires w < |ws| && ws[w].Holding? && SumsOk(total, next, completed, ws, sums)
    requires after == completed + TaskUnits(total, ws[w].task)
    ensures SumsOk(total, next, after, ws[w := Reporting(after)], sums + [after])
  {
    if total >= NUM_TASKS {
      TaskUnitsPositive(total, ws[w].task);
    }
    PendingUpdate(total, ws, w, Reporting(after));
  }

  lemma ReportsAfterAdd(ws: seq<Worker>, sums: seq<int>, reports: seq<int>, w: nat, after: int)
    requires w < |ws| && ws[w].Holding? && ReportsOk(ws, sums, reports)
    ensures ReportsOk(ws[w := Reporting(after)], sums + [after], reports)
  {
    UnreportedUpdate(ws, w, Reporting(after));
    assert ReportOf(ws[w]) == multiset{};
    UnionEmpty(Unreported(ws[w := Reporting(after)]));
    assert multiset(sums + [after]) == multiset(sums) + multiset{after};
    AddOne(multiset(reports), Unreported(ws), Unreported(ws[w := Reporting(after)]), after, multiset(sums));
  }

  /** Sending the pending sum keeps the invariant: it moves from the worker to the
      reports. */
  lemma ReportStep(total: nat, next: int, completed: int, ws: seq<Worker>,
                   claims: seq<ClaimRecord>, sums: seq<int>, reports: seq<int>, w: nat)
    requires w < |ws| && ws[w].Reporting? && Consistent(total, next, completed, ws, claims, sums, reports)
    ensures Consistent(total, next, completed, ws[w := Idle], claims, sums, reports + [ws[w].after])
  {
    ClaimsAfterRelease(next, ws, claims, w, Idle);
    PendingUpdate(total, ws, w, Idle);
    UnreportedUpdate(ws, w, Idle);
    assert ReportOf(Idle) == multiset{};
    assert multiset(reports + [ws[w].after]) == multiset(reports) + multiset{ws[w].after};
    MoveOne(multiset(reports), Unreported(ws), Unreported(ws[w := Idle]), ws[w].after, multiset(sums));
  }

  /** Worker `w` claims: `next_task.fetch_add(1)`; at or above `num_tasks` it leaves
      its loop, otherwise it holds the claimed task. */
  method TakeTask(pool: TaskPool, total: nat, ws: seq<Worker>, w: nat,
                  claims: seq<ClaimRecord>, sums: seq<int>, reports: seq<int>)
    returns (ws': seq<Worker>, claims': seq<ClaimRecord>)
    requires w < |ws| && ws[w].Idle? && Consistent(total, pool.next, pool.completed, ws, claims, sums, reports)
    modifies pool
    ensures pool.next == old(pool.next) + 1 && pool.completed == old(pool.completed)
    ensures old(pool.next) >= NUM_TASKS ==> ws' == ws[w := Exited] && claims' == claims
    ensures old(pool.next) < NUM_TASKS ==>
      ws' == ws[w := Holding(old(pool.next))] && claims' == claims + [ClaimRecord(w, old(pool.next))]
    ensures Consistent(total, pool.next, pool.completed, ws', claims', sums, reports)
  {
    ClaimStep(total, pool.next, pool.completed, ws, claims, sums, reports, w);
    var index := pool.Claim();
    if index >= NUM_TASKS {
      ws', claims' := ws[w := Exited], claims;
    } else {
      ws', claims' := ws[w := Holding(index)], claims + [ClaimRecord(w, index)];
    }
  }

  /** Worker `w` has run its task's iterations and adds them to
      `completed_iterations`, keeping the sum the add returned to send next. */
  method FinishTask(pool: TaskPool, total: nat, ws: seq<Worker>, w: nat,
                    claims: seq<ClaimRecord>, sums: seq<int>, reports: seq<int>)
    returns (ws': seq<Worker>, sums': seq<int>)
    requires w < |ws| && ws[w].Holding? && Consistent(total, pool.next, pool.completed, ws, claims, sums, reports)
    modifies pool
    ensures pool.next == old(pool.next) && pool.completed == old(pool.completed) + TaskUnits(total, ws[w].task)
    ensures ws' == ws[w := Reporting(pool.completed)] && sums' == sums + [pool.completed]
    ensures Consistent(total, pool.next, pool.completed, ws', claims, sums', reports)
  {
    AddStep(total, pool.next, pool.completed, ws, claims, sums, reports, w,
            pool.completed + TaskUnits(total, ws[w].task));
    var after := pool.AddCompleted(TaskUnits(total, ws[w].task));
    ws', sums' := ws[w := Reporting(after)], sums + [after];
  }

  /** One turn of worker `w` in its loop: claim a task (or exit); or finish the held
      task and add its iterations to the progress sum; or send the sum it got back as
      progress. The add and the send are separate turns, so other workers may add in
      between. */
  method WorkerStep(pool: TaskPool, total: nat, ws: seq<Worker>, w: nat,
                    claims: seq<ClaimRecord>, sums: seq<int>, reports: seq<int>)
    returns (ws': seq<Worker>, claims': seq<ClaimRecord>, sums': seq<int>, reports': seq<int>)
    requires w < |ws| && Consistent(total, pool.next, pool.completed, ws, claims, sums, reports)
    modifies pool
    ensures Consistent(total, pool.next, pool.completed, ws', claims', sums', reports')
    ensures |ws'| == |ws| && forall v :: 0 <= v < |ws| && v != w ==> ws'[v] == ws[v]
    ensures ws[w].Exited? ==> ws' == ws && claims' == claims && sums' == sums && reports' == reports
                              && pool.next == old(pool.next)
    ensures !ws[w].Exited? ==> StepsLeft(ws'[w], pool.next) < StepsLeft(ws[w], old(pool.next))
  {
    ws', claims', sums', reports' := ws, claims, sums, reports;
    match ws[w]
    case Exited =>
    case Idle =>
      ws', claims' := TakeTask(pool, total, ws, w, claims, sums, reports);
    case Holding(t) =>
      ws', sums' := FinishTask(pool, total, ws, w, claims, sums, reports);
    case Reporting(after) =>
      // `CallVoidMethod(..., update_progress_method_id, progress)`
      ReportStep(total, pool.next, pool.completed, ws, claims, sums, reports, w);
      ws', reports' := ws[w := Idle], reports + [after];
  }

  /** The interleaved part of the run: the workers take turns in the order given by
      `schedule` (ids at or above the worker count are ignored). */
  method RunTurns(pool: TaskPool, total: nat, ws: seq<Worker>, claims: seq<ClaimRecord>,
                  sums: seq<int>, reports: seq<int>, schedule: seq<nat>)
    returns (ws': seq<Worker>, claims': seq<ClaimRecord>, sums': seq<int>, reports': seq<int>)
    requires Consistent(total, pool.next, pool.completed, ws, claims, sums, reports)
    modifies pool
    ensures |ws'| == |ws| && Consistent(total, pool.next, pool.completed, ws', claims', sums', reports')
  {
    ws', claims', sums', reports' := ws, claims, sums, reports;
    for s := 0 to |schedule|
      invariant |ws'| == |ws|
      invariant Consistent(total, pool.next, pool.completed, ws', claims', sums', reports')
    {
      if schedule[s] < |ws'| {
        ws', claims', sums', reports' := WorkerStep(pool, total, ws', schedule[s], claims', sums', reports');
      }
    }
  }

  /** `for (auto &th : threads) th.join();`: each worker in turn runs until it leaves
      its loop. */
  method JoinWorkers(pool: TaskPool, total: nat, ws: seq<Worker>, claims: seq<ClaimRecord>,
                     sums: seq<int>, reports: seq<int>)
    returns (ws': seq<Worker>, claims': seq<ClaimRecord>, sums': seq<int>, reports': seq<int>)
    requires Consistent(total, pool.next, pool.completed, ws, claims, sums, reports)
    modifies pool
    ensures |ws'| == |ws| && Consistent(total, pool.next, pool.completed, ws', claims', sums', reports')
    ensures forall v :: 0 <= v < |ws'| ==> ws'[v].Exited?
  {
    ws', claims', sums', reports' := ws, claims, sums, reports;
    for w := 0 to |ws|
      invariant |ws'| == |ws|
      invariant Consistent(total, pool.next, pool.completed, ws', claims', sums', reports')
      invariant forall v :: 0 <= v < w ==> ws'[v].Exited?
    {
      while !ws'[w].Exited?
        invariant |ws'| == |ws|
        invariant Consistent(total, pool.next, pool.completed, ws', claims', sums', reports')
        invariant forall v :: 0 <= v < w ==> ws'[v].Exited?
        decreases StepsLeft(ws'[w], pool.next)
      {
        ws', claims', sums', reports' := WorkerStep(pool, total, ws', w, claims', sums', reports');
      }
    }
  }

  /** `run_multicore_benchmark` (cpu_math.cpp:109-178). The workers take turns in the
      order given by `schedule` (an arbitrary interleaving); the join then lets every
      worker still running finish, one after another. */
  method RunMulticore(total: int, hasActivity: bool, hardwareConcurrency: nat, schedule: seq<nat>)
    returns (r: MulticoreResult)
    ensures r.NotStarted? <==> total <= 0 || !hasActivity
    ensures r.Joined? ==>
      && r.workers == (if hardwareConcurrency < 1 then 1 else hardwareConcurrency)
      && |r.claims| == NUM_TASKS
      && (forall i :: 0 <= i < NUM_TASKS ==> r.claims[i].task == i && r.claims[i].worker < r.workers)
      && r.completed == total
      && |r.sums| == NUM_TASKS
      && Sorted(r.sums)
      && (total >= NUM_TASKS ==> StrictlyIncreasing(r.sums))
      && r.sums[NUM_TASKS - 1] == total
      && |r.reports| == NUM_TASKS + 1
      && multiset(r.reports[..NUM_TASKS]) == multiset(r.sums)
      && r.reports[NUM_TASKS] == total
      && (forall i :: 0 <= i < |r.reports| ==> 0 <= r.reports[i] <= total)
  {
    if total <= 0 || !hasActivity {
      return NotStarted;
    }
    var workers := if hardwareConcurrency < 1 then 1 else hardwareConcurrency;
    var pool := new TaskPool();
    var ws := seq(workers, _ => Idle);
    StartConsistent(total, ws);
    var claims, sums, reports;
    ws, claims, sums, reports := RunTurns(pool, total, ws, [], [], [], schedule);
    ws, claims, sums, reports := JoinWorkers(pool, total, ws, claims, sums, reports);
    AllJoined(total, pool.next, pool.completed, ws, claims, sums, reports);
    // The final `1.0f`, sent only after every worker has been joined.
    var sent := reports + [total];
    assert sent[..NUM_TASKS] == reports;
    r := Joined(workers, claims, sums, sent, pool.completed);
  }

  /** Once every worker has left its loop, every task has been claimed, added and
      reported: the sums run up to `total_iterations`, and the values sent are exactly
      the sums, in some order. */
  lemma AllJoined(total: nat, next: int, completed: int, ws: seq<Worker>,
                  claims: seq<ClaimRecord>, sums: seq<int>, reports: seq<int>)
    requires |ws| > 0 && forall v :: 0 <= v < |ws| ==> ws[v].Exited?
    requires Consistent(total, next, completed, ws, claims, sums, reports)
    ensures |claims| == NUM_TASKS
    ensures forall i :: 0 <= i < NUM_TASKS ==> claims[i].task == i && claims[i].worker < |ws|
    ensures completed == total && |sums| == NUM_TASKS && sums[NUM_TASKS - 1] == total
    ensures Sorted(sums) && (total >= NUM_TASKS ==> StrictlyIncreasing(sums))
    ensures |reports| == NUM_TASKS && multiset(reports) == multiset(sums)
    ensures forall i :: 0 <= i < |reports| ==> 0 <= reports[i] <= total
  {
    assert ws[0].Exited?;
    NothingPendingWhenAllExited(total, ws);
    TasksSpanWholeRange(total);
    StepsUpOrdered(sums, total >= NUM_TASKS);
    UnionEmpty(multiset(reports));
    assert |multiset(reports)| == |multiset(sums)|;
    ReportsWithinSums(reports, sums, total);
  }

  /** Every value sent is one of the sums, so it lies within `[0, total]`. */
  lemma ReportsWithinSums(reports: seq<int>, sums: seq<int>, total: int)
    requires multiset(reports) == multiset(sums)
    requires forall i :: 0 <= i < |sums| ==> 0 <= sums[i] <= total
    ensures forall i :: 0 <= i < |reports| ==> 0 <= reports[i] <= total
  {
    forall i | 0 <= i < |reports|
      ensures 0 <= reports[i] <= total
    {
      assert reports[i] in multiset(reports);
      assert reports[i] in sums;
    }
  }

  lemma {:induction false} NothingPendingWhenAllIdle(total: nat, ws: seq<Worker>)
    requires forall v :: 0 <= v < |ws| ==> ws[v].Idle?
    ensures Pending(total, ws) == 0 && HeldCount(ws) == 0 && Unreported(ws) == multiset{}
  {
    if ws != [] {
      NothingPendingWhenAllIdle(total, ws[..|ws| - 1]);
    }
    UnreportedNone(ws, |ws|);
  }

  /** When the workers start, nothing is claimed, added or sent: the invariant holds. */
  lemma StartConsistent(total: nat, ws: seq<Worker>)
    requires forall v :: 0 <= v < |ws| ==> ws[v].Idle?
    ensures Consistent(total, 0, 0, ws, [], [], [])
  {
    NothingPendingWhenAllIdle(total, ws);
    TasksSpanWholeRange(total);
  }

  // ---------------------------------------------------------------------------
  // The single-core run's reporter thread (cpu_math.cpp:55-84, 93-99)

  /** The counter value the reporter sees at its `k`-th load of
      `current_iterations_done`: the main loop has by then done `advances[k]` more
      iterations (never more than `total`); once `advances` is used up, the main loop
      is taken to have finished. */
  function Observe(total: nat, done: nat, advances: seq<nat>, k: nat): (seen: nat)
    requires done <= total
    ensures done <= seen <= total
    ensures k >= |advances| ==> seen == total
  {
    if k < |advances| then Min(done + advances[k], total) else total
  }

  /** The reporter loop: while the counter is below `total_iterations` it reports the
      counter, then it always reports 1.0. Returns the numerators (over `total`) of
      the values it sends. */
  method SingleCoreReporter(total: nat, advances: seq<nat>) returns (reports: seq<int>)
    ensures |reports| > 0 && reports[|reports| - 1] == total
    ensures forall i :: 0 <= i < |reports| ==> 0 <= reports[i] <= total
    ensures Sorted(reports)
  {
    var counter: nat := 0;
    var k := 0;
    reports := [];
    counter := Observe(total, counter, advances, k);
    k := k + 1;
    while counter < total
      invariant counter <= total
      invariant k > |advances| ==> counter == total
      invariant Sorted(reports)
      invariant forall i :: 0 <= i < |reports| ==> 0 <= reports[i] <= counter
      decreases |advances| + 1 - k
    {
      counter := Observe(total, counter, advances, k);
      k := k + 1;
      reports := reports + [counter];
      if counter < total {
        counter := Observe(total, counter, advances, k);
        k := k + 1;
      }
    }
    reports := reports + [total];
  }
}
