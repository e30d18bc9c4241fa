/**
 * The demonstration driver around `back_emplace_iterator`: a list of task
 * names, and a deque of `ProgressBar`s built from it twice, once by an
 * explicit loop of `emplace_back` calls and once by `std::transform` into a
 * `back_emplacer`. A `ProgressBar` is the record of the arguments it was
 * constructed from; the output stream buffer is an opaque token.
 */
module ProgressDemo {
  import opened Decimal
  import opened EmplaceBackIterator

  /** A `std::streambuf *`, such as `std::cout.rdbuf()`; only its identity matters. */
  datatype Streambuf = Streambuf(id: nat)

  /** A `ProgressBar`: the stream buffer it writes to and its line prefix. */
  datatype ProgressBar = ProgressBar(out: Streambuf, prefix: string)

  /**
   * `ProgressBar(buffer, prefix)` called with the components of a tuple, in
   * order: the first component becomes the buffer, the second the prefix.
   */
  function MakeProgressBar(args: (Streambuf, string)): (bar: ProgressBar)
    ensures bar.out == args.0
    ensures bar.prefix == args.1
  {
    ProgressBar(args.0, args.1)
  }

  /** The intended name of the task with index `i`. */
  function TaskName(i: nat): string {
    "task" + NatToString(i)
  }

  /**
   * `std::generate_n` with a generator whose counter starts at `i` and is
   * incremented after each call: `count` names, for indices `i`, `i + 1`, ...
   */
  function GenerateTasks(count: nat, i: nat): (tasks: seq<string>)
    ensures |tasks| == count
    ensures forall k :: 0 <= k < count ==> tasks[k] == TaskName(i + k)
    decreases count
  {
    if count == 0 then [] else [TaskName(i)] + GenerateTasks(count - 1, i + 1)
  }

  /** `get_tasks(n)`: "task0", ..., "task{n-1}", each name once. */
  function GetTasks(n: nat): (tasks: seq<string>)
    ensures |tasks| == n
    ensures forall k :: 0 <= k < n ==> tasks[k] == TaskName(k)
  {
    GenerateTasks(n, 0)
  }

  /** The task names are pairwise distinct. */
  lemma TaskNamesDistinct(n: nat, j: nat, k: nat)
    requires j < n && k < n && j != k
    ensures GetTasks(n)[j] != GetTasks(n)[k]
  {
    var tj := GetTasks(n)[j];
    var tk := GetTasks(n)[k];
    if tj == tk {
      assert tj[4..] == NatToString(j);
      assert tk[4..] == NatToString(k);
      NatToStringInjective(j, k);
    }
  }

  /** The address the model gives the local deque `bars`. */
  const BarsRef: Ref := 0

  /**
   * The build of `do_tasks_algorithm`: `std::transform` over `tasks` into
   * `back_emplacer(bars)`, each task turned into the tuple `(rdbuf, task)`,
   * starting from an empty deque. One bar per task, in task order, each
   * writing to `rdbuf` with its task's name as prefix.
   */
  function BuildByTransform(rdbuf: Streambuf, tasks: seq<string>): (bars: seq<ProgressBar>)
    ensures |bars| == |tasks|
    ensures forall k :: 0 <= k < |tasks| ==> bars[k].out == rdbuf && bars[k].prefix == tasks[k]
  {
    var store: Store<ProgressBar> := map[BarsRef := []];
    var r := Transform(store, tasks, BackEmplacer(BarsRef), (task: string) => (rdbuf, task), MakeProgressBar);
    r.0[BarsRef]
  }

  /** `do_tasks_algorithm(n)` up to `log_progress`: the bars it builds. */
  function DoTasksAlgorithm(rdbuf: Streambuf, n: nat): (bars: seq<ProgressBar>)
    ensures |bars| == n
    ensures forall k :: 0 <= k < n ==> bars[k] == ProgressBar(rdbuf, TaskName(k))
  {
    BuildByTransform(rdbuf, GetTasks(n))
  }

  /**
   * The build of `do_tasks_for_loop`: an explicit loop that calls
   * `emplace_back(rdbuf, task)` for each task, starting from an empty deque.
   * From the same tasks it builds exactly the deque the `std::transform`
   * build does.
   */
  method BuildByLoop(rdbuf: Streambuf, tasks: seq<string>) returns (bars: seq<ProgressBar>)
    ensures bars == BuildByTransform(rdbuf, tasks)
  {
    bars := [];
    for k := 0 to |tasks|
      invariant |bars| == k
      invariant forall j :: 0 <= j < k ==> bars[j] == ProgressBar(rdbuf, tasks[j])
    {
      bars := bars + [ProgressBar(rdbuf, tasks[k])];
    }
  }

  /** `do_tasks_for_loop(n)` up to `log_progress`: the same deque as `do_tasks_algorithm(n)`. */
  method DoTasksForLoop(rdbuf: Streambuf, n: nat) returns (bars: seq<ProgressBar>)
    ensures bars == DoTasksAlgorithm(rdbuf, n)
  {
    bars := BuildByLoop(rdbuf, GetTasks(n));
  }

  // The generator of `get_tasks` keeps its counter in an `int` (the type
  // deduced for the init-capture `i = 0`) although the count is a `size_t`.
  // Past the largest `int` the increment overflows; the functions below take
  // the two's-complement wrap-around that the overflow gives in practice.

  const IntMin: int := -0x8000_0000
  const IntMax: int := 0x7fff_ffff

  /**
   * The increment in `i++` on a 32-bit two's-complement `int`: one more,
   * except that the largest value steps to the smallest.
   */
  function IncrementInt(i: int): (r: int)
    requires IntMin <= i <= IntMax
    ensures IntMin <= r <= IntMax
    ensures i < IntMax ==> r == i + 1
    ensures i == IntMax ==> r == IntMin
  {
    if i == IntMax then IntMin else i + 1
  }

  /** The counter after `k` increments from `i`. */
  function IncrementIntTimes(i: int, k: nat): (r: int)
    requires IntMin <= i <= IntMax
    ensures IntMin <= r <= IntMax
    decreases k
  {
    if k == 0 then i else IncrementInt(IncrementIntTimes(i, k - 1))
  }

  /** Without reaching the largest `int`, `k` increments add `k`. */
  lemma {:induction false} IncrementIntTimesBelowMax(i: int, k: nat)
    requires IntMin <= i && i + k <= IntMax
    ensures IncrementIntTimes(i, k) == i + k
    decreases k
  {
    if k > 0 {
      IncrementIntTimesBelowMax(i, k - 1);
    }
  }

  /** The name `"task" + std::to_string(i)` for the `int` counter value `i`. */
  function IntTaskName(i: int): string {
    "task" + IntToString(i)
  }

  /** `std::generate_n` with the `int` counter of `get_tasks` as written, starting at `i`. */
  function GenerateTasksIntCounter(count: nat, i: int): seq<string>
    requires IntMin <= i <= IntMax
    decreases count
  {
    if count == 0 then [] else [IntTaskName(i)] + GenerateTasksIntCounter(count - 1, IncrementInt(i))
  }

  /**
   * `get_tasks(n)` as written, with its `int` counter: n names, the k-th
   * carrying the counter after k increments from 0.
   */
  function GetTasksAsWritten(n: nat): (tasks: seq<string>)
    ensures |tasks| == n
    ensures forall k :: 0 <= k < n ==> tasks[k] == IntTaskName(IncrementIntTimes(0, k))
  {
    var tasks := GenerateTasksIntCounter(n, 0);
    GenerateTasksIntCounterLength(n, 0);
    forall k | 0 <= k < n
      ensures tasks[k] == IntTaskName(IncrementIntTimes(0, k))
    {
      GenerateTasksIntCounterAt(n, 0, k);
    }
    tasks
  }

  /** The k-th name of the as-written generator uses the counter after `k` increments. */
  lemma {:induction false} GenerateTasksIntCounterAt(count: nat, i: int, k: nat)
    requires IntMin <= i <= IntMax
    requires k < count
    ensures |GenerateTasksIntCounter(count, i)| == count
    ensures GenerateTasksIntCounter(count, i)[k] == IntTaskName(IncrementIntTimes(i, k))
    decreases count
  {
    var all := GenerateTasksIntCounter(count, i);
    GenerateTasksIntCounterLength(count, i);
    if k == 0 {
      assert all[0] == IntTaskName(i);
    } else {
      var next := IncrementInt(i);
      var rest := GenerateTasksIntCounter(count - 1, next);
      assert all == [IntTaskName(i)] + rest;
      assert all[k] == rest[k - 1];
      GenerateTasksIntCounterAt(count - 1, next, k - 1);
      IncrementIntTimesShift(i, k - 1);
    }
  }

  lemma {:induction false} GenerateTasksIntCounterLength(count: nat, i: int)
    requires IntMin <= i <= IntMax
    ensures |GenerateTasksIntCounter(count, i)| == count
    decreases count
  {
    if count > 0 {
      GenerateTasksIntCounterLength(count - 1, IncrementInt(i));
    }
  }

  /** One increment followed by `k` more is `k + 1` increments. */
  lemma {:induction false} IncrementIntTimesShift(i: int, k: nat)
    requires IntMin <= i <= IntMax
    ensures IncrementIntTimes(IncrementInt(i), k) == IncrementIntTimes(i, k + 1)
    decreases k
  {
    if k > 0 {
      IncrementIntTimesShift(i, k - 1);
    }
  }

  /** After m = 2^31 increments from 0 the counter has wrapped to the smallest `int`. */
  lemma CounterWrapsAfterIntMax(m: nat)
    requires m == 0x8000_0000
    ensures IncrementIntTimes(0, m) == IntMin
  {
    IncrementIntTimesBelowMax(0, m - 1);
  }

  /** The decimal text of 2^31. */
  lemma TextOfTwoToThe31()
    ensures NatToString(0x8000_0000) == "2147483648"
  {
    assert NatToString(2) == "2";
    assert NatToString(21) == "21";
    assert NatToString(214) == "214";
    assert NatToString(2147) == "2147";
    assert NatToString(21474) == "21474";
    assert NatToString(214748) == "214748";
    assert NatToString(2147483) == "2147483";
    assert NatToString(21474836) == "21474836";
    assert NatToString(214748364) == "214748364";
  }

  /** The name the as-written generator gives for the smallest `int`. */
  lemma NameOfIntMin()
    ensures IntTaskName(IntMin) == "task-2147483648"
  {
    TextOfTwoToThe31();
  }

  /** The intended name of task 2^31. */
  lemma NameOfTask2147483648(m: nat)
    requires m == 0x8000_0000
    ensures TaskName(m) == "task2147483648"
  {
    TextOfTwoToThe31();
  }

  /** As written, task m = 2^31 carries the wrapped counter, the smallest `int`. */
  lemma AsWrittenCounterAtTask2147483648(n: nat, m: nat)
    requires m == 0x8000_0000 && m < n
    ensures GetTasksAsWritten(n)[m] == IntTaskName(IntMin)
  {
    CounterWrapsAfterIntMax(m);
  }

  /**
   * As written, when more than 2^31 tasks are requested, the task with
   * index m = 2^31 = 2147483648 is named "task-2147483648" and not
   * "task2147483648".
   */
  lemma AsWrittenMisnamesTask2147483648(n: nat, m: nat)
    requires m == 0x8000_0000 && m < n
    ensures |GetTasksAsWritten(n)| == n
    ensures GetTasksAsWritten(n)[m] == "task-2147483648"
    ensures GetTasksAsWritten(n)[m] != TaskName(m)
  {
    AsWrittenCounterAtTask2147483648(n, m);
    NameOfIntMin();
    NameOfTask2147483648(m);
    assert "task-2147483648"[4] != "task2147483648"[4];
  }

  /** Up to 2^31 tasks the as-written generator gives the intended names. */
  lemma AsWrittenAgreesUpToIntMax(n: nat)
    requires n <= IntMax + 1
    ensures GetTasksAsWritten(n) == GetTasks(n)
  {
    var w := GetTasksAsWritten(n);
    var t := GetTasks(n);
    GenerateTasksIntCounterLength(n, 0);
    forall k | 0 <= k < n
      ensures w[k] == t[k]
    {
      GenerateTasksIntCounterAt(n, 0, k);
      IncrementIntTimesBelowMax(0, k);
    }
  }
}
