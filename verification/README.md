# Emplacing output iterator and fold-expression type helpers, in Dafny

This project models two small C++ demonstration programs and proves what
they promise.

- `back_emplace_iterator` is an output iterator. It holds a non-owning
  pointer to a container. On assignment of a tuple it constructs one new
  element at the back of that container from the tuple's components, in
  order. A driver builds a deque of `ProgressBar`s from a list of task names
  in two ways, one after the other: an explicit `emplace_back` loop, and
  `std::transform` into `back_emplacer(bars)`. The program does not compare
  the two deques. Their equality is a result of this model
  (`ProgressDemo.BuildByLoop`).
- The `consteval` helpers work on a template parameter pack. `count_if`,
  `all_of`, `any_of`, `for_each`, `for_each_tuple_type_arg` and
  `for_each_tuple_type` are fold expressions. `count` is
  `sizeof...(Args)`, and `none_of` is the negation of `any_of`. A short
  `main` uses them and returns 8.

Modules:

- `Wrappers` (`wrappers.dfy`): `Option`. It marks a construction that failed
  or a program that does not compile.
- `Decimal` (`decimal.dfy`): the decimal text `std::to_string` produces. It
  has a parser and a round-trip lemma, so distinct numbers give distinct
  texts.
- `EmplaceBackIterator` (`emplace_back_iterator.dfy`): the adapter. The
  containers the program can reach form a `Store`, a map from address to
  element sequence. The adapter holds only an address. The iterator calls
  are `Deref`, `PreIncrement`, `PostIncrement` and `AssignArgs`. `Run`
  executes a sequence of calls. `Transform` is `std::transform` with the
  adapter as its destination. An element type is a constructor function
  from the whole tuple, the way `std::apply` passes the components to
  `emplace_back`.
- `ProgressDemo` (`progress_demo.dfy`): `ProgressBar` as the record of its
  constructor arguments, `get_tasks`, both builds, and the proof that they
  build the same deque.
  The stream buffer `std::cout.rdbuf()` is an opaque `Streambuf` parameter.
- `PackFolds` (`pack_folds.dfy`): a parameter pack is a `seq<T>` over an
  abstract type `T`. A predicate or callable template is a function on `T`.
  Each fold helper is a recursive function that groups its operands the
  way the C++ fold does. `Count` is the pack's length, and `NoneOf` is the
  negation of `AnyOf`.
- `TypeHelpersDemo` (`type_helpers_demo.dfy`): the types of the demo,
  `is_signed_type`, `assert_arithmetic`, and `main`. It has two versions of
  the `assert_arithmetic` visit: as written, and with the check called (see
  Findings).

## Model

| member | source | states |
|---|---|---|
| `EmplaceBackIterator.Assign` | code_samples/emplace_back_iterator.cpp:68-74 | Assignment grows the bound container by exactly one element. Earlier elements stay unchanged. The new last element is the one built from the tuple. No other container changes. The same adapter is returned. |
| `EmplaceBackIterator.BackEmplacer` | code_samples/emplace_back_iterator.cpp:81-85 | `back_emplacer(c)` and the constructor at lines 51-53 give an adapter bound to exactly `c`. They take no container contents, so binding neither copies nor changes any container. |
| `EmplaceBackIterator.TryAssign` | code_samples/emplace_back_iterator.cpp:68-74 | When the element's constructor can fail, the store is unchanged exactly when construction failed. Otherwise the effect is that of `Assign`. |
| `EmplaceBackIterator.Step` | code_samples/emplace_back_iterator.cpp:55-66 | `operator*`, `operator++` and `operator++(int)` return the adapter itself or an equal copy and leave every container unchanged. Only assignment changes the store. |
| `EmplaceBackIterator.Run` | code_samples/emplace_back_iterator.cpp:55-77 | After any sequence of calls, the bound container is its old contents followed by one element per assigned tuple, in call order. Every other container is unchanged and the adapter stays bound to the same container. |
| `EmplaceBackIterator.NoOpsHaveNoEffect` | code_samples/emplace_back_iterator.cpp:55-66 | Any number of dereferences and increments, with no assignment, leave store and adapter exactly as they were. |
| `EmplaceBackIterator.NoOpsCanBeDropped` | code_samples/emplace_back_iterator.cpp:55-74 | A call sequence has the same effect as its assignments alone. |
| `EmplaceBackIterator.AssignedOfAssignments` | code_samples/emplace_back_iterator.cpp:68-74 | A call sequence made only of assignments hands over exactly its tuples, in order. |
| `EmplaceBackIterator.CopiesShareTheContainer` | code_samples/emplace_back_iterator.cpp:51-53 | This follows from the adapter holding only an address, not a copy. The copy that `operator++(int)` returns is bound to the same address. Assigning through the adapter and then through that copy appends both elements to the same caller-owned container. |
| `EmplaceBackIterator.TransformOps` | code_samples/emplace_back_iterator.cpp:123-125 | The calls `std::transform` makes on its destination hand over one tuple per input, `f` of that input, in input order. |
| `EmplaceBackIterator.Transform` | code_samples/emplace_back_iterator.cpp:123-125 | `std::transform` into an adapter bound to `c` appends N elements to `c` for N inputs. The k-th is built from the k-th input's tuple. Earlier elements and all other containers are unchanged. |
| `Decimal.NatToString` | code_samples/emplace_back_iterator.cpp:93 | `std::to_string` of a non-negative number is a non-empty string of digits with no leading zero. |
| `Decimal.IntToString` | code_samples/emplace_back_iterator.cpp:93 | `std::to_string` of an `int` starts with '-' exactly when the number is negative. |
| `Decimal.ParseNatToString` | code_samples/emplace_back_iterator.cpp:93 | Reading the decimal text back gives the number. |
| `Decimal.ParseIntToString` | code_samples/emplace_back_iterator.cpp:93 | The text of a signed `int` reads back as the number. For a negative number, the text after '-' reads back as its magnitude. |
| `Decimal.NatToStringInjective` | code_samples/emplace_back_iterator.cpp:93 | Distinct numbers have distinct decimal texts. |
| `ProgressDemo.MakeProgressBar` | code_samples/emplace_back_iterator.cpp:15-18 | `ProgressBar(buffer, prefix)`, called with a tuple's components in order, takes its buffer from the first component and its prefix from the second. |
| `ProgressDemo.GenerateTasks` | code_samples/emplace_back_iterator.cpp:92-94 | `std::generate_n` with a counter that starts at i and increments after each call gives `count` names. The k-th name is "task" followed by i + k. |
| `ProgressDemo.GetTasks` | code_samples/emplace_back_iterator.cpp:88-96 | `get_tasks(n)` has length n, and its k-th element is "task" followed by the decimal text of k. |
| `ProgressDemo.TaskNamesDistinct` | code_samples/emplace_back_iterator.cpp:88-96 | No two tasks from `get_tasks(n)` share a name. |
| `ProgressDemo.BuildByTransform` | code_samples/emplace_back_iterator.cpp:121-125 | `std::transform` of the tasks into `back_emplacer(bars)` with the tuple `(rdbuf, task)` gives one bar per task, in task order. Each bar writes to `rdbuf`, and its prefix is its task's name (constructor at lines 15-18). |
| `ProgressDemo.DoTasksAlgorithm` | code_samples/emplace_back_iterator.cpp:119-127 | `do_tasks_algorithm(n)` builds n bars, and the k-th is `ProgressBar(rdbuf, "task"+k)`. |
| `ProgressDemo.BuildByLoop` | code_samples/emplace_back_iterator.cpp:110-114 | From any list of tasks, the explicit `emplace_back` loop builds exactly the deque that the `std::transform` build of lines 122-125 builds from the same tasks. |
| `ProgressDemo.DoTasksForLoop` | code_samples/emplace_back_iterator.cpp:106-117 | `do_tasks_for_loop(n)` builds exactly the deque that `do_tasks_algorithm(n)` builds. |
| `ProgressDemo.IncrementInt` | code_samples/emplace_back_iterator.cpp:92-93 | The increment in `i++` on the generator's `int` counter adds one below the largest `int`. At the largest `int` it wraps to the smallest. |
| `ProgressDemo.IncrementIntTimesBelowMax` | code_samples/emplace_back_iterator.cpp:92-93 | Until the `int` counter reaches its maximum, k increments add k. |
| `ProgressDemo.GetTasksAsWritten` | code_samples/emplace_back_iterator.cpp:88-96 | `get_tasks(n)` as written has length n. Its k-th name is "task" followed by the text of the `int` counter after k increments from 0. |
| `ProgressDemo.GenerateTasksIntCounterAt` | code_samples/emplace_back_iterator.cpp:92-94 | As written, the k-th name uses the `int` counter after k increments. |
| `ProgressDemo.CounterWrapsAfterIntMax` | code_samples/emplace_back_iterator.cpp:92-93 | After 2^31 increments from 0, the `int` counter is the smallest `int`. |
| `ProgressDemo.AsWrittenCounterAtTask2147483648` | code_samples/emplace_back_iterator.cpp:92-94 | As written, with more than 2^31 tasks, task 2^31 is named after the smallest `int`. |
| `ProgressDemo.AsWrittenMisnamesTask2147483648` | code_samples/emplace_back_iterator.cpp:92-94 | As written, with more than 2^31 tasks, task 2147483648 is named "task-2147483648" and not "task2147483648". |
| `ProgressDemo.AsWrittenAgreesUpToIntMax` | code_samples/emplace_back_iterator.cpp:88-96 | For at most 2^31 tasks, the as-written `get_tasks` gives the intended names. At exactly 2^31 tasks, the last call's increment already overflows. That is undefined behaviour, so the statement for that count rests on the wrap assumption. |
| `PackFolds.Count` | code_samples/template_metaprogramming_helpers.cpp:5-8 | `count` is the number of types in the pack, repeats included. |
| `PackFolds.CountIsCountIfOfTrue` | code_samples/template_metaprogramming_helpers.cpp:5-13 | On a non-empty pack, `count` equals `count_if` with a predicate every type satisfies. |
| `PackFolds.CountIf` | code_samples/template_metaprogramming_helpers.cpp:10-13 | The left `+` fold over a non-empty pack is at most `count`. It equals `count` exactly when every type satisfies P, and is 0 exactly when none does. |
| `PackFolds.CountIfComplement` | code_samples/template_metaprogramming_helpers.cpp:5-13 | `count_if<P>` plus `count_if<not P>` equals `count`. |
| `PackFolds.CountIfIsFilterSize` | code_samples/template_metaprogramming_helpers.cpp:10-13 | `count_if` is the number of types a filter by P keeps, whatever the grouping of the fold. |
| `PackFolds.FilterAppend` | code_samples/template_metaprogramming_helpers.cpp:10-13 | Filtering a concatenated pack is concatenating the filtered parts. It is the reference side of the `count_if` equivalence. |
| `PackFolds.AllOf` | code_samples/template_metaprogramming_helpers.cpp:15-18 | `all_of` is true exactly when every type satisfies P, so it is true on the empty pack. |
| `PackFolds.AnyOf` | code_samples/template_metaprogramming_helpers.cpp:20-23 | `any_of` is true exactly when some type satisfies P, so it is false on the empty pack. |
| `PackFolds.NoneOf` | code_samples/template_metaprogramming_helpers.cpp:25-28 | `none_of`, defined as `!any_of`, is true exactly when no type satisfies P. |
| `PackFolds.EmptyPack` | code_samples/template_metaprogramming_helpers.cpp:5-28 | On the empty pack, `count` is 0, `all_of` and `none_of` hold, and `any_of` does not. |
| `PackFolds.NoneOfIsAllOfNegation` | code_samples/template_metaprogramming_helpers.cpp:25-28 | `none_of<P>` equals `all_of` of the negation of P. |
| `PackFolds.AnyOfIsPositiveCount` | code_samples/template_metaprogramming_helpers.cpp:10-23 | On a non-empty pack, `any_of` holds exactly when `count_if` is positive. |
| `PackFolds.ForEach` | code_samples/template_metaprogramming_helpers.cpp:30-33 | The comma fold calls Func once per type, left to right. The k-th call is on the k-th type. |
| `PackFolds.ForEachPassesIffAllOf` | code_samples/template_metaprogramming_helpers.cpp:30-33 | When each operand's outcome is whether it compiles, the comma fold compiles exactly when `all_of` holds of that outcome. |
| `PackFolds.ForEachTupleTypeArg` | code_samples/template_metaprogramming_helpers.cpp:35-38 | The pack deduced from a tuple argument is visited in index order, one call per element type. |
| `PackFolds.MakeIndexSequence` | code_samples/template_metaprogramming_helpers.cpp:45-46 | `std::make_index_sequence<n>` is 0, 1, ..., n-1. |
| `PackFolds.ForEachIndex` | code_samples/template_metaprogramming_helpers.cpp:42-43 | The fold over an index pack calls Func on `tuple_element_t<I>` for each index I, in pack order. |
| `PackFolds.ForEachTupleType` | code_samples/template_metaprogramming_helpers.cpp:40-47 | `for_each_tuple_type` calls Func on the tuple's element types in index order, one call each. |
| `PackFolds.TupleVisitorsAgree` | code_samples/template_metaprogramming_helpers.cpp:30-47 | `for_each_tuple_type`, `for_each_tuple_type_arg` and `for_each` over the tuple's types make the same sequence of calls. |
| `TypeHelpersDemo.IsSignedType` | code_samples/template_metaprogramming_helpers.cpp:49-54 | `is_signed_type<T>` holds exactly when `T` is arithmetic and `T(-1) < T(0)`. So int, float and double are signed, and unsigned int, size_t and non-arithmetic types are not. |
| `TypeHelpersDemo.AsWrittenForEachChecksNothing` | code_samples/template_metaprogramming_helpers.cpp:30-33 | As written, `for_each<assert_arithmetic, ...>` compiles for every pack. `Func<Args>()` only creates temporaries, so the `static_assert` at lines 58-59 is never instantiated. |
| `TypeHelpersDemo.AsWrittenAcceptsStdString` | code_samples/template_metaprogramming_helpers.cpp:30-33 | As written, `for_each<assert_arithmetic, std::string>()` compiles although `std::string` is not arithmetic. |
| `TypeHelpersDemo.CalledForEachChecksArithmetic` | code_samples/template_metaprogramming_helpers.cpp:56-61 | With the call `Func<Args>()()`, `for_each<assert_arithmetic, ...>` compiles exactly when every type of the pack is arithmetic. It rejects `std::string`. |
| `TypeHelpersDemo.MainSumIsEight` | code_samples/template_metaprogramming_helpers.cpp:69-73 | The terms of `main`'s sum are 3, 2, 1, 1 and 1. |
| `TypeHelpersDemo.MainReturnsEight` | code_samples/template_metaprogramming_helpers.cpp:63-75 | The program compiles and `main` returns 8, both as written and with the check called. The three visited types are arithmetic. |

## Findings

| source | as written | input that shows it | evidently intended | confidence | as-written member | corrected member |
|---|---|---|---|---|---|---|
| code_samples/emplace_back_iterator.cpp:92-94 | The generator's counter is the init-capture `i = 0`, so it is an `int`. The task count is a `size_t`. From 2^31 tasks on, the last increments overflow the largest `int`. That is undefined behaviour, modelled as the usual two's-complement wrap. | `get_tasks(2147483649)`: its element 2147483648 is "task-2147483648". | Names "task0" to "task{n-1}", all distinct, with a counter as wide as the count. | low (it needs more than 2^31 strings in memory, and the printed name assumes the wrap); not executed | `ProgressDemo.AsWrittenMisnamesTask2147483648` (on `ProgressDemo.GetTasksAsWritten`) | `ProgressDemo.GetTasks`, with `ProgressDemo.TaskNamesDistinct` |
| code_samples/template_metaprogramming_helpers.cpp:30-47 | The fold operand `Func<Args>()` only value-initialises a temporary `Func<T>`. It never calls `operator()`, so the `static_assert` in `assert_arithmetic`'s call operator (lines 56-61) is never instantiated. | `for_each<assert_arithmetic, std::string>()` compiles. | The operand `Func<Args>()()`, so that the check runs and rejects non-arithmetic types. | medium (the standard instantiates a member function's definition only when it is used); not executed | `TypeHelpersDemo.AsWrittenAcceptsStdString` (on `TypeHelpersDemo.MainExitCodeAsWritten`) | `TypeHelpersDemo.CalledForEachChecksArithmetic` (used by `TypeHelpersDemo.MainExitCode`) |

The builds `DoTasksAlgorithm` and `DoTasksForLoop` use the corrected
`GetTasks`. `BuildByLoop` and `BuildByTransform` agree on every task list,
including the as-written one. `MainExitCode` uses the visit that calls the
check. For the demonstration's own types, both versions of `main` return 8.

## Left out

- `ProgressBar::write_progress`, `log_progress` and the `std::ostream` built on the buffer are left out because they are stream output. The builds stop before `log_progress`.
- `ProgressBar::tick` and `m_progress` are left out because the progress counter is a `double`.
- `std::cout.rdbuf()` is an opaque `Streambuf` parameter. The model assumes it returns the same buffer on every call of one build.
- Perfect forwarding and value categories (`std::forward`, move versus copy) have no counterpart among Dafny values. Neither do the non-copyable and non-movable `static_assert`s at lines 36-37. An element is the record of the arguments it was built from.
- The iterator trait typedefs (lines 44-49) are left out, and so are `std::deque`'s reference stability and exception guarantees. They belong to the standard library.
- A container without `emplace_back`, or a tuple that cannot construct the element type, is a compile-time error. The model's types rule such programs out. The adapter's constructor places no constraint on the container type. The error appears only where `operator=` instantiates the `emplace_back` call (line 71), not at construction.
- `EmplaceBackIterator.TryAssign` takes the strong guarantee of `emplace_back` as given: a constructor that throws leaves the container unchanged. `ProgressBar`'s own constructor is modelled as never failing.
- `std::transform` is modelled as the loop `*out = f(x); ++out;`, which is its usual implementation. By `Run`, any interleaving of no-op calls gives the same result.
- `tasks.reserve(n)` is left out because it has no observable effect on the contents.
- The `size_t` width of `num_of_tasks` is left out. Counts are unbounded naturals.
- The `main` of `emplace_back_iterator.cpp` (lines 129-134) calls both builds with 5 and discards them. `DoTasksForLoop` covers every n.
- `assert_arithmetic`'s `static_assert` is a predicate on the visited type. As written, the visits never instantiate it, so the as-written program compiles whatever types it visits (`AsWrittenForEachChecksNothing`). With the call added, failing it makes `MainExitCode` `None`.
- The `is_signed_type` and `assert_arithmetic` objects are modelled as the value they convert to and as the compile outcome of a visit. The objects themselves are not modelled.
