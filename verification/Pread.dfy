/** Reading a file from external storage by parallel tasks. */
module Pread {
  const MIB := 0x10_0000
  const SINGLE_TASK_MINIMUM_SIZE := 2 * MIB
  const CONCURRENCY_LIMIT := 128 // resize_ never sets a concurrency above it

  type Byte = bv8

  function Min(a: int, b: int): int {
    if a <= b then a else b
  }

  function CeilDiv(a: nat, b: nat): nat
    requires b > 0
  {
    (a + b - 1) / b
  }

  /** get_async_task_count_ */
  function TaskCount(size: nat, concurrency: nat): nat {
    var n := Min(concurrency, CeilDiv(size, SINGLE_TASK_MINIMUM_SIZE));
    if n < 1 then 1 else n
  }

  /** Read `len` bytes at `offset` of the file into the buffer at `pos`. */
  datatype Task = Task(offset: nat, pos: nat, len: nat)

  /** The tasks cover `size` bytes from `offset` without gap, overlap or idle task. */
  ghost predicate Tiles(tasks: seq<Task>, offset: nat, size: nat) {
    && (if tasks == [] then size == 0 else tasks[0].pos == 0 && End(tasks[|tasks| - 1]) == size)
    && (forall i | 0 <= i < |tasks| :: tasks[i].offset == offset + tasks[i].pos && tasks[i].len > 0)
    && (forall i: nat | i + 1 < |tasks| :: Adjacent(tasks, i))
  }

  function End(t: Task): nat {
    t.pos + t.len
  }

  ghost predicate Adjacent(tasks: seq<Task>, i: nat)
    requires i + 1 < |tasks|
  {
    tasks[i + 1].pos == End(tasks[i])
  }

  lemma CeilDivFacts(a: nat, b: nat)
    requires b > 0
    ensures a <= b * CeilDiv(a, b) <= a + b - 1
  {
  }

  lemma ProductBound(a: nat, b: nat, c: nat)
    requires b <= c
    ensures a * b <= a * c
  {
  }

  lemma ProductLess(a: nat, b: nat, c: nat)
    requires a * b < a * c
    ensures b < c
  {
  }

  /** As many tasks as threads, as long as the pieces do not fall below the minimum. */
  lemma CountFacts(size: nat, concurrency: nat)
    requires size > 0
    ensures var n := TaskCount(size, concurrency);
            && n >= 1 && (n > 1 ==> n <= concurrency && (n - 1) * SINGLE_TASK_MINIMUM_SIZE < size)
            && (n < concurrency ==> size <= n * SINGLE_TASK_MINIMUM_SIZE)
  {
    CeilDivFacts(size, SINGLE_TASK_MINIMUM_SIZE);
  }

  /** The last task, and so every task, reads the minimum the source names. */
  ghost predicate KeepsMinimum(size: nat, concurrency: nat) {
    var n := TaskCount(size, concurrency);
    size - (n - 1) * CeilDiv(size, n) >= SINGLE_TASK_MINIMUM_SIZE
  }

  /** With threads enough for tasks of the minimum size, and more than one of them,
      the minimum is kept just for its multiples. */
  lemma MinimumForMultiples(size: nat, concurrency: nat)
    requires size > SINGLE_TASK_MINIMUM_SIZE && CeilDiv(size, SINGLE_TASK_MINIMUM_SIZE) <= concurrency
    ensures KeepsMinimum(size, concurrency) <==> size % SINGLE_TASK_MINIMUM_SIZE == 0
  {
    var n := TaskCount(size, concurrency);
    var each := CeilDiv(size, n);
    CeilDivFacts(size, SINGLE_TASK_MINIMUM_SIZE);
    CeilDivFacts(size, n);
    assert (n - 1) * each == n * each - each;
    if each > SINGLE_TASK_MINIMUM_SIZE {
      ProductBound(n, SINGLE_TASK_MINIMUM_SIZE + 1, each);
    }
    if KeepsMinimum(size, concurrency) {
      assert each == SINGLE_TASK_MINIMUM_SIZE && size == n * SINGLE_TASK_MINIMUM_SIZE;
    } else if size % SINGLE_TASK_MINIMUM_SIZE == 0 {
      assert size == n * SINGLE_TASK_MINIMUM_SIZE;
      ProductLess(n, SINGLE_TASK_MINIMUM_SIZE - 1, each);
    }
  }

  /** What the remaining tasks but the last read. */
  ghost function Full(count: nat, each: nat): nat {
    if count <= 1 then 0 else each + Full(count - 1, each)
  }

  lemma {:induction false} FullProduct(count: nat, each: nat)
    requires count > 0
    ensures Full(count, each) == (count - 1) * each
  {
    if count > 1 {
      FullProduct(count - 1, each);
      assert (count - 1) * each == (count - 2) * each + each;
    }
  }

  /** With two tasks or more, all but the last have the common size and the last
      has at least one MiB. */
  lemma LastLength(size: nat, concurrency: nat)
    requires size > 0 && concurrency <= CONCURRENCY_LIMIT
    ensures var n := TaskCount(size, concurrency);
            var each := CeilDiv(size, n);
            var last := size - (n - 1) * each;
            && 0 < last <= each
            && (n > 1 ==> last >= MIB)
  {
    var n := TaskCount(size, concurrency);
    var each := CeilDiv(size, n);
    CeilDivFacts(size, n);
    var last := size - (n - 1) * each;
    assert (n - 1) * each == n * each - each;
    if n > 1 {
      CeilDivFacts(size, SINGLE_TASK_MINIMUM_SIZE);
      var m := CeilDiv(size, SINGLE_TASK_MINIMUM_SIZE);
      assert n <= m && SINGLE_TASK_MINIMUM_SIZE * (m - 1) < size;
      ProductBound(SINGLE_TASK_MINIMUM_SIZE, n - 1, m - 1);
      assert SINGLE_TASK_MINIMUM_SIZE * (n - 1) < size <= n * each;
      assert last >= each - (n - 1);
      if n > 2 {
        assert n * (MIB + 127) == n * MIB + n * 127 < SINGLE_TASK_MINIMUM_SIZE * (n - 1);
        ProductLess(n, MIB + 127, each);
      }
    }
  }

  lemma LastTask(size: nat, concurrency: nat, each: nat) returns (last: nat)
    requires size > 0 && concurrency <= CONCURRENCY_LIMIT && each == CeilDiv(size, TaskCount(size, concurrency))
    ensures var n := TaskCount(size, concurrency);
            && size == Full(n, each) + last && 0 < last <= each
            && (n > 1 ==> last >= MIB)
    ensures KeepsMinimum(size, concurrency) <==> last >= SINGLE_TASK_MINIMUM_SIZE
  {
    LastLength(size, concurrency);
    FullProduct(TaskCount(size, concurrency), each);
    last := size - (TaskCount(size, concurrency) - 1) * each;
  }

  /** The loop of construct_async_tasks_and_push_them_into_thread_pool_. */
  method ConstructTasks(offset: nat, size: nat, concurrency: nat) returns (tasks: seq<Task>)
    requires size > 0 && concurrency <= CONCURRENCY_LIMIT
    ensures Tiles(tasks, offset, size) && |tasks| == TaskCount(size, concurrency)
    ensures tasks != []
    ensures |tasks| > 1 ==> |tasks| <= concurrency && (|tasks| - 1) * SINGLE_TASK_MINIMUM_SIZE < size
    ensures |tasks| < concurrency ==> size <= |tasks| * SINGLE_TASK_MINIMUM_SIZE
    ensures |tasks| > 1 ==> forall t | t in tasks :: t.len >= MIB
    ensures (forall t | t in tasks :: t.len >= SINGLE_TASK_MINIMUM_SIZE) <==> KeepsMinimum(size, concurrency)
    ensures forall i, j | 0 <= i < j < |tasks| :: tasks[j].len <= tasks[i].len
  {
    var count := TaskCount(size, concurrency);
    var each := CeilDiv(size, count);
    CountFacts(size, concurrency);
    ghost var last := LastTask(size, concurrency, each);
    tasks := [];
    var remainedCount, remainedSize, curOffset, curPos: nat := count, size, offset, 0;
    while remainedCount > 0
      invariant 0 <= remainedCount <= count && |tasks| == count - remainedCount
      invariant curPos + remainedSize == size && curOffset == offset + curPos
      invariant remainedSize == if remainedCount > 0 then Full(remainedCount, each) + last else 0
      invariant Tiles(tasks, offset, curPos)
      invariant forall i | 0 <= i < |tasks| :: tasks[i].len == if i < count - 1 then each else last
    {
      var len := Min(remainedSize, each);
      TilesStep(tasks, offset, curPos, len);
      tasks := tasks + [Task(curOffset, curPos, len)];
      curOffset, curPos, remainedSize := curOffset + len, curPos + len, remainedSize - len;
      remainedCount := remainedCount - 1;
    }
    assert tasks[count - 1] in tasks && tasks[count - 1].len == last;
  }

  lemma TilesStep(tasks: seq<Task>, offset: nat, size: nat, len: nat)
    requires Tiles(tasks, offset, size) && len > 0
    ensures Tiles(tasks + [Task(offset + size, size, len)], offset, size + len)
  {
    var more := tasks + [Task(offset + size, size, len)];
    forall i: nat | i + 1 < |more|
      ensures Adjacent(more, i)
    {
      if i + 1 < |tasks| {
        assert Adjacent(tasks, i);
      }
    }
  }

  /** The bound is reached, and two MiB per task is not kept. */
  lemma MinimumIsOneMib(tasks: seq<Task>)
    requires Tiles(tasks, 0, 2 * MIB + 1) && |tasks| == TaskCount(2 * MIB + 1, 2)
    ensures |tasks| == 2 && exists t | t in tasks :: t.len <= MIB
  {
    assert tasks[0] in tasks && tasks[1] in tasks && Adjacent(tasks, 0);
  }

  // The tasks, run in any order and interleaved in any way.

  /** What storage answers a task: an error code, 0 for success, and the bytes read. */
  datatype Outcome = Outcome(code: int, data: seq<Byte>)

  datatype Pc = Waiting | DidRead | Added | Recorded | Signalled

  function Rank(pc: Pc): nat {
    match pc
    case Waiting => 0
    case DidRead => 1
    case Added => 2
    case Recorded => 3
    case Signalled => 4
  }

  function Sum(ws: seq<nat>): nat {
    if ws == [] then 0 else Sum(ws[..|ws| - 1]) + ws[|ws| - 1]
  }

  lemma {:induction false} SumUpdate(ws: seq<nat>, i: nat, w: nat)
    requires i < |ws|
    ensures Sum(ws[i := w]) == Sum(ws) - ws[i] + w && Sum(ws) >= ws[i]
  {
    var last := |ws| - 1;
    if i == last {
      assert ws[i := w][..last] == ws[..last];
    } else {
      SumUpdate(ws[..last], i, w);
      assert ws[i := w][..last] == ws[..last][i := w];
    }
  }

  ghost function FlyingOf(pcs: seq<Pc>): seq<nat> {
    seq(|pcs|, i requires 0 <= i < |pcs| => if pcs[i] == Signalled then 0 else 1)
  }

  ghost function ReadOf(pcs: seq<Pc>, outcomes: seq<Outcome>): seq<nat>
    requires |pcs| == |outcomes|
  {
    seq(|pcs|, i requires 0 <= i < |pcs| =>
      if Rank(pcs[i]) >= 2 && outcomes[i].code == 0 then |outcomes[i].data| else 0)
  }

  function Next(pc: Pc): Pc
    requires pc != Signalled
  {
    match pc
    case Waiting => DidRead
    case DidRead => Added
    case Added => Recorded
    case Recorded => Signalled
  }

  /** What one step of task i does to the two sums. */
  lemma SumsStep(pcs: seq<Pc>, outcomes: seq<Outcome>, i: nat)
    requires i < |pcs| == |outcomes| && pcs[i] != Signalled
    ensures var next := pcs[i := Next(pcs[i])];
            && Sum(FlyingOf(pcs)) > 0
            && Sum(FlyingOf(next)) == Sum(FlyingOf(pcs)) - (if pcs[i] == Recorded then 1 else 0)
            && Sum(ReadOf(next, outcomes)) == Sum(ReadOf(pcs, outcomes)) +
                 (if pcs[i] == DidRead && outcomes[i].code == 0 then |outcomes[i].data| else 0)
  {
    var next := pcs[i := Next(pcs[i])];
    SumUpdate(FlyingOf(pcs), i, FlyingOf(next)[i]);
    assert FlyingOf(next) == FlyingOf(pcs)[i := FlyingOf(next)[i]];
    SumUpdate(ReadOf(pcs, outcomes), i, ReadOf(next, outcomes)[i]);
    assert ReadOf(next, outcomes) == ReadOf(pcs, outcomes)[i := ReadOf(next, outcomes)[i]];
  }

  /** Tasks before another end before it starts. */
  lemma {:induction false} InOrder(tasks: seq<Task>, offset: nat, size: nat, i: nat, j: nat)
    requires Tiles(tasks, offset, size) && i < j < |tasks|
    ensures End(tasks[i]) <= tasks[j].pos
    decreases j
  {
    assert Adjacent(tasks, j - 1);
    if i < j - 1 {
      InOrder(tasks, offset, size, i, j - 1);
    }
  }

  class ReadCtx {
    const tasks: seq<Task>
    const outcomes: seq<Outcome>
    const buf: array<Byte>
    ghost const offset: nat
    ghost const size: nat
    var flying: int // flying_task_count_
    var realReadSize: nat
    var rets: seq<int>
    var pcs: seq<Pc>

    /** ObLogExternalStorageIOTaskCtx::init */
    constructor (tasks: seq<Task>, outcomes: seq<Outcome>, buf: array<Byte>, ghost offset: nat, ghost size: nat)
      requires Shape(tasks, outcomes, buf.Length, offset, size)
      ensures Valid() && this.tasks == tasks && this.outcomes == outcomes && this.buf == buf
      ensures this.offset == offset && this.size == size
    {
      this.tasks, this.outcomes, this.buf, this.offset, this.size := tasks, outcomes, buf, offset, size;
      flying, realReadSize := |tasks|, 0;
      rets, pcs := seq(|tasks|, _ => -1), seq(|tasks|, _ => Waiting);
      new;
      NoneStarted(pcs, outcomes);
    }

    /** Task i's bytes are where they belong. */
    ghost predicate Landed(i: nat)
      requires Shape(tasks, outcomes, buf.Length, offset, size) && i < |tasks|
      reads buf
    {
      forall k | 0 <= k < |outcomes[i].data| :: buf[tasks[i].pos + k] == outcomes[i].data[k]
    }

    ghost predicate Valid()
      reads this, buf
    {
      && Shape(tasks, outcomes, buf.Length, offset, size) && |pcs| == |rets| == |tasks|
      && flying == Sum(FlyingOf(pcs)) && realReadSize == Sum(ReadOf(pcs, outcomes))
      && (forall i: nat | i < |tasks| :: rets[i] == if Rank(pcs[i]) >= 3 then outcomes[i].code else -1)
      && (forall i: nat | i < |tasks| && pcs[i] != Waiting :: Landed(i))
    }

    /** adapter pread: fills the task's own part of the buffer. */
    method Read(i: nat)
      requires Valid() && i < |tasks| && pcs[i] == Waiting
      modifies `pcs, buf
      ensures Valid() && pcs == old(pcs)[i := DidRead]
      ensures forall k | size <= k < buf.Length :: buf[k] == old(buf[k])
    {
      SumsStep(pcs, outcomes, i);
      var pos, data := tasks[i].pos, outcomes[i].data;
      forall k | 0 <= k < |data| {
        buf[pos + k] := data[k];
      }
      pcs := pcs[i := DidRead];
      forall j: nat | j < |tasks| && pcs[j] != Waiting
        ensures Landed(j)
      {
        if j < i {
          assert old(Landed(j));
          InOrder(tasks, offset, size, j, i);
        } else if i < j {
          assert old(Landed(j));
          InOrder(tasks, offset, size, i, j);
        }
      }
    }

    /** One more step of task i; any interleaving of the tasks is a sequence of these. */
    method Step(i: nat)
      requires Valid() && i < |tasks| && pcs[i] != Signalled
      modifies this, buf
      ensures Valid() && pcs == old(pcs)[i := Next(old(pcs)[i])]
      ensures forall k | size <= k < buf.Length :: buf[k] == old(buf[k])
    {
      if pcs[i] == Waiting {
        Read(i);
      } else {
        StepAfterRead(i);
      }
    }

    method StepAfterRead(i: nat)
      requires Valid() && i < |tasks| && pcs[i] != Signalled && pcs[i] != Waiting
      modifies this
      ensures Valid() && pcs == old(pcs)[i := Next(old(pcs)[i])]
    {
      SumsStep(pcs, outcomes, i);
      match pcs[i] {
      case DidRead =>
        if outcomes[i].code == 0 {
          realReadSize := realReadSize + |outcomes[i].data|;
        }
      case Added =>
        rets := rets[i := outcomes[i].code];
      case Recorded =>
        var ok := Signal();
        assert ok;
      }
      pcs := pcs[i := Next(pcs[i])];
    }

    /** ObLogExternalStorageIOTaskCtx::signal; `ok` is false on a count already 0. */
    method Signal() returns (ok: bool)
      modifies `flying
      ensures ok <==> old(flying) > 0
      ensures flying == if ok then old(flying) - 1 else old(flying)
    {
      ok := 0 < flying;
      if ok {
        flying := flying - 1;
      }
    }

    /** ObLogExternalStorageIOTaskCtx::wait returns once no task is flying. */
    method Wait() returns (done: bool)
      requires Valid()
      ensures done <==> forall i | 0 <= i < |pcs| :: pcs[i] == Signalled
    {
      NoneFlying(pcs);
      done := !(flying > 0);
    }

    /** get_ret_code, whose loop tests only the first task. */
    method GetRetCode() returns (ret: int)
      ensures ret == RetCode(rets)
      ensures ret == if |rets| == 0 then 0 else rets[0]
    {
      ret := 0;
      for i := 0 to |rets|
        invariant ret == 0 && (i > 0 ==> rets[0] == 0)
      {
        if 0 == i && 0 != rets[i] {
          ret := rets[i];
          break;
        }
      }
    }

    method Finish(i: nat)
      requires Valid() && i < |tasks|
      modifies this, buf
      ensures Valid() && pcs == old(pcs)[i := Signalled]
      ensures forall k | size <= k < buf.Length :: buf[k] == old(buf[k])
    {
      while pcs[i] != Signalled
        invariant Valid() && pcs == old(pcs)[i := pcs[i]]
        invariant forall k | size <= k < buf.Length :: buf[k] == old(buf[k])
        decreases 4 - Rank(pcs[i])
      {
        Step(i);
      }
    }

    /** The thread pool takes some steps of tasks pushed so far. */
    method RunSome(steps: seq<nat>, pushed: nat)
      requires Valid() && pushed <= |tasks|
      modifies this, buf
      ensures Valid() && forall k | size <= k < buf.Length :: buf[k] == old(buf[k])
    {
      for n := 0 to |steps|
        invariant Valid() && forall k | size <= k < buf.Length :: buf[k] == old(buf[k])
      {
        if steps[n] < pushed && pcs[steps[n]] != Signalled {
          Step(steps[n]);
        }
      }
    }

    /** Pushes the tasks one by one, with the pool at work on those pushed already:
        `schedule(i)` are the steps it takes after i pushes. */
    method PushAll(schedule: nat -> seq<nat>)
      requires Valid()
      modifies this, buf
      ensures Valid() && forall k | size <= k < buf.Length :: buf[k] == old(buf[k])
    {
      for i := 0 to |tasks| + 1
        invariant Valid() && forall k | size <= k < buf.Length :: buf[k] == old(buf[k])
      {
        RunSome(schedule(i), i);
      }
    }

    /** wait_async_tasks_finished_: the pool does what is left meanwhile. */
    method WaitAll()
      requires Valid()
      modifies this, buf
      ensures Valid() && forall i | 0 <= i < |pcs| :: pcs[i] == Signalled
      ensures forall k | size <= k < buf.Length :: buf[k] == old(buf[k])
    {
      var next := 0;
      var done := Wait();
      while !done
        invariant Valid() && next <= |tasks| && forall j | 0 <= j < next :: pcs[j] == Signalled
        invariant done <==> forall i | 0 <= i < |pcs| :: pcs[i] == Signalled
        invariant forall k | size <= k < buf.Length :: buf[k] == old(buf[k])
        decreases |tasks| - next
      {
        Finish(next);
        next := next + 1;
        done := Wait();
      }
    }

    /** The current thread pushes the tasks, does the last one itself, and waits. */
    method RunAll(schedule: nat -> seq<nat>)
      requires Valid() && tasks != []
      modifies this, buf
      ensures Valid() && forall i | 0 <= i < |pcs| :: pcs[i] == Signalled
      ensures forall k | size <= k < buf.Length :: buf[k] == old(buf[k])
    {
      PushAll(schedule);
      Finish(|tasks| - 1);
      WaitAll();
    }
  }

  ghost predicate Shape(tasks: seq<Task>, outcomes: seq<Outcome>, length: nat, offset: nat, size: nat) {
    && Tiles(tasks, offset, size) && |outcomes| == |tasks| && size <= length
    && forall i | 0 <= i < |tasks| :: |outcomes[i].data| <= tasks[i].len && End(tasks[i]) <= size
  }

  lemma {:induction false} NoneStarted(pcs: seq<Pc>, outcomes: seq<Outcome>)
    requires |pcs| == |outcomes| && forall i | 0 <= i < |pcs| :: pcs[i] == Waiting
    ensures Sum(FlyingOf(pcs)) == |pcs| && Sum(ReadOf(pcs, outcomes)) == 0
  {
    if pcs != [] {
      var n := |pcs| - 1;
      NoneStarted(pcs[..n], outcomes[..n]);
      assert FlyingOf(pcs)[..n] == FlyingOf(pcs[..n]);
      assert ReadOf(pcs, outcomes)[..n] == ReadOf(pcs[..n], outcomes[..n]);
    }
  }

  function RetCode(rets: seq<int>): int {
    if rets == [] then 0 else rets[0]
  }

  lemma {:induction false} NoneFlying(pcs: seq<Pc>)
    ensures Sum(FlyingOf(pcs)) == 0 <==> forall i | 0 <= i < |pcs| :: pcs[i] == Signalled
  {
    if pcs != [] {
      var n := |pcs| - 1;
      NoneFlying(pcs[..n]);
      assert FlyingOf(pcs)[..n] == FlyingOf(pcs[..n]);
      assert forall i | 0 <= i < n :: pcs[..n][i] == pcs[i];
    }
  }

  ghost predicate ReportsEveryFailure(n: nat) {
    forall rets: seq<int> | |rets| == n :: RetCode(rets) == 0 <==> forall i | 0 <= i < n :: rets[i] == 0
  }

  /** A success code means that every task succeeded exactly when there is one task. */
  lemma FailureReportIsExact(size: nat, concurrency: nat)
    requires size > 0
    ensures ReportsEveryFailure(TaskCount(size, concurrency)) <==>
            concurrency <= 1 || size <= SINGLE_TASK_MINIMUM_SIZE
  {
    var n := TaskCount(size, concurrency);
    CeilDivFacts(size, SINGLE_TASK_MINIMUM_SIZE);
    assert n == 1 <==> concurrency <= 1 || size <= SINGLE_TASK_MINIMUM_SIZE;
    if n > 1 {
      var rets := seq(n, i => if i == 1 then -1 else 0);
      assert RetCode(rets) == 0 && rets[1] == -1;
    }
  }

  lemma TilesPrefix(tasks: seq<Task>, offset: nat, size: nat)
    requires Tiles(tasks, offset, size) && tasks != []
    ensures Tiles(tasks[..|tasks| - 1], offset, tasks[|tasks| - 1].pos)
  {
    var n := |tasks| - 1;
    if n > 0 {
      assert Adjacent(tasks, n - 1);
    }
    forall i: nat | i + 1 < n
      ensures Adjacent(tasks[..n], i)
    {
      assert Adjacent(tasks, i);
    }
  }

  /** Every byte belongs to some task. */
  lemma {:induction false} Covering(tasks: seq<Task>, offset: nat, size: nat, k: nat) returns (i: nat)
    requires Tiles(tasks, offset, size) && k < size
    ensures i < |tasks| && tasks[i].pos <= k < End(tasks[i]) <= size
    decreases |tasks|
  {
    i := |tasks| - 1;
    if k < tasks[i].pos {
      TilesPrefix(tasks, offset, size);
      i := Covering(tasks[..i], offset, tasks[i].pos, k);
    }
  }

  lemma {:induction false} TasksEnd(tasks: seq<Task>, offset: nat, size: nat)
    requires Tiles(tasks, offset, size)
    ensures forall i | 0 <= i < |tasks| :: End(tasks[i]) <= size
  {
    if tasks != [] {
      TilesPrefix(tasks, offset, size);
      TasksEnd(tasks[..|tasks| - 1], offset, tasks[|tasks| - 1].pos);
      assert forall i | 0 <= i < |tasks| - 1 :: tasks[i] == tasks[..|tasks| - 1][i];
    }
  }

  predicate FullRead(t: Task, o: Outcome) {
    o.code == 0 && |o.data| == t.len
  }

  lemma {:induction false} FullSize(tasks: seq<Task>, outcomes: seq<Outcome>, pcs: seq<Pc>, offset: nat, size: nat)
    requires Tiles(tasks, offset, size) && |tasks| == |outcomes| == |pcs|
    requires forall i | 0 <= i < |tasks| :: FullRead(tasks[i], outcomes[i]) && pcs[i] == Signalled
    ensures Sum(ReadOf(pcs, outcomes)) == size
  {
    if tasks != [] {
      var n := |tasks| - 1;
      TilesPrefix(tasks, offset, size);
      FullSize(tasks[..n], outcomes[..n], pcs[..n], offset, tasks[n].pos);
      assert ReadOf(pcs, outcomes)[..n] == ReadOf(pcs[..n], outcomes[..n]);
    }
  }

  // pread as a whole.

  datatype Ret = Success | InvalidArgument | FileLengthInvalid | Failed(code: int)

  /** Storage never returns more than asked for, and on success the file's bytes. */
  ghost predicate Faithful(storage: Task -> Outcome, file: seq<Byte>) {
    forall t: Task :: Honest(storage, file, t)
  }

  ghost predicate Honest(storage: Task -> Outcome, file: seq<Byte>, t: Task) {
    var o := storage(t);
    && |o.data| <= t.len
    && (o.code == 0 ==> t.offset + |o.data| <= |file| && o.data == file[t.offset..t.offset + |o.data|])
  }

  /** Every read inside the file succeeds in full. */
  ghost predicate ServesAll(storage: Task -> Outcome, file: seq<Byte>) {
    forall t: Task | t.offset + t.len <= |file| :: FullRead(t, storage(t))
  }

  lemma Refines(ctx: ReadCtx, storage: Task -> Outcome, file: seq<Byte>)
    requires ctx.Valid() && Faithful(storage, file) && ServesAll(storage, file) && ctx.offset + ctx.size <= |file|
    requires forall i | 0 <= i < |ctx.tasks| :: ctx.pcs[i] == Signalled && ctx.outcomes[i] == storage(ctx.tasks[i])
    ensures ctx.realReadSize == ctx.size
    ensures ctx.buf[..ctx.size] == file[ctx.offset..ctx.offset + ctx.size]
  {
    var tasks, outcomes := ctx.tasks, ctx.outcomes;
    FullSize(tasks, outcomes, ctx.pcs, ctx.offset, ctx.size);
    forall k: nat | k < ctx.size
      ensures ctx.buf[k] == file[ctx.offset + k]
    {
      var i := Covering(tasks, ctx.offset, ctx.size, k);
      var t, data, j := tasks[i], outcomes[i].data, k - tasks[i].pos;
      assert t.offset == ctx.offset + t.pos && FullRead(t, outcomes[i]);
      assert Honest(storage, file, t) && data == file[t.offset..t.offset + |data|];
      assert ctx.Landed(i) && ctx.buf[t.pos + j] == data[j] == file[t.offset + j];
    }
  }

  /** What a read has planned: the tasks tile the range, and storage has an answer
      for each. */
  ghost predicate Planned(ctx: ReadCtx, offset: nat, size: nat, buf: array<Byte>, storage: Task -> Outcome)
  {
    && ctx.tasks != [] && ctx.buf == buf && ctx.offset == offset && ctx.size == size
    && |ctx.outcomes| == |ctx.tasks| && forall i | 0 <= i < |ctx.tasks| :: ctx.outcomes[i] == storage(ctx.tasks[i])
  }

  method Plan(ghost file: seq<Byte>, offset: nat, buf: array<Byte>, size: nat, concurrency: nat,
              storage: Task -> Outcome)
    returns (ctx: ReadCtx)
    requires concurrency <= CONCURRENCY_LIMIT && 0 < size <= buf.Length && Faithful(storage, file)
    ensures fresh(ctx) && ctx.Valid() && Planned(ctx, offset, size, buf, storage)
    ensures |ctx.tasks| == TaskCount(size, concurrency)
  {
    var tasks := ConstructTasks(offset, size, concurrency);
    TasksEnd(tasks, offset, size);
    var outcomes := seq(|tasks|, i requires 0 <= i < |tasks| => storage(tasks[i]));
    forall i | 0 <= i < |tasks|
      ensures |outcomes[i].data| <= tasks[i].len
    {
      assert Honest(storage, file, tasks[i]);
    }
    ctx := new ReadCtx(tasks, outcomes, buf, offset, size);
  }

  method ReadRange(ghost file: seq<Byte>, offset: nat, buf: array<Byte>, size: nat, concurrency: nat,
                   storage: Task -> Outcome, schedule: nat -> seq<nat>)
    returns (code: int, realReadSize: nat, ghost first: Task)
    requires concurrency <= CONCURRENCY_LIMIT && 0 < size <= buf.Length && offset + size <= |file|
    requires Faithful(storage, file)
    modifies buf
    ensures first.offset == offset && first.pos == 0 && 0 < first.len <= size && code == storage(first).code
    ensures forall k | size <= k < buf.Length :: buf[k] == old(buf[k])
    ensures ServesAll(storage, file) ==> realReadSize == size && buf[..size] == file[offset..offset + size]
  {
    var ctx := Plan(file, offset, buf, size, concurrency, storage);
    ctx.RunAll(schedule);
    code := ctx.GetRetCode();
    realReadSize, first := ctx.realReadSize, ctx.tasks[0];
    if ServesAll(storage, file) {
      Refines(ctx, storage, file);
    }
  }

  /** Whatever the order in which the tasks run, full reads give what one
      sequential read of the same range would. */
  method Read(file: seq<Byte>, offset: int, buf: array<Byte>, bufSize: int, concurrency: nat,
              storage: Task -> Outcome, schedule: nat -> seq<nat>)
    returns (ret: Ret, realReadSize: nat, ghost first: Task)
    requires concurrency <= CONCURRENCY_LIMIT && bufSize <= buf.Length && Faithful(storage, file)
    modifies buf
    ensures ret == InvalidArgument <==> offset < 0 || bufSize <= 0
    ensures ret == FileLengthInvalid <==> offset >= 0 && bufSize > 0 && offset > |file|
    ensures offset < 0 || bufSize <= 0 || offset >= |file| ==> realReadSize == 0 && buf[..] == old(buf[..])
    ensures offset == |file| && bufSize > 0 ==> ret == Success
    ensures 0 <= offset < |file| && bufSize > 0 ==>
              var size := Min(|file| - offset, bufSize);
              && first.offset == offset && first.pos == 0 && 0 < first.len <= size
              && (ret == Success <==> storage(first).code == 0)
              && (forall k | size <= k < buf.Length :: buf[k] == old(buf[k]))
              && (ServesAll(storage, file) ==>
                  ret == Success && realReadSize == size && buf[..size] == file[offset..offset + size])
  {
    realReadSize, first := 0, Task(0, 0, 0);
    if 0 > offset || 0 >= bufSize { return InvalidArgument, 0, first; }
    if offset > |file| { return FileLengthInvalid, 0, first; }
    if offset == |file| { return Success, 0, first; }
    var size := Min(|file| - offset, bufSize);
    var code;
    code, realReadSize, first := ReadRange(file, offset, buf, size, concurrency, storage, schedule);
    ret := if code == 0 then Success else Failed(code);
  }
}
