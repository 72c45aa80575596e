/** The arithmetic of the restart trim: what the pool looks like after each
    rename, and why the target of a rename is always free. */
module PoolTrim {
  import opened PoolDisk

  ghost predicate Ascending(ids: seq<nat>) {
    forall i, j | 0 <= i < j < |ids| :: ids[i] < ids[j]
  }

  ghost function Elements(ids: seq<nat>): set<nat> {
    set x | x in ids
  }

  /** `gap` is the index of the first id that does not follow its predecessor,
      or 0 when there is none. */
  ghost predicate GapAt(ids: seq<nat>, gap: nat)
    requires ids != []
  {
    && gap < |ids|
    && (forall i | 0 <= i < (if gap == 0 then |ids| else gap) :: ids[i] == ids[0] + i)
    && (gap > 0 ==> ids[gap] > ids[0] + gap)
  }

  /** The pool once the first `idx` blocks are consecutive. */
  ghost function Trimmed(ids: seq<nat>, idx: nat): set<nat>
    requires ids != [] && idx <= |ids|
  {
    IdRange(ids[0], ids[0] + idx) + Elements(ids[idx..])
  }

  lemma {:induction false} ElementsSize(ids: seq<nat>)
    requires Ascending(ids)
    ensures |Elements(ids)| == |ids|
  {
    if ids != [] {
      var init, last := ids[..|ids| - 1], ids[|ids| - 1];
      ElementsSize(init);
      assert Elements(ids) == Elements(init) + {last};
      AddOne(Elements(init), last);
    }
  }

  ghost predicate IsLeast(x: nat, s: set<nat>) {
    x in s && forall y | y in s :: x <= y
  }

  lemma {:induction false} LeastExists(s: set<nat>)
    requires s != {}
    ensures exists x :: IsLeast(x, s)
  {
    var x :| x in s;
    var rest := s - {x};
    assert s == rest + {x};
    if rest == {} {
      assert IsLeast(x, s);
    } else {
      LeastExists(rest);
      var z :| IsLeast(z, rest);
      assert IsLeast(if x < z then x else z, s);
    }
  }

  /** `ids` lists, in order, the ids of `pool` below those of `rest`. */
  ghost predicate Scanned(pool: set<nat>, ids: seq<nat>, rest: set<nat>) {
    && Ascending(ids)
    && Elements(ids) + rest == pool
    && forall x, y | x in ids && y in rest :: x < y
  }

  lemma ScanStep(pool: set<nat>, ids: seq<nat>, rest: set<nat>, x: nat)
    requires Scanned(pool, ids, rest) && IsLeast(x, rest)
    ensures Scanned(pool, ids + [x], rest - {x})
  {
    forall i | 0 <= i < |ids|
      ensures (ids + [x])[i] < x
    {
      assert ids[i] in ids;
    }
    assert Elements(ids + [x]) == Elements(ids) + {x};
  }

  lemma {:induction false} AscendingGrowth(ids: seq<nat>, i: nat, j: nat)
    requires Ascending(ids) && i <= j < |ids|
    ensures ids[j] >= ids[i] + (j - i)
  {
    if i < j {
      AscendingGrowth(ids, i, j - 1);
    }
  }

  lemma TrimStart(ids: seq<nat>, n: nat)
    requires 0 < n <= |ids| && forall i | 0 <= i < n :: ids[i] == ids[0] + i
    ensures Trimmed(ids, n) == Elements(ids)
  {
    forall x | x in IdRange(ids[0], ids[0] + n)
      ensures x in ids
    {
      assert ids[x - ids[0]] == x;
    }
    forall x | x in ids
      ensures x in Trimmed(ids, n)
    {
      var i :| 0 <= i < |ids| && ids[i] == x;
      assert i >= n ==> ids[n..][i - n] == x;
    }
  }

  lemma TrimEnd(ids: seq<nat>)
    requires ids != []
    ensures Trimmed(ids, |ids|) == IdRange(ids[0], ids[0] + |ids|)
  {
  }

  /** One rename of the trim: its target is free, the source is present, and
      afterwards one more block is consecutive. */
  lemma TrimStep(ids: seq<nat>, gap: nat, idx: nat)
    requires Ascending(ids) && ids != [] && GapAt(ids, gap) && 0 < gap <= idx < |ids|
    ensures ids[0] + idx !in Trimmed(ids, idx) && ids[idx] in Trimmed(ids, idx)
    ensures Trimmed(ids, idx) - {ids[idx]} + {ids[0] + idx} == Trimmed(ids, idx + 1)
  {
    AscendingGrowth(ids, gap, idx);
    var dst := ids[0] + idx;
    var rest := ids[idx + 1..];
    assert ids[idx..] == [ids[idx]] + rest;
    forall x | x in rest
      ensures x > ids[idx] > dst
    {
      var i :| 0 <= i < |rest| && rest[i] == x;
      assert rest[i] == ids[idx + 1 + i];
    }
    PushBack(ids[0], dst);
  }

  /** `stages[i]` is the pool once `i` blocks are consecutive: every rename has
      a free target, leads to the next stage, and no stage loses a block. */
  ghost predicate Plan(ids: seq<nat>, gap: nat, stages: seq<set<nat>>) {
    && 0 < gap <= |ids|
    && |stages| == |ids| + 1
    && stages[|ids|] == IdRange(ids[0], ids[0] + |ids|)
    && (forall i: nat | gap <= i < |ids| :: FreeMove(ids, stages, i))
    && (forall i: nat | gap <= i <= |ids| :: SameSize(stages, gap, i))
  }

  ghost predicate FreeMove(ids: seq<nat>, stages: seq<set<nat>>, i: nat)
    requires i < |ids| && |stages| == |ids| + 1
  {
    && ids[i] in stages[i] && ids[0] + i !in stages[i]
    && stages[i] - {ids[i]} + {ids[0] + i} == stages[i + 1]
  }

  ghost predicate SameSize(stages: seq<set<nat>>, i: nat, j: nat)
    requires i < |stages| && j < |stages|
  {
    |stages[i]| == |stages[j]|
  }

  /** A rename onto a free id keeps the number of blocks, so no stage loses any. */
  lemma {:induction false} MovesKeepSize(ids: seq<nat>, stages: seq<set<nat>>, gap: nat, i: nat)
    requires |stages| == |ids| + 1 && gap <= i <= |ids| && forall k: nat | gap <= k < |ids| :: FreeMove(ids, stages, k)
    ensures SameSize(stages, gap, i)
    decreases i
  {
    if gap < i {
      MovesKeepSize(ids, stages, gap, i - 1);
      assert FreeMove(ids, stages, i - 1);
      DropOne(stages[i - 1], ids[i - 1]);
      AddOne(stages[i - 1] - {ids[i - 1]}, ids[0] + i - 1);
    }
  }

  lemma TrimPlan(ids: seq<nat>, gap: nat) returns (stages: seq<set<nat>>)
    requires Ascending(ids) && ids != [] && GapAt(ids, gap) && gap > 0
    ensures Plan(ids, gap, stages) && stages[gap] == Elements(ids)
  {
    stages := seq(|ids| + 1, i requires 0 <= i <= |ids| => Trimmed(ids, i));
    forall i | gap <= i < |ids|
      ensures FreeMove(ids, stages, i)
    {
      TrimStep(ids, gap, i);
    }
    forall i: nat | gap <= i <= |ids|
      ensures SameSize(stages, gap, i)
    {
      MovesKeepSize(ids, stages, gap, i);
    }
    TrimStart(ids, gap);
    TrimEnd(ids);
  }
}
