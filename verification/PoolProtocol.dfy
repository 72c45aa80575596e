/** Block creation, recycling and one resize running concurrently. Each of them
    first claims an id from one end of the pool's range, under a lock, and only
    later renames or unlinks the file of that id, without it. */
module PoolProtocol {
  import opened PoolDisk

  /** The resize in progress: how many ids it still has to claim, the ids (at
      most one) it has claimed but not yet moved or unlinked, and the meta record
      to go back to. */
  datatype Phase =
    | Idle
    | Growing(left: nat, claimed: set<nat>, before: Meta)
    | Freeing(left: nat, claimed: set<nat>, before: Meta)

  datatype State = State(
    // disk: pool files, and blocks in tenant directories
    pool: set<nat>, tenants: nat, meta: Meta,
    // memory
    minId: nat, maxId: nat, inUse: int, reserved: nat,
    // claimed by block creations and recyclings that have not renamed yet
    creating: set<nat>, recycling: set<nat>,
    phase: Phase,
    // history: blocks unlinked by shrinks that failed afterwards
    lost: nat)

  datatype Action =
    | ClaimCreate
    | FinishCreate(id: nat)
    | ClaimRecycle
    | FinishRecycle(id: nat)
    | StartResize(newSize: nat)
    | ClaimExpand
    | FinishExpand(id: nat)
    | ClaimFree
    | FinishFree(id: nat)
    | EndResize
    | FailExpand
    | FailShrink
    | Reserve(size: nat)

  /** Renaming or unlinking a missing file is retried, so it is enabled only
      once the file is there. The reservation changes under the resize lock. An
      expand fails only while it allocates, before its first claim; a shrink
      fails on meeting an empty range. */
  predicate Enabled(s: State, a: Action) {
    match a
    case ClaimCreate => s.minId < s.maxId
    case FinishCreate(id) => id in s.creating && id in s.pool
    case ClaimRecycle => |s.recycling| < s.tenants
    case FinishRecycle(id) => id in s.recycling && s.tenants > 0
    case StartResize(size) => s.phase.Idle? && LowerAlign(size) != s.meta.curr && s.reserved <= LowerAlign(size)
    case ClaimExpand => s.phase.Growing? && s.phase.left > 0 && s.phase.claimed == {}
    case FinishExpand(id) => s.phase.Growing? && id in s.phase.claimed
    case ClaimFree => s.phase.Freeing? && s.phase.left > 0 && s.phase.claimed == {} && s.minId < s.maxId
    case FinishFree(id) => s.phase.Freeing? && id in s.phase.claimed && id in s.pool
    case EndResize => !s.phase.Idle? && s.phase.left == 0 && s.phase.claimed == {}
    case FailExpand => s.phase.Growing? && s.phase.claimed == {} && s.phase.left == Change(s.phase.before, s.meta)
    case FailShrink => s.phase.Freeing? && s.phase.claimed == {} && s.phase.left > 0 && s.minId == s.maxId
    case Reserve(size) => s.phase.Idle? && size <= s.meta.curr
  }

  /** The number of blocks a resize has to add or to free. */
  function Change(before: Meta, now: Meta): nat {
    var from, to := BlockCount(before.curr), BlockCount(now.next);
    if to > from then to - from else from - to
  }

  function Do(s: State, a: Action): State
    requires Enabled(s, a)
  {
    match a
    case ClaimCreate => s.(minId := s.minId + 1, inUse := s.inUse + 1, creating := s.creating + {s.minId})
    case FinishCreate(id) => s.(pool := s.pool - {id}, tenants := s.tenants + 1, creating := s.creating - {id})
    case ClaimRecycle => s.(maxId := s.maxId + 1, inUse := s.inUse - 1, recycling := s.recycling + {s.maxId})
    case FinishRecycle(id) => s.(pool := s.pool + {id}, tenants := s.tenants - 1, recycling := s.recycling - {id})
    case StartResize(size) =>
      var next := Meta(s.meta.curr, LowerAlign(size), if LowerAlign(size) > s.meta.curr then Expanding else Shrinking);
      s.(meta := next,
         phase := if next.status == Expanding then Growing(Change(s.meta, next), {}, s.meta)
                  else Freeing(Change(s.meta, next), {}, s.meta))
    case ClaimExpand => s.(maxId := s.maxId + 1, phase := Growing(s.phase.left - 1, {s.maxId}, s.phase.before))
    case FinishExpand(id) =>
      s.(pool := s.pool + {id}, phase := Growing(s.phase.left, s.phase.claimed - {id}, s.phase.before))
    case ClaimFree => s.(minId := s.minId + 1, phase := Freeing(s.phase.left - 1, {s.minId}, s.phase.before))
    case FinishFree(id) =>
      s.(pool := s.pool - {id}, phase := Freeing(s.phase.left, s.phase.claimed - {id}, s.phase.before))
    case EndResize => s.(meta := Meta(s.meta.next, s.meta.next, Normal), phase := Idle)
    case FailExpand => s.(meta := s.phase.before, phase := Idle)
    case FailShrink => s.(meta := s.phase.before, phase := Idle, lost := s.lost + Freed(s))
    case Reserve(size) => s.(reserved := size)
  }

  /** How many blocks the running shrink has claimed so far. */
  function Freed(s: State): nat
    requires s.phase.Freeing?
  {
    var change := Change(s.phase.before, s.meta);
    if s.phase.left <= change then change - s.phase.left else 0
  }

  /** The id's file is on its way into the pool. */
  predicate Incoming(s: State, id: nat) {
    id in s.recycling || (s.phase.Growing? && id in s.phase.claimed)
  }

  /** The id is consumed, but its file has not left the pool yet. */
  predicate Outgoing(s: State, id: nat) {
    id in s.creating || (s.phase.Freeing? && id in s.phase.claimed)
  }

  /** An id not yet consumed is a file of the pool or on its way into it, never
      both; and nobody else has claimed it from the same end. */
  predicate IdOk(s: State, id: nat) {
    && !(id in s.pool && Incoming(s, id))
    && ((id in s.pool || Incoming(s, id)) <==> (s.minId <= id < s.maxId || Outgoing(s, id)))
    && (Outgoing(s, id) ==> id < s.minId)
    && (Incoming(s, id) ==> id < s.maxId)
    && !(s.phase.Growing? && id in s.phase.claimed && id in s.recycling)
    && !(s.phase.Freeing? && id in s.phase.claimed && id in s.creating)
  }

  ghost predicate IdInv(s: State) {
    s.minId <= s.maxId && forall id: nat :: IdOk(s, id)
  }

  /** A block being recycled still lies in a tenant directory; one being created
      does not lie there yet. */
  ghost predicate UseInv(s: State) {
    s.tenants + |s.creating| == s.inUse + |s.recycling| && |s.recycling| <= s.tenants
  }

  /** The free ids, the blocks in use and the blocks lost add up to the size the
      resize has reached. */
  ghost predicate SizeInv(s: State) {
    var reached := s.maxId - s.minId + s.inUse + s.lost;
    var to := BlockCount(s.meta.next);
    && Aligned(s.meta.curr) && Aligned(s.meta.next)
    && match s.phase
       case Idle => s.meta.status == Normal && reached == BlockCount(s.meta.curr) && s.reserved <= s.meta.curr
       case Growing(left, claimed, before) =>
         && Resizing(s, before, Expanding) && reached + left == to
         && left + |claimed| <= Change(before, s.meta) && BlockCount(before.curr) < to
       case Freeing(left, claimed, before) =>
         && Resizing(s, before, Shrinking) && reached == to + left
         && left + |claimed| <= Change(before, s.meta) && to < BlockCount(before.curr)
  }

  ghost predicate Resizing(s: State, before: Meta, status: Status) {
    && s.meta == Meta(before.curr, s.meta.next, status) && before.status == Normal && Aligned(before.next)
    && s.reserved <= before.curr && s.reserved <= s.meta.next
  }

  ghost predicate Inv(s: State) {
    IdInv(s) && UseInv(s) && SizeInv(s)
  }

  ghost predicate Init(s: State) {
    && s.creating == s.recycling == {} && s.phase == Idle && s.lost == 0
    && s.minId <= s.maxId && s.pool == IdRange(s.minId, s.maxId) && s.inUse == s.tenants
    && s.meta.status == Normal && Aligned(s.meta.curr) && Aligned(s.meta.next) && s.reserved <= s.meta.curr
    && |s.pool| + s.tenants == BlockCount(s.meta.curr)
  }

  /** A run: the actions taken one after another, in any interleaving. */
  ghost predicate Run(states: seq<State>, actions: seq<Action>) {
    && |states| == |actions| + 1
    && Init(states[0])
    && forall i: nat | i < |actions| :: Taken(states, actions, i)
  }

  ghost predicate Taken(states: seq<State>, actions: seq<Action>, i: nat)
    requires i < |actions| && |states| == |actions| + 1
  {
    Enabled(states[i], actions[i]) && states[i + 1] == Do(states[i], actions[i])
  }

  lemma InitInv(s: State)
    requires Init(s)
    ensures Inv(s)
  {
    IdRangeSize(s.minId, s.maxId);
  }

  lemma IdInvStep(s: State, a: Action)
    requires IdInv(s) && Enabled(s, a)
    ensures IdInv(Do(s, a))
  {
    var t := Do(s, a);
    forall id: nat
      ensures IdOk(t, id)
    {
      assert IdOk(s, id);
    }
    assert IdOk(s, s.maxId);
  }

  lemma UseInvStep(s: State, a: Action)
    requires UseInv(s) && Enabled(s, a) && s.minId !in s.creating && s.maxId !in s.recycling
    ensures UseInv(Do(s, a))
  {
    match a
    case ClaimCreate => AddOne(s.creating, s.minId);
    case FinishCreate(id) => DropOne(s.creating, id);
    case ClaimRecycle => AddOne(s.recycling, s.maxId);
    case FinishRecycle(id) => DropOne(s.recycling, id);
    case _ =>
  }

  lemma StartSize(s: State, size: nat)
    requires SizeInv(s) && Enabled(s, StartResize(size))
    ensures SizeInv(Do(s, StartResize(size)))
  {
    LowerAlignFacts(size);
    AlignedBlocks(BlockCount(s.meta.curr));
  }

  lemma EndSize(s: State, a: Action)
    requires SizeInv(s) && Enabled(s, a) && (a.EndResize? || a.FailExpand? || a.FailShrink?)
    ensures SizeInv(Do(s, a))
  {
  }

  lemma SizeInvStep(s: State, a: Action)
    requires SizeInv(s) && Enabled(s, a)
    ensures SizeInv(Do(s, a))
  {
    match a
    case StartResize(size) => StartSize(s, size);
    case EndResize => EndSize(s, a);
    case FailExpand => EndSize(s, a);
    case FailShrink => EndSize(s, a);
    case FinishExpand(id) => DropOne(s.phase.claimed, id);
    case FinishFree(id) => DropOne(s.phase.claimed, id);
    case _ =>
  }

  lemma InvStep(s: State, a: Action)
    requires Inv(s) && Enabled(s, a)
    ensures Inv(Do(s, a))
  {
    IdInvStep(s, a);
    assert IdOk(s, s.minId) && IdOk(s, s.maxId);
    UseInvStep(s, a);
    SizeInvStep(s, a);
  }

  lemma {:induction false} RunKeepsInv(states: seq<State>, actions: seq<Action>, n: nat)
    requires Run(states, actions) && n < |states|
    ensures Inv(states[n])
  {
    if n == 0 {
      InitInv(states[0]);
    } else {
      RunKeepsInv(states, actions, n - 1);
      assert Taken(states, actions, n - 1);
      InvStep(states[n - 1], actions[n - 1]);
    }
  }

  /** No rename ever replaces a file of the pool. */
  lemma NoRenameOverwrites(states: seq<State>, actions: seq<Action>, n: nat)
    requires Run(states, actions) && n < |actions|
    ensures actions[n].FinishRecycle? || actions[n].FinishExpand? ==> actions[n].id !in states[n].pool
  {
    RunKeepsInv(states, actions, n);
    assert Taken(states, actions, n);
    if actions[n].FinishRecycle? || actions[n].FinishExpand? {
      assert IdOk(states[n], actions[n].id);
    }
  }

  /** A create or a shrink that waits for its file is never stuck: the file is
      on its way, and the rename that brings it is enabled. */
  lemma WaiterIsServed(s: State, id: nat)
    requires Inv(s) && Outgoing(s, id) && id !in s.pool
    ensures Enabled(s, FinishRecycle(id)) || Enabled(s, FinishExpand(id))
  {
    assert IdOk(s, id);
    if id in s.recycling {
      assert s.recycling == (s.recycling - {id}) + {id};
    }
  }

  /** The size the pool is at, between the two of a running resize. */
  ghost function Reached(s: State): int {
    match s.phase
    case Idle => BlockCount(s.meta.curr)
    case Growing(left, _, _) => BlockCount(s.meta.next) - left
    case Freeing(left, _, _) => BlockCount(s.meta.next) + left
  }

  /** A block can be created exactly while those in use and lost are fewer than the
      size reached, resize or not, and recycled while one in use is not just being
      created; every recycling can be finished. */
  lemma TenantsAreServed(s: State)
    requires Inv(s)
    ensures Enabled(s, ClaimCreate) <==> s.inUse + s.lost < Reached(s)
    ensures Enabled(s, ClaimRecycle) <==> |s.creating| < s.inUse
    ensures forall id | id in s.recycling :: Enabled(s, FinishRecycle(id))
  {
    forall id | id in s.recycling
      ensures s.tenants > 0
    {
      assert s.recycling == (s.recycling - {id}) + {id};
    }
  }

  predicate ResizeStep(a: Action) {
    a.ClaimExpand? || a.FinishExpand? || a.ClaimFree? || a.FinishFree?
  }

  predicate ResizeEnd(a: Action) {
    a.EndResize? || a.FailExpand? || a.FailShrink?
  }

  /** What a running resize still has to do. */
  ghost function Work(s: State): nat {
    match s.phase
    case Idle => 0
    case Growing(left, claimed, _) => 2 * left + |claimed|
    case Freeing(left, claimed, _) => 2 * left + |claimed|
  }

  /** A running resize is never stuck: a step or the end of it is enabled, or the
      recycling that brings the file it waits for. */
  lemma ResizeGoesOn(s: State) returns (a: Action)
    requires Inv(s) && !s.phase.Idle?
    ensures Enabled(s, a)
    ensures || ResizeStep(a) || ResizeEnd(a)
            || (a.FinishRecycle? && s.phase.Freeing? && a.id in s.phase.claimed && a.id !in s.pool)
  {
    if s.phase.claimed != {} {
      var id :| id in s.phase.claimed;
      if s.phase.Growing? {
        a := FinishExpand(id);
      } else if id in s.pool {
        a := FinishFree(id);
      } else {
        WaiterIsServed(s, id);
        a := FinishRecycle(id);
      }
    } else if s.phase.left == 0 {
      a := EndResize;
    } else if s.phase.Growing? {
      a := ClaimExpand;
    } else {
      ShrinkStarves(s);
      a := if Enabled(s, ClaimFree) then ClaimFree else FailShrink;
    }
  }

  lemma StepWorks(s: State, a: Action)
    requires Enabled(s, a) && ResizeStep(a)
    ensures Work(Do(s, a)) < Work(s) && !Do(s, a).phase.Idle?
  {
    if a.FinishExpand? || a.FinishFree? {
      DropOne(s.phase.claimed, a.id);
    }
  }

  lemma OthersWait(s: State, a: Action)
    requires Enabled(s, a) && !ResizeStep(a) && !ResizeEnd(a) && !a.StartResize?
    ensures Do(s, a).phase == s.phase
  {
  }

  /** And it ends after so many steps of its own, whatever happens in between. */
  lemma ResizeWorks(s: State, a: Action)
    requires Enabled(s, a) && !a.StartResize?
    ensures Work(Do(s, a)) <= Work(s)
    ensures ResizeStep(a) ==> Work(Do(s, a)) < Work(s) && !Do(s, a).phase.Idle?
    ensures ResizeEnd(a) ==> Do(s, a).phase.Idle?
  {
    if ResizeStep(a) {
      StepWorks(s, a);
    } else if !ResizeEnd(a) {
      OthersWait(s, a);
    }
  }

  predicate ClaimsLow(a: Action) {
    a.ClaimCreate? || a.ClaimFree?
  }

  predicate ClaimsHigh(a: Action) {
    a.ClaimRecycle? || a.ClaimExpand?
  }

  lemma {:induction false} RangeOnlyAdvances(states: seq<State>, actions: seq<Action>, i: nat, j: nat)
    requires Run(states, actions) && i <= j < |states|
    ensures states[i].minId <= states[j].minId && states[i].maxId <= states[j].maxId
    decreases j
  {
    if i < j {
      RangeOnlyAdvances(states, actions, i, j - 1);
      assert Taken(states, actions, j - 1);
    }
  }

  /** No id is claimed twice from the same end. */
  lemma ClaimsAreUnique(states: seq<State>, actions: seq<Action>, i: nat, j: nat)
    requires Run(states, actions) && i < j < |actions|
    ensures ClaimsLow(actions[i]) && ClaimsLow(actions[j]) ==> states[i].minId != states[j].minId
    ensures ClaimsHigh(actions[i]) && ClaimsHigh(actions[j]) ==> states[i].maxId != states[j].maxId
  {
    RangeOnlyAdvances(states, actions, i + 1, j);
    assert Taken(states, actions, i);
  }

  /** A shrink runs out of free blocks exactly when the blocks in use, and those
      lost before, exceed the size it still has to come down from. */
  lemma ShrinkStarves(s: State)
    requires Inv(s) && s.phase.Freeing? && s.phase.left > 0 && s.phase.claimed == {}
    ensures Enabled(s, ClaimFree) <==> s.inUse + s.lost < BlockCount(s.meta.next) + s.phase.left
    ensures Enabled(s, FailShrink) <==> !Enabled(s, ClaimFree)
  {
  }

  /** A shrink failed at step i after it had freed some blocks. */
  ghost predicate FailedLate(states: seq<State>, actions: seq<Action>, i: nat)
    requires i < |actions| && |states| == |actions| + 1
  {
    actions[i] == FailShrink && states[i].phase.Freeing? && Freed(states[i]) > 0
  }

  /** The free and used blocks account for the recorded size exactly as long as
      no shrink has failed after freeing blocks. */
  lemma {:induction false} LostExactly(states: seq<State>, actions: seq<Action>, n: nat)
    requires Run(states, actions) && n < |states|
    ensures states[n].lost == 0 <==> forall i: nat | i < n :: !FailedLate(states, actions, i)
  {
    if n > 0 {
      LostExactly(states, actions, n - 1);
      assert Taken(states, actions, n - 1);
      assert FailedLate(states, actions, n - 1) <==> states[n].lost > states[n - 1].lost;
    }
  }

  /** Tenants stay within their reservation whenever a shrink is running. */
  ghost predicate WithinReservation(states: seq<State>) {
    forall i: nat | i < |states| && states[i].phase.Freeing? :: states[i].inUse * BLOCK_SIZE <= states[i].reserved
  }

  /** While tenants stay within their reservation during shrinks, no shrink
      fails, and nothing is lost. */
  lemma {:induction false} NothingLost(states: seq<State>, actions: seq<Action>, n: nat)
    requires Run(states, actions) && n < |states| && WithinReservation(states)
    ensures states[n].lost == 0 && (n < |actions| ==> actions[n] != FailShrink)
  {
    RunKeepsInv(states, actions, n);
    if n > 0 {
      NothingLost(states, actions, n - 1);
      assert Taken(states, actions, n - 1);
    }
    if n < |actions| {
      assert Taken(states, actions, n);
      if actions[n] == FailShrink {
        ShrinkStarves(states[n]);
      }
    }
  }

  /** Then a running shrink always finds a free block. */
  lemma ShrinkNeverStarves(states: seq<State>, actions: seq<Action>, n: nat)
    requires Run(states, actions) && n < |states| && WithinReservation(states)
    requires states[n].phase.Freeing? && states[n].phase.left > 0 && states[n].phase.claimed == {}
    ensures Enabled(states[n], ClaimFree) && !Enabled(states[n], FailShrink)
  {
    RunKeepsInv(states, actions, n);
    NothingLost(states, actions, n);
    ShrinkStarves(states[n]);
  }

  /** When a resize ends, free and used blocks add up to the requested size, less
      what failed shrinks lost before; exactly so without such a failure. */
  lemma ResizeEndsAtTarget(states: seq<State>, actions: seq<Action>, n: nat)
    requires Run(states, actions) && n < |actions| && actions[n] == EndResize
    ensures var t := states[n + 1];
            && t.meta == Meta(states[n].meta.next, states[n].meta.next, Normal)
            && (t.maxId - t.minId + t.inUse + t.lost) * BLOCK_SIZE == t.meta.curr
    ensures var t := states[n + 1];
            (t.maxId - t.minId + t.inUse) * BLOCK_SIZE == t.meta.curr <==>
            forall i: nat | i < n :: !FailedLate(states, actions, i)
  {
    RunKeepsInv(states, actions, n + 1);
    RunKeepsInv(states, actions, n);
    LostExactly(states, actions, n);
    assert Taken(states, actions, n);
  }

  ghost predicate Reachable(s: State) {
    exists states, actions :: Run(states, actions) && states[|actions|] == s
  }

  lemma ReachStep(s: State, a: Action)
    requires Reachable(s) && Enabled(s, a)
    ensures Reachable(Do(s, a))
  {
    var states, actions :| Run(states, actions) && states[|actions|] == s;
    var states', actions' := states + [Do(s, a)], actions + [a];
    forall i: nat | i < |actions'|
      ensures Taken(states', actions', i)
    {
      if i < |actions| {
        assert Taken(states, actions, i);
      }
    }
    assert Run(states', actions');
  }

  /** A pool of two blocks recorded, with ids [lo, hi) free. */
  function TwoBlocks(lo: nat, hi: nat, tenants: nat, lost: nat): State {
    var meta := Meta(2 * BLOCK_SIZE, 2 * BLOCK_SIZE, Normal);
    State(IdRange(lo, hi), tenants, meta, lo, hi, tenants, 0, {}, {}, Idle, lost)
  }

  /** A shrink to nothing frees the one free block and then fails. */
  lemma ShrinkToNothing(lo: nat, tenants: nat, lost: nat) returns (s: State)
    requires Reachable(TwoBlocks(lo, lo + 1, tenants, lost))
    ensures Reachable(s) && s.phase.Freeing? && Enabled(s, FailShrink) && s.inUse == tenants && s.reserved == 0
    ensures Do(s, FailShrink) == TwoBlocks(lo + 1, lo + 1, tenants, lost + 1)
  {
    s := TwoBlocks(lo, lo + 1, tenants, lost);
    var before := s.meta;
    ReachStep(s, StartResize(0));
    s := Do(s, StartResize(0));
    assert s.phase == Freeing(2, {}, before);
    ReachStep(s, ClaimFree);
    s := Do(s, ClaimFree);
    ReachStep(s, FinishFree(lo));
    s := Do(s, FinishFree(lo));
    assert s.phase == Freeing(1, {}, before) && s.pool == IdRange(lo + 1, lo + 1);
  }

  lemma RecycleLast(id: nat, lost: nat)
    requires Reachable(TwoBlocks(id, id, 1, lost))
    ensures Reachable(TwoBlocks(id, id + 1, 0, lost))
  {
    var s := TwoBlocks(id, id, 1, lost);
    ReachStep(s, ClaimRecycle);
    s := Do(s, ClaimRecycle);
    ReachStep(s, FinishRecycle(id));
    s := Do(s, FinishRecycle(id));
    assert s.pool == IdRange(id, id + 1) && s.recycling == {};
    assert s == TwoBlocks(id, id + 1, 0, lost);
  }

  /** With one of two blocks in use a shrink to nothing fails half-way. After the
      block has come back, the same shrink fails again, although nothing is in
      use any more: a premise about the present state alone is not enough. */
  lemma FailureStarvesTheNext() returns (s: State)
    ensures Reachable(s) && s.phase.Freeing? && s.inUse == 0 == s.reserved && Enabled(s, FailShrink)
  {
    var s0 := TwoBlocks(0, 1, 1, 0);
    IdRangeSize(0, 1);
    assert Run([s0], []);
    s := ShrinkToNothing(0, 1, 0);
    ReachStep(s, FailShrink);
    RecycleLast(1, 1);
    s := ShrinkToNothing(1, 0, 1);
  }

  function InSet(s: State): set<nat> {
    s.recycling + if s.phase.Growing? then s.phase.claimed else {}
  }

  function OutSet(s: State): set<nat> {
    s.creating + if s.phase.Freeing? then s.phase.claimed else {}
  }

  /** The blocks on disk: those the resize has reached, less a block still in
      the temporary directory, plus one not yet unlinked. */
  lemma DiskTotal(s: State)
    requires Inv(s)
    ensures |s.pool| + s.tenants == s.maxId - s.minId + s.inUse
                                    - (if s.phase.Growing? then |s.phase.claimed| else 0)
                                    + (if s.phase.Freeing? then |s.phase.claimed| else 0)
  {
    IdSets(s);
    var all := s.pool + InSet(s);
    assert |all| == |s.pool| + |InSet(s)| by {
      DisjointUnionSize(s.pool, InSet(s));
    }
    assert |all| == s.maxId - s.minId + |OutSet(s)| by {
      DisjointUnionSize(IdRange(s.minId, s.maxId), OutSet(s));
      IdRangeSize(s.minId, s.maxId);
    }
    DisjointUnionSize(s.recycling, if s.phase.Growing? then s.phase.claimed else {});
    DisjointUnionSize(s.creating, if s.phase.Freeing? then s.phase.claimed else {});
  }

  lemma IdSets(s: State)
    requires IdInv(s)
    ensures s.pool + InSet(s) == IdRange(s.minId, s.maxId) + OutSet(s)
    ensures s.pool !! InSet(s) && IdRange(s.minId, s.maxId) !! OutSet(s)
    ensures s.phase.Growing? ==> s.recycling !! s.phase.claimed
    ensures s.phase.Freeing? ==> s.creating !! s.phase.claimed
  {
    forall id: nat
      ensures id in s.pool + InSet(s) <==> id in IdRange(s.minId, s.maxId) + OutSet(s)
      ensures !(id in s.pool && id in InSet(s)) && !(id in IdRange(s.minId, s.maxId) && id in OutSet(s))
      ensures s.phase.Growing? ==> !(id in s.recycling && id in s.phase.claimed)
      ensures s.phase.Freeing? ==> !(id in s.creating && id in s.phase.claimed)
    {
      assert IdOk(s, id);
    }
  }

  /** The disk a power failure in state `s` leaves. Of the tenant blocks,
      `tenantTmp` carry a temporary name: a block is renamed to one before it is
      recycled. `tmp` and `space` are whatever the expand left. */
  function CrashDisk(s: State, tenantTmp: nat, tmp: set<nat>, space: nat): Disk
    requires tenantTmp <= s.tenants
  {
    Disk(s.pool, s.phase.Growing?, tmp, s.tenants - tenantTmp, tenantTmp, space, s.meta)
  }

  /** What failed shrinks have lost is no more than what the running resize still
      makes up for. */
  predicate Covered(s: State) {
    match s.phase
    case Idle => s.lost == 0
    case Growing(left, claimed, before) => s.lost + left + |claimed| <= Change(before, s.meta)
    case Freeing(left, claimed, before) => s.lost <= left + |claimed|
  }

  /** Whenever the power fails, the disk lies between the old and the requested
      size exactly if the losses are covered. */
  lemma CrashLeavesConsistentDisk(states: seq<State>, actions: seq<Action>, n: nat,
                                  tenantTmp: nat, tmp: set<nat>, space: nat)
    requires Run(states, actions) && n < |states|
    requires |states[n].recycling| <= tenantTmp <= states[n].tenants
    ensures Consistent(CrashDisk(states[n], tenantTmp, tmp, space)) <==> Covered(states[n])
    ensures states[n].inUse * BLOCK_SIZE <= states[n].reserved ==> Fits(CrashDisk(states[n], tenantTmp, tmp, space))
  {
    RunKeepsInv(states, actions, n);
    DiskTotal(states[n]);
  }

  /** As long as no shrink has failed after freeing blocks, a power failure leaves
      a disk that a restart can complete. */
  lemma CrashWithoutFailure(states: seq<State>, actions: seq<Action>, n: nat,
                            tenantTmp: nat, tmp: set<nat>, space: nat)
    requires Run(states, actions) && n < |states|
    requires forall i: nat | i < n :: !FailedLate(states, actions, i)
    requires |states[n].recycling| <= tenantTmp <= states[n].tenants
    ensures Consistent(CrashDisk(states[n], tenantTmp, tmp, space))
  {
    RunKeepsInv(states, actions, n);
    LostExactly(states, actions, n);
    CrashLeavesConsistentDisk(states, actions, n, tenantTmp, tmp, space);
  }
}
