/** The sequential code of the server log block manager: resizing the pool,
    and rebuilding it after a restart. The device may lose power before any
    write; every method then returns at once with `PowerLost`. */
module PoolManager {
  import opened PoolDisk
  import opened PoolTrim
  import PoolProtocol

  datatype Ret = Ok | PowerLost | NotSupported | NoBlock | AllocFailed | TmpDirExists | Unexpected

  /** A disk that performs `power` more writes. */
  class Device {
    var d: Disk
    var power: nat
    // how many pool files a rename has replaced
    ghost var lost: nat

    constructor (d: Disk, power: nat)
      ensures this.d == d && this.power == power && lost == 0
    {
      this.d, this.power, lost := d, power, 0;
    }

    method Submit(w: Write) returns (ok: bool)
      modifies this
      ensures ok == (old(power) > 0)
      ensures ok ==> power == old(power) - 1 && d == Effect(old(d), w)
                     && lost == old(lost) + if Overwrites(old(d), w) then 1 else 0
      ensures !ok ==> power == 0 && d == old(d) && lost == old(lost)
    {
      ok := power > 0;
      if ok {
        lost := lost + if Overwrites(d, w) then 1 else 0;
        power, d := power - 1, Effect(d, w);
      }
    }
  }

  /** An operation that takes at most `cost` writes loses power only if the device
      had fewer left, and only once it has none. */
  ghost predicate Spent(r: Ret, before: nat, after: nat, cost: nat) {
    if r == PowerLost then after == 0 && before < cost else after <= before <= after + cost
  }

  /** Writes a change of the pool by `cnt` blocks takes at most. */
  ghost function ResizeCost(cnt: nat): nat {
    2 * cnt + 4
  }

  /** Writes a load takes at most: renames out of the temporary names and past the
      gaps, and the recorded resize. */
  ghost function LoadCost(d: Disk): nat {
    RebuildCost(d) + if d.meta.status == Normal then 0 else ResizeCost(BlockCount(d.meta.next) + Total(d))
  }

  ghost function RebuildCost(d: Disk): nat {
    |d.pool| + 2 * d.tenantTmp + 1
  }

  ghost function Larger(a: nat, b: nat): nat {
    if a < b then b else a
  }

  /** The largest size the pool has on the way to the recorded one, in blocks. */
  ghost function Top(m: Meta): nat {
    if m.status == Normal then BlockCount(m.curr) else Larger(BlockCount(m.curr), BlockCount(m.next))
  }

  /** Enough writes for any load on the way to one of the two sizes. */
  ghost predicate EnoughPower(powers: seq<nat>, top: nat) {
    exists i | 0 <= i < |powers| :: powers[i] >= 5 * top + 6
  }

  lemma EnoughForLess(powers: seq<nat>, top: nat, top': nat)
    requires EnoughPower(powers, top) && top' <= top
    ensures EnoughPower(powers, top')
  {
    var i :| 0 <= i < |powers| && powers[i] >= 5 * top + 6;
  }

  lemma EnoughForLoad(d: Disk)
    requires Consistent(d) && ReclaimSafe(d.pool, d.tenantTmp)
    ensures LoadCost(d) <= 5 * Top(d.meta) + 6
  {
  }

  class LogBlockMgr {
    const dev: Device
    var minBlockId: nat
    var maxBlockId: nat
    var meta: Meta
    var blockCntInUse: int
    // bytes reserved for all tenants
    var minLogDiskSize: nat

    constructor (dev: Device)
      ensures this.dev == dev && minBlockId == maxBlockId == 0 && meta == Meta(0, 0, Normal)
      ensures blockCntInUse == 0 && minLogDiskSize == 0
    {
      this.dev := dev;
      minBlockId, maxBlockId, meta := 0, 0, Meta(0, 0, Normal);
      blockCntInUse, minLogDiskSize := 0, 0;
    }

    /** The pool files are exactly those of the id range in memory. */
    ghost predicate RangeOk()
      reads this, dev
    {
      minBlockId <= maxBlockId && dev.d.pool == IdRange(minBlockId, maxBlockId)
    }

    /** Between two operations. */
    ghost predicate Ready()
      reads this, dev
    {
      RangeOk() && meta == dev.d.meta && meta.status == Normal && Consistent(dev.d)
    }

    method FreeBlocks(cnt: nat) returns (r: Ret)
      requires RangeOk()
      modifies this`minBlockId, dev
      ensures dev.d == old(dev.d).(pool := dev.d.pool, space := dev.d.space)
      ensures Spent(r, old(dev.power), dev.power, cnt)
      ensures dev.lost == old(dev.lost)
      ensures r == Ok ==> RangeOk() && minBlockId == old(minBlockId) + cnt
      ensures r == NoBlock ==> RangeOk() && minBlockId == maxBlockId
      ensures r == PowerLost ==> old(minBlockId) < minBlockId <= old(minBlockId) + cnt && minBlockId <= maxBlockId
                                 && dev.d.pool == IdRange(minBlockId - 1, maxBlockId)
      ensures r == Ok || r == NoBlock || r == PowerLost
      ensures |dev.d.pool| + dev.d.space == old(|dev.d.pool| + dev.d.space)
      ensures r == NoBlock ==> old(maxBlockId - minBlockId) < cnt
    {
      var remain := cnt;
      while remain > 0
        invariant 0 <= remain <= cnt && RangeOk() && minBlockId == old(minBlockId) + cnt - remain
        invariant dev.d == old(dev.d).(pool := dev.d.pool, space := dev.d.space)
        invariant |dev.d.pool| + dev.d.space == old(|dev.d.pool| + dev.d.space)
        invariant dev.lost == old(dev.lost) && dev.power + cnt - remain == old(dev.power)
      {
        if minBlockId == maxBlockId {
          return NoBlock;
        }
        var id := minBlockId;
        minBlockId := minBlockId + 1;
        PopFront(id, maxBlockId);
        DropOne(dev.d.pool, id);
        var ok := dev.Submit(Unlink(id));
        if !ok {
          return PowerLost;
        }
        remain := remain - 1;
      }
      return Ok;
    }

    method AllocateBlocks(cnt: nat) returns (r: Ret)
      requires dev.d.tmp == {}
      modifies dev
      ensures dev.d == old(dev.d).(tmp := dev.d.tmp, space := dev.d.space)
      ensures Spent(r, old(dev.power), dev.power, cnt)
      ensures dev.lost == old(dev.lost)
      ensures |dev.d.tmp| + dev.d.space == old(dev.d.space)
      ensures r == Ok ==> dev.d.tmp == IdRange(0, cnt)
      ensures r == Ok || r == AllocFailed || r == PowerLost
      ensures r == AllocFailed ==> old(dev.d.space) < cnt
    {
      var id := 0;
      while id < cnt
        invariant id <= cnt && dev.d.tmp == IdRange(0, id) && id + dev.d.space == old(dev.d.space)
        invariant dev.d == old(dev.d).(tmp := dev.d.tmp, space := dev.d.space)
        invariant dev.lost == old(dev.lost) && dev.power + id == old(dev.power)
      {
        IdRangeSize(0, id);
        if dev.d.space == 0 {
          return AllocFailed;
        }
        var ok := dev.Submit(AllocTmp(id));
        if !ok {
          return PowerLost;
        }
        id := id + 1;
      }
      IdRangeSize(0, cnt);
      return Ok;
    }

    method MoveBlocks(cnt: nat) returns (r: Ret)
      requires RangeOk() && dev.d.tmp == IdRange(0, cnt)
      modifies this`maxBlockId, dev
      ensures dev.d == old(dev.d).(tmp := dev.d.tmp, pool := dev.d.pool)
      ensures Spent(r, old(dev.power), dev.power, cnt)
      ensures dev.lost == old(dev.lost)
      ensures r == Ok ==> RangeOk() && maxBlockId == old(maxBlockId) + cnt && dev.d.tmp == {}
      ensures r == PowerLost ==> old(maxBlockId) < maxBlockId <= old(maxBlockId) + cnt
                                 && dev.d.pool == IdRange(minBlockId, maxBlockId - 1)
                                 && |dev.d.tmp| == old(maxBlockId) + cnt - (maxBlockId - 1)
      ensures r == Ok || r == PowerLost
    {
      var src := 0;
      while src < cnt
        invariant src <= cnt && RangeOk() && maxBlockId == old(maxBlockId) + src
        invariant dev.d.tmp == IdRange(src, cnt)
        invariant dev.d == old(dev.d).(tmp := dev.d.tmp, pool := dev.d.pool)
        invariant dev.lost == old(dev.lost) && dev.power + src == old(dev.power)
      {
        var dst := maxBlockId;
        maxBlockId := maxBlockId + 1;
        PopFront(src, cnt);
        PushBack(minBlockId, dst);
        var ok := dev.Submit(MoveTmp(src, dst));
        if !ok {
          IdRangeSize(src, cnt);
          return PowerLost;
        }
        src := src + 1;
      }
      return Ok;
    }

    /** A failed allocation leaves the pool as it was; a power failure leaves
        some prefix of the new blocks in it. */
    method DoExpand(cnt: nat) returns (r: Ret)
      requires RangeOk()
      modifies this`maxBlockId, dev
      ensures dev.d == old(dev.d).(pool := dev.d.pool, tmpExists := dev.d.tmpExists, tmp := dev.d.tmp,
                                   space := dev.d.space)
      ensures Spent(r, old(dev.power), dev.power, 2 * cnt + 2)
      ensures dev.lost == old(dev.lost)
      ensures r == Ok || r == AllocFailed || r == TmpDirExists || r == PowerLost
      ensures r == Ok ==> RangeOk() && maxBlockId == old(maxBlockId) + cnt
      ensures r == AllocFailed || r == TmpDirExists ==> RangeOk() && maxBlockId == old(maxBlockId)
      ensures r == TmpDirExists <==> old(dev.d.tmpExists)
      ensures r == Ok || r == AllocFailed ==> !dev.d.tmpExists && dev.d.tmp == {}
      ensures r == TmpDirExists ==> dev.d == old(dev.d)
      ensures r == AllocFailed ==> old(dev.d.space) < cnt
      ensures r != PowerLost ==> maxBlockId + dev.d.space == old(maxBlockId + dev.d.space)
      ensures r == PowerLost ==> exists top: nat :: old(maxBlockId) <= top <= old(maxBlockId) + cnt
                                                   && dev.d.pool == IdRange(minBlockId, top)
                                                   && top + |dev.d.tmp| + dev.d.space >= old(maxBlockId + dev.d.space)
    {
      if dev.d.tmpExists {
        return TmpDirExists;
      }
      var ok := dev.Submit(MakeTmpDir);
      if !ok {
        return PowerLost;
      }
      r := AllocateBlocks(cnt);
      if r == Ok {
        IdRangeSize(0, cnt);
        r := MoveBlocks(cnt);
      }
      if r != PowerLost {
        ok := dev.Submit(RemoveTmpDir);
        if !ok {
          return PowerLost;
        }
      }
    }

    /** `meta` is set in memory before it is written. */
    method UpdateMeta(m: Meta) returns (ok: bool)
      modifies this`meta, dev
      ensures meta == m && dev.lost == old(dev.lost)
      ensures ok <==> old(dev.power) > 0
      ensures dev.power == if ok then old(dev.power) - 1 else 0
      ensures dev.d == if ok then old(dev.d).(meta := m) else old(dev.d)
    {
      meta := m;
      ok := dev.Submit(PutMeta(m));
    }

    /** The pool in the middle of a change by `cnt` blocks. */
    static ghost predicate Between(before: Disk, after: Disk, cnt: nat, status: Status)
    {
      if status == Shrinking
      then && |before.pool| - cnt <= |after.pool| <= |before.pool|
           && after == before.(pool := after.pool, space := after.space, meta := after.meta)
           && |after.pool| + after.space == |before.pool| + before.space
      else && |before.pool| <= |after.pool| <= |before.pool| + cnt
           && |after.pool| + |after.tmp| + after.space >= |before.pool| + before.space
    }

    /** The pool after a power failure in `DoResize`: untouched under the old
        meta record, or between the two sizes under the new one. */
    static ghost predicate Interrupted(before: Disk, after: Disk, cnt: nat, newMeta: Meta)
    {
      && after == before.(pool := after.pool, tmpExists := after.tmpExists, tmp := after.tmp,
                          space := after.space, meta := after.meta)
      && (after == before || (after.meta == newMeta && Between(before, after, cnt, newMeta.status)))
    }

    /** The blocks of a resize, without its meta writes. */
    method ChangePool(cnt: nat, status: Status) returns (r: Ret)
      requires RangeOk() && status != Normal
      modifies this`minBlockId, this`maxBlockId, dev
      ensures dev.d == old(dev.d).(pool := dev.d.pool, tmpExists := dev.d.tmpExists, tmp := dev.d.tmp,
                                   space := dev.d.space)
      ensures Spent(r, old(dev.power), dev.power, 2 * cnt + 2)
      ensures dev.lost == old(dev.lost) && minBlockId >= old(minBlockId)
      ensures r in {Ok, PowerLost} + if status == Expanding then {AllocFailed, TmpDirExists} else {NoBlock}
      ensures r == PowerLost ==> (0 in dev.d.pool ==> old(minBlockId) == 0)
      ensures Between(old(dev.d), dev.d, cnt, status)
      ensures r != PowerLost ==> RangeOk()
      ensures r == Ok ==> maxBlockId - minBlockId == if status == Expanding
                                                     then old(maxBlockId - minBlockId) + cnt
                                                     else old(maxBlockId - minBlockId) - cnt
      ensures r == NoBlock ==> minBlockId == maxBlockId && old(maxBlockId - minBlockId) < cnt
      ensures r == AllocFailed || r == TmpDirExists ==> maxBlockId == old(maxBlockId) && minBlockId == old(minBlockId)
      ensures r != PowerLost ==> dev.d.tmpExists == old(dev.d.tmpExists)
      ensures r == TmpDirExists ==> old(dev.d.tmpExists)
      ensures r == AllocFailed ==> old(dev.d.space) < cnt
    {
      IdRangeSizes();
      if status == Expanding {
        r := DoExpand(cnt);
      } else {
        r := FreeBlocks(cnt);
      }
    }

    method DoResize(oldMeta: Meta, cnt: nat, newMeta: Meta) returns (r: Ret)
      requires RangeOk() && newMeta.status != Normal
      modifies this`minBlockId, this`maxBlockId, this`meta, dev
      ensures Spent(r, old(dev.power), dev.power, ResizeCost(cnt))
      ensures dev.lost == old(dev.lost)
      ensures r == PowerLost ==> Interrupted(old(dev.d), dev.d, cnt, newMeta)
                                 && (0 in dev.d.pool ==> old(minBlockId) == 0)
      ensures r != PowerLost ==>
                && RangeOk() && meta == dev.d.meta && dev.d.tmpExists == old(dev.d.tmpExists)
                && dev.d.tenants == old(dev.d.tenants) && dev.d.tenantTmp == old(dev.d.tenantTmp)
                && meta == if r == Ok then Meta(newMeta.next, newMeta.next, Normal) else oldMeta
      ensures r == Ok ==> maxBlockId - minBlockId == if newMeta.status == Expanding
                                                     then old(maxBlockId - minBlockId) + cnt
                                                     else old(maxBlockId - minBlockId) - cnt
      ensures r == NoBlock ==> newMeta.status == Shrinking && minBlockId == maxBlockId
                               && old(maxBlockId - minBlockId) < cnt
      ensures r == AllocFailed || r == TmpDirExists ==>
                newMeta.status == Expanding && maxBlockId == old(maxBlockId) && minBlockId == old(minBlockId)
      ensures r == TmpDirExists ==> old(dev.d.tmpExists)
      ensures r == AllocFailed ==> old(dev.d.space) < cnt
      ensures r in {Ok, PowerLost, NoBlock, AllocFailed, TmpDirExists}
    {
      var ok := UpdateMeta(newMeta);
      if !ok {
        return PowerLost;
      }
      r := ChangePool(cnt, newMeta.status);
      if r == PowerLost {
        return;
      }
      ok := UpdateMeta(if r == Ok then Meta(newMeta.next, newMeta.next, Normal) else oldMeta);
      if !ok {
        return PowerLost;
      }
    }

    /** The resize to a size in whole blocks that the reservation allows. */
    method ResizeTo(size: nat) returns (r: Ret)
      requires Ready() && Aligned(size) && size != meta.curr && minLogDiskSize <= size
      modifies this`minBlockId, this`maxBlockId, this`meta, dev
      ensures var oldCnt, newCnt := BlockCount(old(meta.curr)), BlockCount(size);
              Spent(r, old(dev.power), dev.power,
                    ResizeCost(if newCnt > oldCnt then newCnt - oldCnt else oldCnt - newCnt))
      ensures dev.lost == old(dev.lost)
      ensures r != PowerLost ==> dev.d.tenants == old(dev.d.tenants) && dev.d.tenantTmp == old(dev.d.tenantTmp)
      ensures r == Ok ==> Ready() && meta.curr == size
      ensures r != PowerLost ==> dev.d.tmpExists == old(dev.d.tmpExists)
      ensures r in {AllocFailed, TmpDirExists} ==> Ready() && dev.d.meta == old(dev.d.meta)
                                                                 && dev.d.pool == old(dev.d.pool)
      ensures r == TmpDirExists ==> old(dev.d.tmpExists) && size > old(meta.curr)
      ensures r == AllocFailed ==> BlockCount(size) > BlockCount(old(meta.curr)) + old(dev.d.space)
      ensures r == NoBlock ==> (Consistent(dev.d) <==> old(dev.d.pool) == {})
      ensures r != PowerLost ==>
                (r == NoBlock <==>
                 && size < old(meta.curr)
                 && BlockCount(size) < old(dev.d.tenants + dev.d.tenantTmp))
      ensures r == PowerLost ==> && Consistent(dev.d)
                                 && Target(dev.d.meta) in {old(meta.curr), size}
                                 && (|| dev.d.meta == old(meta)
                                     || dev.d.meta == Meta(old(meta.curr), size, dev.d.meta.status))
                                 && dev.d.tenants == old(dev.d.tenants) && dev.d.tenantTmp == old(dev.d.tenantTmp)
                                 && (0 in dev.d.pool ==> old(minBlockId) == 0)
                                 && (dev.d.meta.status == Shrinking ==> dev.d.meta.next == size)
                                 && (old(BlockCount(size) <= Total(dev.d) + dev.d.space) ==> Room(dev.d))
      ensures r in {Ok, PowerLost, NoBlock, AllocFailed, TmpDirExists}
    {
      IdRangeSize(minBlockId, maxBlockId);
      var oldCnt, newCnt := BlockCount(meta.curr), BlockCount(size);
      var newMeta := meta.(next := size, status := if size > meta.curr then Expanding else Shrinking);
      var cnt := if newCnt > oldCnt then newCnt - oldCnt else oldCnt - newCnt;
      ghost var before := dev.d;
      r := DoResize(meta, cnt, newMeta);
      if r == PowerLost {
        InterruptedResize(before, dev.d, cnt, newMeta);
      } else {
        IdRangeSize(minBlockId, maxBlockId);
      }
    }

    /** Changes the pool to `newSize`, rounded down to whole blocks. Only the
        reservation of the tenants is checked, not the blocks they hold. */
    method Resize(newSize: nat) returns (r: Ret)
      requires Ready()
      modifies this`minBlockId, this`maxBlockId, this`meta, dev
      ensures var oldCnt, newCnt := BlockCount(old(meta.curr)), BlockCount(newSize);
              Spent(r, old(dev.power), dev.power,
                    ResizeCost(if newCnt > oldCnt then newCnt - oldCnt else oldCnt - newCnt))
      ensures dev.lost == old(dev.lost)
      ensures r != PowerLost ==> dev.d.tenants == old(dev.d.tenants) && dev.d.tenantTmp == old(dev.d.tenantTmp)
      ensures r == Ok ==> Ready() && meta.curr == LowerAlign(newSize)
      ensures r != PowerLost ==> dev.d.tmpExists == old(dev.d.tmpExists)
      ensures r in {NotSupported, AllocFailed, TmpDirExists} ==> Ready() && dev.d.meta == old(dev.d.meta)
                                                                 && dev.d.pool == old(dev.d.pool)
      ensures r == NotSupported <==> LowerAlign(newSize) < minLogDiskSize && LowerAlign(newSize) != old(meta.curr)
      ensures r == TmpDirExists ==> old(dev.d.tmpExists) && LowerAlign(newSize) > old(meta.curr)
      ensures r == AllocFailed ==> BlockCount(newSize) > BlockCount(old(meta.curr)) + old(dev.d.space)
      ensures r == NoBlock ==> (Consistent(dev.d) <==> old(dev.d.pool) == {})
      ensures r != PowerLost ==>
                (r == NoBlock <==>
                 && LowerAlign(newSize) < old(meta.curr)
                 && minLogDiskSize <= LowerAlign(newSize)
                 && BlockCount(newSize) < old(dev.d.tenants + dev.d.tenantTmp))
      ensures r == PowerLost ==> && Consistent(dev.d)
                                 && Target(dev.d.meta) in {old(meta.curr), LowerAlign(newSize)}
                                 && (|| dev.d.meta == old(meta)
                                     || dev.d.meta == Meta(old(meta.curr), LowerAlign(newSize), dev.d.meta.status))
                                 && dev.d.tenants == old(dev.d.tenants) && dev.d.tenantTmp == old(dev.d.tenantTmp)
                                 && (0 in dev.d.pool ==> old(minBlockId) == 0)
                                 && (dev.d.meta.status == Shrinking ==> dev.d.meta.next == LowerAlign(newSize))
                                 && (old(BlockCount(newSize) <= Total(dev.d) + dev.d.space) ==> Room(dev.d))
      ensures r in {Ok, PowerLost, NotSupported, NoBlock, AllocFailed, TmpDirExists}
    {
      LowerAlignFacts(newSize);
      var aligned := LowerAlign(newSize);
      if meta.curr == aligned {
        return Ok;
      } else if aligned < minLogDiskSize {
        return NotSupported;
      }
      r := ResizeTo(aligned);
    }

    static lemma InterruptedResize(before: Disk, after: Disk, cnt: nat, newMeta: Meta)
      requires Interrupted(before, after, cnt, newMeta) && Consistent(before) && before.meta.status == Normal
      requires newMeta.curr == before.meta.curr && Aligned(newMeta.next)
      requires var oldCnt, newCnt := BlockCount(newMeta.curr), BlockCount(newMeta.next);
               if newMeta.status == Expanding then newCnt == oldCnt + cnt
               else newMeta.status == Shrinking && newCnt == oldCnt - cnt
      ensures Consistent(after)
      ensures BlockCount(newMeta.next) <= Total(before) + before.space ==> Room(after)
    {
    }

    /** Reads the pool directory into an ascending list of ids. */
    method ScanPool() returns (ids: seq<nat>)
      ensures Ascending(ids) && Elements(ids) == dev.d.pool
    {
      ids := [];
      var rest := dev.d.pool;
      while rest != {}
        invariant Scanned(dev.d.pool, ids, rest)
      {
        var x := Least(rest);
        ScanStep(dev.d.pool, ids, rest, x);
        ids, rest := ids + [x], rest - {x};
      }
    }

    method Least(s: set<nat>) returns (x: nat)
      requires s != {}
      ensures IsLeast(x, s)
    {
      LeastExists(s);
      x :| x in s && forall y | y in s :: x <= y;
    }

    /** The index of the first id that does not follow its predecessor; 0 when
        the ids have no gap. */
    method FirstGap(ids: seq<nat>) returns (gap: nat)
      requires Ascending(ids) && ids != []
      ensures GapAt(ids, gap)
    {
      gap := 0;
      var i := 0;
      while i + 1 < |ids|
        invariant 0 <= i < |ids| && gap == 0
        invariant forall k | 0 <= k <= i :: ids[k] == ids[0] + k
      {
        if ids[i + 1] - ids[i] != 1 {
          gap := i + 1;
          break;
        }
        i := i + 1;
      }
    }

    /** Renames the blocks after the first gap down to consecutive ids. No
        rename meets an occupied id, so no block is lost at any point. */
    method Trim(ids: seq<nat>, gap: nat) returns (r: Ret)
      requires Ascending(ids) && Elements(ids) == dev.d.pool && ids != [] && GapAt(ids, gap)
      modifies this`minBlockId, this`maxBlockId, dev
      ensures dev.lost == old(dev.lost) && dev.d == old(dev.d).(pool := dev.d.pool)
      ensures |dev.d.pool| == old(|dev.d.pool|)
      ensures Spent(r, old(dev.power), dev.power, |ids|)
      ensures r == Ok ==> RangeOk()
      ensures r == Ok || r == PowerLost
    {
      minBlockId := ids[0];
      if gap == 0 {
        maxBlockId := ids[|ids| - 1] + 1;
        TrimStart(ids, |ids|);
        TrimEnd(ids);
        return Ok;
      }
      maxBlockId := ids[gap - 1] + 1;
      ghost var stages := TrimPlan(ids, gap);
      r := CloseGap(ids, gap, stages);
    }

    method CloseGap(ids: seq<nat>, gap: nat, ghost stages: seq<set<nat>>) returns (r: Ret)
      requires Plan(ids, gap, stages)
      requires dev.d.pool == stages[gap] && minBlockId == ids[0] && maxBlockId == ids[0] + gap
      modifies this`maxBlockId, dev
      ensures dev.lost == old(dev.lost) && dev.d == old(dev.d).(pool := dev.d.pool)
      ensures |dev.d.pool| == old(|dev.d.pool|)
      ensures Spent(r, old(dev.power), dev.power, |ids|)
      ensures r == Ok ==> RangeOk()
      ensures r == Ok || r == PowerLost
    {
      var idx := gap;
      while idx < |ids|
        invariant gap <= idx <= |ids| && maxBlockId == ids[0] + idx
        invariant dev.lost == old(dev.lost) && dev.d == old(dev.d).(pool := stages[idx])
        invariant dev.power + (idx - gap) == old(dev.power)
      {
        var w := MovePool(ids[idx], maxBlockId);
        maxBlockId := maxBlockId + 1;
        assert FreeMove(ids, stages, idx) && SameSize(stages, gap, idx);
        var ok := dev.Submit(w);
        if !ok {
          return PowerLost;
        }
        idx := idx + 1;
      }
      assert SameSize(stages, gap, idx);
      return Ok;
    }

    /** Moves tenants' temporary blocks into the pool. This runs before the
        pool is scanned, so the ids it claims start at 0 whatever the pool
        holds. */
    method ReclaimTenantTmp() returns (r: Ret)
      requires minBlockId == maxBlockId == 0
      modifies this`maxBlockId, this`blockCntInUse, dev
      ensures dev.d == old(dev.d).(pool := dev.d.pool, tenantTmp := dev.d.tenantTmp)
      ensures dev.d.tenantTmp <= old(dev.d.tenantTmp)
      ensures Spent(r, old(dev.power), dev.power, old(dev.d.tenantTmp))
      ensures dev.d.pool == old(dev.d.pool) + IdRange(0, old(dev.d.tenantTmp) - dev.d.tenantTmp)
      ensures r == Ok ==> dev.d.tenantTmp == 0
      ensures maxBlockId == 0 || dev.d.tenantTmp < old(dev.d.tenantTmp) || r == PowerLost
      ensures old(ReclaimSafe(dev.d.pool, dev.d.tenantTmp)) ==>
                dev.lost == old(dev.lost) && ReclaimSafe(dev.d.pool, dev.d.tenantTmp)
      ensures r == Ok || r == PowerLost
    {
      while dev.d.tenantTmp > 0
        invariant dev.d.tenantTmp <= old(dev.d.tenantTmp)
        invariant dev.power + maxBlockId == old(dev.power)
        invariant maxBlockId == old(dev.d.tenantTmp) - dev.d.tenantTmp
        invariant dev.d == old(dev.d).(pool := old(dev.d.pool) + IdRange(0, maxBlockId), tenantTmp := dev.d.tenantTmp)
        invariant old(ReclaimSafe(dev.d.pool, dev.d.tenantTmp)) ==> dev.lost == old(dev.lost)
        decreases dev.d.tenantTmp
      {
        var dst := maxBlockId;
        maxBlockId, blockCntInUse := maxBlockId + 1, blockCntInUse - 1;
        PushBack(0, dst);
        var ok := dev.Submit(ReclaimTmp(dst));
        if !ok {
          return PowerLost;
        }
      }
      return Ok;
    }

    method ScanAndTrim() returns (r: Ret)
      requires dev.d.pool == {} ==> minBlockId == maxBlockId
      modifies this`minBlockId, this`maxBlockId, dev
      ensures Spent(r, old(dev.power), dev.power, old(|dev.d.pool|) + 1)
      ensures dev.lost == old(dev.lost)
      ensures dev.d == old(dev.d).(pool := dev.d.pool, tmpExists := dev.d.tmpExists, tmp := dev.d.tmp,
                                   space := dev.d.space)
      ensures |dev.d.tmp| + dev.d.space == old(|dev.d.tmp| + dev.d.space)
      ensures |dev.d.pool| == old(|dev.d.pool|)
      ensures r == Ok ==> RangeOk() && !dev.d.tmpExists && dev.d.tmp == {}
      ensures r == Ok || r == PowerLost
    {
      var ok := dev.Submit(RemoveTmpDir);
      if !ok {
        return PowerLost;
      }
      var ids := ScanPool();
      if ids == [] {
        assert dev.d.pool == {};
        return Ok;
      }
      ElementsSize(ids);
      var gap := FirstGap(ids);
      r := Trim(ids, gap);
    }

    /** Finishes the resize recorded in the meta record, if any, from the number
        of blocks found on disk. */
    method ContinueResize(held: nat) returns (r: Ret)
      requires RangeOk() && meta == dev.d.meta && held == dev.d.tenants
      requires !dev.d.tmpExists && dev.d.tmp == {} && dev.d.tenantTmp == 0
      modifies this`minBlockId, this`maxBlockId, this`meta, dev
      ensures Spent(r, old(dev.power), dev.power, if old(meta.status) == Normal then 0
                                                  else ResizeCost(BlockCount(old(meta.next)) + old(Total(dev.d))))
      ensures dev.lost == old(dev.lost)
      ensures r != PowerLost ==> RangeOk() && meta == dev.d.meta
                                 && dev.d.tenants == old(dev.d.tenants) && dev.d.tenantTmp == 0
      ensures r == Ok ==> meta.status == Normal && meta.curr == Target(old(dev.d.meta))
      ensures old(meta.status) == Normal ==> r == Ok && dev.d == old(dev.d)
      ensures r == Ok && old(Consistent(dev.d)) ==> Consistent(dev.d)
      ensures old(Consistent(dev.d) && Fits(dev.d) && Room(dev.d)) ==> r in {Ok, PowerLost}
      ensures r == PowerLost && old(Consistent(dev.d)) ==> Carries(old(dev.d), dev.d)
    {
      IdRangeSize(minBlockId, maxBlockId);
      var oldCnt, newCnt := held + (maxBlockId - minBlockId), BlockCount(meta.next);
      if meta.status == Normal {
        return Ok;
      }
      AlignedBlocks(newCnt);
      var cnt := if newCnt > oldCnt then newCnt - oldCnt else oldCnt - newCnt;
      ghost var before := dev.d;
      r := DoResize(meta, cnt, meta);
      if r == PowerLost {
        InterruptedCarries(before, dev.d, cnt);
      } else {
        IdRangeSize(minBlockId, maxBlockId);
      }
    }

    static lemma InterruptedCarries(before: Disk, after: Disk, cnt: nat)
      requires Interrupted(before, after, cnt, before.meta) && before.meta.status != Normal
      requires before.tmp == {} && before.tenantTmp == 0
      requires var newCnt := BlockCount(before.meta.next);
               cnt == if newCnt > Total(before) then newCnt - Total(before) else Total(before) - newCnt
      ensures Consistent(before) ==> Carries(before, after)
    {
    }

    /** An interrupted restart leaves the next one the same task. */
    static ghost predicate Carries(before: Disk, after: Disk)
    {
      && Consistent(after)
      && after.meta == before.meta
      && after.tenants == before.tenants
      && (Fits(before) ==> Fits(after))
      && (Room(before) ==> Room(after))
      && (ReclaimSafe(before.pool, before.tenantTmp) ==> ReclaimSafe(after.pool, after.tenantTmp))
    }

    static ghost predicate Sound(d: Disk)
    {
      Consistent(d) && ReclaimSafe(d.pool, d.tenantTmp)
    }

    /** The first half of a load: reclaim, scan and trim. */
    method Rebuild() returns (r: Ret)
      modifies this, dev
      ensures r == Ok || r == PowerLost
      ensures Spent(r, old(dev.power), dev.power, old(RebuildCost(dev.d)))
      ensures dev.d.meta == old(dev.d.meta) && dev.d.tenants == old(dev.d.tenants)
      ensures r == Ok ==> RangeOk() && meta == dev.d.meta && dev.d.tenantTmp == 0 && !dev.d.tmpExists && dev.d.tmp == {}
      ensures r == Ok ==> Total(dev.d) <= old(Total(dev.d))
      ensures r == Ok ==>
                (Total(dev.d) == old(Total(dev.d)) <==> old(dev.d.pool) !! IdRange(0, old(dev.d.tenantTmp)))
      ensures old(Sound(dev.d)) ==> dev.lost == old(dev.lost) && Carries(old(dev.d), dev.d)
    {
      ghost var d0 := dev.d;
      minBlockId, maxBlockId, meta, blockCntInUse := 0, 0, Meta(0, 0, Normal), 0;
      r := ReclaimTenantTmp();
      ReclaimedTotal(d0, dev.d);
      if r != Ok {
        return;
      }
      r := ScanAndTrim();
      if r == Ok {
        meta := dev.d.meta;
      }
    }

    /** Rebuilds the manager from the disk. */
    method DoLoad() returns (r: Ret)
      modifies this, dev
      ensures Spent(r, old(dev.power), dev.power, old(LoadCost(dev.d)))
      ensures r == Ok ==>
                && RangeOk() && meta == dev.d.meta && dev.d.tenantTmp == 0
                && blockCntInUse == dev.d.tenants == old(dev.d.tenants)
                && meta.status == Normal && meta.curr == Target(old(dev.d.meta))
                && Total(dev.d) * BLOCK_SIZE == meta.curr
      ensures old(Sound(dev.d)) ==>
                && dev.lost == old(dev.lost)
                && (r == Ok ==> Ready())
                && (r == PowerLost ==> Carries(old(dev.d), dev.d))
      ensures old(Sound(dev.d) && Fits(dev.d) && Room(dev.d)) ==> r == Ok || r == PowerLost
      ensures old(Consistent(dev.d)) && old(dev.d.meta.status) == Normal && r != PowerLost ==>
                r == if old(dev.d.pool) !! IdRange(0, old(dev.d.tenantTmp)) then Ok else Unexpected
    {
      r := Rebuild();
      if r != Ok {
        return;
      }
      var held := dev.d.tenants;
      r := ContinueResize(held);
      if r != Ok {
        return;
      }
      IdRangeSize(minBlockId, maxBlockId);
      if meta.curr != (held + (maxBlockId - minBlockId)) * BLOCK_SIZE {
        return Unexpected;
      }
      blockCntInUse := held;
      AlignedBlocks(Total(dev.d));
    }

    static lemma ReclaimedTotal(before: Disk, after: Disk)
      requires after == before.(pool := after.pool, tenantTmp := after.tenantTmp)
      requires after.tenantTmp <= before.tenantTmp
      requires after.pool == before.pool + IdRange(0, before.tenantTmp - after.tenantTmp)
      ensures Total(after) <= Total(before)
      ensures Total(after) == Total(before) <==> before.pool !! IdRange(0, before.tenantTmp - after.tenantTmp)
    {
      ReclaimOnceLossless(before.pool, before.tenantTmp - after.tenantTmp);
      IdRangeSize(0, before.tenantTmp - after.tenantTmp);
      DisjointUnionSize(before.pool, IdRange(0, before.tenantTmp - after.tenantTmp));
    }

    /** Restarts, each losing power after the given number of writes, until one
        of them completes. */
    method RestartUntilLoaded(powers: seq<nat>) returns (r: Ret)
      requires Sound(dev.d) && Fits(dev.d) && Room(dev.d)
      modifies this, dev
      ensures r == Ok || r == PowerLost
      ensures dev.lost == old(dev.lost)
      ensures r == Ok ==> && Ready() && meta.curr == Target(old(dev.d.meta))
                          && blockCntInUse == dev.d.tenants == old(dev.d.tenants)
      ensures r == PowerLost ==> Carries(old(dev.d), dev.d)
      ensures EnoughPower(powers, Top(old(dev.d.meta))) ==> r == Ok
    {
      r := PowerLost;
      var i := 0;
      while i < |powers| && r == PowerLost
        invariant r == Ok || r == PowerLost
        invariant dev.lost == old(dev.lost)
        invariant r == PowerLost ==> Carries(old(dev.d), dev.d)
        invariant i <= |powers|
        invariant r == PowerLost ==> forall k | 0 <= k < i :: powers[k] < 5 * Top(old(dev.d.meta)) + 6
        invariant r == Ok ==> && Ready() && meta.curr == Target(old(dev.d.meta))
                              && blockCntInUse == dev.d.tenants == old(dev.d.tenants)
      {
        dev.power := powers[i];
        EnoughForLoad(dev.d);
        r := DoLoad();
        i := i + 1;
      }
    }

    /** A resize that may lose power at any write, followed by any number of
        restarts: the pool ends at the old or at the requested size. */
    method ResizeThenRestart(newSize: nat, powers: seq<nat>) returns (r: Ret)
      requires Ready()
      requires dev.d.tenantTmp == 0 || (dev.d.tenantTmp == 1 && minBlockId > 0)
      requires dev.d.tenants + dev.d.tenantTmp <= BlockCount(newSize) <= Total(dev.d) + dev.d.space
      modifies this, dev
      ensures dev.lost == old(dev.lost)
      ensures r != PowerLost ==> && Ready()
                                 && meta.curr in {old(meta.curr), LowerAlign(newSize)}
                                 && Total(dev.d) * BLOCK_SIZE == meta.curr
      ensures EnoughPower(powers, Larger(BlockCount(old(meta.curr)), BlockCount(newSize))) ==> r != PowerLost
      ensures r == PowerLost ==> Sound(dev.d) && Target(dev.d.meta) in {old(meta.curr), LowerAlign(newSize)}
    {
      r := Resize(newSize);
      if r == PowerLost {
        LowerAlignFacts(newSize);
        ghost var top := Larger(BlockCount(old(meta.curr)), BlockCount(newSize));
        if EnoughPower(powers, top) {
          EnoughForLess(powers, top, Top(dev.d.meta));
        }
        r := RestartUntilLoaded(powers);
      }
    }

    /** A manager that has just loaded starts a run of the concurrent protocol. */
    lemma LoadedStartsRun()
      requires Ready() && dev.d.tenantTmp == 0 && blockCntInUse == dev.d.tenants && minLogDiskSize <= meta.curr
      ensures PoolProtocol.Init(PoolProtocol.State(dev.d.pool, dev.d.tenants, meta, minBlockId, maxBlockId,
                                                   blockCntInUse, minLogDiskSize, {}, {}, PoolProtocol.Idle, 0))
    {
    }

    /** The power fails at any moment of a concurrent run in which no shrink had
        failed after freeing blocks; restarts then arrive at the old size or, if a
        resize was running, at the requested one. */
    method CrashThenRestart(ghost states: seq<PoolProtocol.State>, ghost actions: seq<PoolProtocol.Action>,
                            ghost n: nat, ghost tenantTmp: nat, ghost tmp: set<nat>, ghost space: nat,
                            powers: seq<nat>)
      returns (r: Ret)
      requires PoolProtocol.Run(states, actions) && n < |states|
      requires forall i: nat | i < n :: !PoolProtocol.FailedLate(states, actions, i)
      requires states[n].phase.Freeing? ==> states[n].inUse * BLOCK_SIZE <= states[n].reserved
      requires |states[n].recycling| <= tenantTmp <= states[n].tenants
      requires dev.d == PoolProtocol.CrashDisk(states[n], tenantTmp, tmp, space)
      requires ReclaimSafe(dev.d.pool, dev.d.tenantTmp) && Room(dev.d)
      modifies this, dev
      ensures r == Ok || r == PowerLost
      ensures dev.lost == old(dev.lost)
      ensures r == Ok ==> && Ready() && blockCntInUse == dev.d.tenants == states[n].tenants - tenantTmp
                          && meta.curr == (if states[n].phase.Idle? then states[n].meta.curr else states[n].meta.next)
                          && Total(dev.d) * BLOCK_SIZE == meta.curr
      ensures r == PowerLost ==> Carries(old(dev.d), dev.d)
      ensures EnoughPower(powers, Top(states[n].meta)) ==> r == Ok
    {
      PoolProtocol.RunKeepsInv(states, actions, n);
      PoolProtocol.CrashWithoutFailure(states, actions, n, tenantTmp, tmp, space);
      PoolProtocol.CrashLeavesConsistentDisk(states, actions, n, tenantTmp, tmp, space);
      r := RestartUntilLoaded(powers);
    }
  }
}
