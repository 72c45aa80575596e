/** The on-disk state of the server log block pool: the numbered files of the
    pool directory, the blocks held by tenants, the directory used while
    expanding, and the persisted meta record.

    A disk is changed only by `Write`s, each of which is atomic. */
module PoolDisk {

  // PALF_PHY_BLOCK_SIZE, 64 MB
  const BLOCK_SIZE: nat := 0x400_0000

  datatype Status = Normal | Expanding | Shrinking

  datatype Meta = Meta(curr: nat, next: nat, status: Status)

  /** `tenants` counts settled tenant blocks, `tenantTmp` tenant blocks under a
      temporary name: renamed for deletion, but not yet back in the pool.
      `space` is the number of blocks the file system can still allocate. */
  datatype Disk = Disk(pool: set<nat>, tmpExists: bool, tmp: set<nat>,
                       tenants: nat, tenantTmp: nat, space: nat, meta: Meta)

  datatype Write =
    | PutMeta(meta: Meta)
    | MakeTmpDir
    | AllocTmp(id: nat)
    | MoveTmp(src: nat, dst: nat)
    | RemoveTmpDir
    | Unlink(id: nat)
    | MovePool(src: nat, dst: nat)
    | ReclaimTmp(dst: nat)

  /** A rename replaces whatever file already has the destination name. */
  function Effect(d: Disk, w: Write): Disk {
    match w
    case PutMeta(m) => d.(meta := m)
    case MakeTmpDir => d.(tmpExists := true, tmp := {})
    case AllocTmp(id) => d.(tmp := d.tmp + {id}, space := Pred(d.space))
    case MoveTmp(src, dst) => d.(tmp := d.tmp - {src}, pool := d.pool + {dst})
    case RemoveTmpDir => d.(tmpExists := false, tmp := {}, space := d.space + |d.tmp|)
    case Unlink(id) => d.(pool := d.pool - {id}, space := d.space + 1)
    case MovePool(src, dst) => d.(pool := d.pool - {src} + {dst})
    case ReclaimTmp(dst) => d.(tenantTmp := Pred(d.tenantTmp), pool := d.pool + {dst})
  }

  function Pred(n: nat): nat {
    if n == 0 then 0 else n - 1
  }

  /** The write is a rename onto another existing pool file. */
  predicate Overwrites(d: Disk, w: Write) {
    match w
    case MoveTmp(_, dst) => dst in d.pool
    case MovePool(src, dst) => dst != src && dst in d.pool
    case ReclaimTmp(dst) => dst in d.pool
    case _ => false
  }

  predicate Within(i: nat, lo: nat, hi: nat) {
    lo <= i < hi
  }

  /** The ids of the half-open range [lo, hi). */
  function IdRange(lo: nat, hi: nat): set<nat> {
    set i: nat | i < hi && Within(i, lo, hi)
  }

  function LowerAlign(size: nat): nat {
    size / BLOCK_SIZE * BLOCK_SIZE
  }

  function BlockCount(size: nat): nat {
    LowerAlign(size) / BLOCK_SIZE
  }

  function Total(d: Disk): nat {
    |d.pool| + d.tenants + d.tenantTmp
  }

  predicate Aligned(size: nat) {
    size == BlockCount(size) * BLOCK_SIZE
  }

  /** What every disk met after a power failure must satisfy: the number of
      blocks lies between the two sizes the meta record names. */
  predicate Consistent(d: Disk) {
    && Aligned(d.meta.curr)
    && Aligned(d.meta.next)
    && match d.meta.status
       case Normal => Total(d) == BlockCount(d.meta.curr)
       case Expanding => BlockCount(d.meta.curr) <= Total(d) <= BlockCount(d.meta.next)
       case Shrinking => BlockCount(d.meta.next) <= Total(d) <= BlockCount(d.meta.curr)
  }

  /** The size a restart has to arrive at. */
  function Target(m: Meta): nat {
    if m.status == Normal then m.curr else m.next
  }

  /** Blocks in use leave room for the size the pool is shrinking to. */
  predicate Fits(d: Disk) {
    d.meta.status == Shrinking ==> d.tenants <= BlockCount(d.meta.next)
  }

  /** The file system can hold the size the pool is expanding to. */
  predicate Room(d: Disk) {
    d.meta.status == Expanding ==> BlockCount(d.meta.next) <= Total(d) + |d.tmp| + d.space
  }

  /** Exactly when moving tenants' temporary blocks to ids 0, 1, ... loses no
      block, whatever the number of power failures on the way; see
      `ReclaimSafeIsExact`. */
  predicate ReclaimSafe(pool: set<nat>, tenantTmp: nat) {
    tenantTmp == 0 || (tenantTmp == 1 && 0 !in pool)
  }

  lemma AlignedBlocks(n: nat)
    ensures BlockCount(n * BLOCK_SIZE) == n && Aligned(n * BLOCK_SIZE)
  {
  }

  lemma LowerAlignFacts(size: nat)
    ensures Aligned(LowerAlign(size))
    ensures LowerAlign(size) <= size < LowerAlign(size) + BLOCK_SIZE
    ensures BlockCount(LowerAlign(size)) == BlockCount(size)
  {
  }

  lemma {:induction false} IdRangeSize(lo: nat, hi: nat)
    requires lo <= hi
    ensures |IdRange(lo, hi)| == hi - lo
    decreases hi - lo
  {
    if lo == hi {
      assert IdRange(lo, hi) == {};
    } else {
      IdRangeSize(lo, hi - 1);
      PushBack(lo, hi - 1);
    }
  }

  lemma IdRangeSizes()
    ensures forall lo: nat, hi: nat | lo <= hi :: |IdRange(lo, hi)| == hi - lo
  {
    forall lo: nat, hi: nat | lo <= hi
      ensures |IdRange(lo, hi)| == hi - lo
    {
      IdRangeSize(lo, hi);
    }
  }

  lemma PopFront(lo: nat, hi: nat)
    requires lo < hi
    ensures IdRange(lo, hi) - {lo} == IdRange(lo + 1, hi)
  {
  }

  lemma PushBack(lo: nat, hi: nat)
    requires lo <= hi
    ensures hi !in IdRange(lo, hi) && IdRange(lo, hi) + {hi} == IdRange(lo, hi + 1)
  {
  }

  lemma AddOne(s: set<nat>, x: nat)
    requires x !in s
    ensures |s + {x}| == |s| + 1
  {
  }

  lemma DropOne(s: set<nat>, x: nat)
    requires x in s
    ensures |s - {x}| == |s| - 1
  {
  }

  lemma DisjointUnionSize(a: set<nat>, b: set<nat>)
    ensures |a + b| <= |a| + |b|
    ensures |a + b| == |a| + |b| <==> a !! b
  {
    assert |a + b| + |a * b| == |a| + |b|;
  }

  /** Restart reclaim without a power failure keeps every block exactly when
      none of the first `k` ids is taken. */
  lemma ReclaimOnceLossless(pool: set<nat>, k: nat)
    ensures |pool + IdRange(0, k)| == |pool| + k <==> pool !! IdRange(0, k)
  {
    IdRangeSize(0, k);
    DisjointUnionSize(pool, IdRange(0, k));
  }

  /** The pool after a restart that lost power having renamed `j` of `k`
      temporary blocks, and one more restart. */
  function AfterTwoReclaims(pool: set<nat>, k: nat, j: nat): set<nat>
    requires j <= k
  {
    pool + IdRange(0, j) + IdRange(0, k - j)
  }

  lemma AfterTwoReclaimsSize(pool: set<nat>, k: nat, j: nat)
    requires j <= k
    ensures var hi := if j < k - j then k - j else j;
            |AfterTwoReclaims(pool, k, j)| <= |pool| + hi
            && (|AfterTwoReclaims(pool, k, j)| == |pool| + hi <==> pool !! IdRange(0, hi))
  {
    var hi := if j < k - j then k - j else j;
    assert AfterTwoReclaims(pool, k, j) == pool + IdRange(0, hi);
    IdRangeSize(0, hi);
    DisjointUnionSize(pool, IdRange(0, hi));
  }

  /** A power failure after `j` renames makes the next restart claim the ids
      from 0 again. No block is lost for any `j` exactly under `ReclaimSafe`. */
  lemma ReclaimSafeIsExact(pool: set<nat>, k: nat)
    ensures ReclaimSafe(pool, k)
            <==> forall j: nat | j <= k :: |AfterTwoReclaims(pool, k, j)| == |pool| + k
  {
    if ReclaimSafe(pool, k) {
      forall j: nat | j <= k
        ensures |AfterTwoReclaims(pool, k, j)| == |pool| + k
      {
        AfterTwoReclaimsSize(pool, k, j);
      }
    } else {
      ReclaimLoses(pool, k);
    }
  }

  lemma ReclaimLoses(pool: set<nat>, k: nat)
    requires !ReclaimSafe(pool, k)
    ensures |AfterTwoReclaims(pool, k, k / 2)| < |pool| + k
  {
    AfterTwoReclaimsSize(pool, k, k / 2);
    if k == 1 {
      assert 0 in IdRange(0, 1);
    }
  }
}
