/** The log disk reserved for tenants: the server must never promise tenants
    more than the pool holds, although a tenant's log service (palf) gives disk
    back only some time after it was told to shrink. */
module TenantLedger {
  import opened Common
  import opened PoolDisk

  /** The disk options of a tenant's palf. Writing stops at `stopping`; blocks
      are recycled to get below `recycling`. */
  datatype Palf = Palf(stopping: nat, recycling: nat, shrinking: bool, sequence: nat)

  function NewPalf(size: nat): Palf {
    Palf(size, size, false, 0)
  }

  function UpdateOptions(p: Palf, size: nat): Palf {
    if size == p.recycling then p
    else if p.stopping > size then Palf(p.stopping, size, true, p.sequence + 1)
    else Palf(size, size, false, p.sequence + 1)
  }

  /** Reported by the block collector for the options it saw at `sequence`. */
  function ChangeToNormal(p: Palf, sequence: nat): Palf {
    if p.sequence == sequence && p.shrinking then Palf(p.recycling, p.recycling, false, sequence) else p
  }

  /** The size `update_tenant` allows: the new one, or the old one while palf
      still holds more than the new one. */
  function AllowedSize(oldSize: nat, newSize: nat, p: Palf): nat {
    if newSize >= p.stopping || newSize == 0 then newSize else oldSize
  }

  /** `recorded` is the size in the tenant's unit; `palf` is absent between the
      reservation and the creation of the tenant. */
  datatype Tenant = Tenant(recorded: nat, palf: Option<Palf>)
  datatype Server = Server(total: nat, reserved: int, tenants: map<nat, Tenant>)

  datatype Event =
    | Create(id: nat, size: nat)
    | Built(id: nat)
    | Abort(id: nat)
    | Update(id: nat, newSize: nat, palfAccepts: bool)
    | Remove(id: nat)
    | PalfNormal(id: nat, sequence: nat)
    | PoolResize(newSize: nat)

  /** One event, handled with the size recorded for the tenant. */
  function Step(s: Server, e: Event): Server {
    match e
    case Create(id, size) =>
      if id in s.tenants || s.reserved + size > s.total then s
      else s.(reserved := s.reserved + size, tenants := s.tenants[id := Tenant(size, None)])
    case Built(id) =>
      if id in s.tenants && s.tenants[id].palf.None?
      then s.(tenants := s.tenants[id := s.tenants[id].(palf := Some(NewPalf(s.tenants[id].recorded)))])
      else s
    case Abort(id) =>
      if id in s.tenants && s.tenants[id].palf.None?
      then s.(reserved := s.reserved - s.tenants[id].recorded, tenants := s.tenants - {id})
      else s
    case Update(id, newSize, palfAccepts) =>
      if id !in s.tenants || s.tenants[id].palf.None? then s
      else
        var t := s.tenants[id];
        var allowed := AllowedSize(t.recorded, newSize, t.palf.value);
        if s.reserved - t.recorded + allowed > s.total || !palfAccepts then s
        else s.(reserved := s.reserved - t.recorded + allowed,
                tenants := s.tenants[id := Tenant(allowed, Some(UpdateOptions(t.palf.value, newSize)))])
    case Remove(id) =>
      if id in s.tenants && s.tenants[id].palf.Some? && s.tenants[id].recorded <= s.reserved
      then s.(reserved := s.reserved - s.tenants[id].recorded, tenants := s.tenants - {id})
      else s
    case PalfNormal(id, sequence) =>
      if id in s.tenants && s.tenants[id].palf.Some?
      then
        var t := s.tenants[id];
        s.(tenants := s.tenants[id := t.(palf := Some(ChangeToNormal(t.palf.value, sequence)))])
      else s
    case PoolResize(newSize) =>
      if LowerAlign(newSize) < s.reserved then s else s.(total := LowerAlign(newSize))
  }

  function History(s: Server, events: seq<Event>): Server {
    if events == [] then s else Step(History(s, events[..|events| - 1]), events[|events| - 1])
  }

  function Recorded(t: Tenant): nat {
    t.recorded
  }

  /** The disk a tenant's palf may still be using. */
  function Stable(t: Tenant): nat {
    if t.palf.Some? then t.palf.value.stopping else 0
  }

  ghost function Sum<T(!new)>(ts: map<nat, T>, f: T -> nat): nat {
    if ts == map[] then 0 else
      var k :| k in ts;
      f(ts[k]) + Sum(ts - {k}, f)
  }

  lemma {:induction false} SumWithout<T(!new)>(ts: map<nat, T>, k: nat, f: T -> nat)
    requires k in ts
    ensures Sum(ts, f) == f(ts[k]) + Sum(ts - {k}, f)
    decreases |ts|
  {
    var c :| c in ts && Sum(ts, f) == f(ts[c]) + Sum(ts - {c}, f);
    if c != k {
      SumWithout(ts - {c}, k, f);
      SumWithout(ts - {k}, c, f);
      assert ts - {c} - {k} == ts - {k} - {c};
    }
  }

  lemma SumWith<T(!new)>(ts: map<nat, T>, k: nat, t: T, f: T -> nat)
    ensures Sum(ts[k := t], f) == f(t) + Sum(ts - {k}, f)
  {
    SumWithout(ts[k := t], k, f);
    assert ts[k := t] - {k} == ts - {k};
  }

  lemma {:induction false} SumMonotone<T(!new)>(ts: map<nat, T>, f: T -> nat, g: T -> nat)
    requires forall k | k in ts :: f(ts[k]) <= g(ts[k])
    ensures Sum(ts, f) <= Sum(ts, g)
    decreases |ts|
  {
    if ts != map[] {
      var k :| k in ts;
      SumWithout(ts, k, f);
      SumWithout(ts, k, g);
      SumMonotone(ts - {k}, f, g);
    }
  }

  predicate PalfOk(p: Palf) {
    if p.shrinking then p.recycling <= p.stopping else p.recycling == p.stopping
  }

  predicate TenantOk(t: Tenant) {
    t.palf.Some? ==> PalfOk(t.palf.value) && t.palf.value.stopping <= t.recorded
  }

  ghost predicate Inv(s: Server) {
    && s.reserved == Sum(s.tenants, Recorded)
    && s.reserved <= s.total
    && forall id | id in s.tenants :: TenantOk(s.tenants[id])
  }

  /** An update to size 0 while palf holds disk breaks the bound of that tenant;
      no other update does. */
  predicate Sound(s: Server, e: Event) {
    e.Update? && e.newSize == 0 && e.id in s.tenants ==> Stable(s.tenants[e.id]) == 0
  }

  lemma InvStep(s: Server, e: Event)
    requires Inv(s) && Sound(s, e)
    ensures Inv(Step(s, e))
  {
    if !e.PoolResize? {
      var t := Step(s, e);
      if e.id in s.tenants {
        SumWithout(s.tenants, e.id, Recorded);
      } else {
        assert s.tenants - {e.id} == s.tenants;
      }
      if e.id in t.tenants {
        SumWith(s.tenants, e.id, t.tenants[e.id], Recorded);
      }
    }
  }

  /** The assertion in `abort_create_tenant` never fires, and removing a tenant
      is never refused. */
  lemma ReleaseIsCovered(s: Server, id: nat)
    requires Inv(s) && id in s.tenants
    ensures 0 <= s.reserved - s.tenants[id].recorded <= s.total
  {
    SumWithout(s.tenants, id, Recorded);
  }

  function EmptyServer(total: nat): Server {
    Server(total, 0, map[])
  }

  ghost predicate SoundHistory(s: Server, events: seq<Event>) {
    forall i: nat | i < |events| :: Sound(History(s, events[..i]), events[i])
  }

  lemma {:induction false} HistoryKeepsInv(s: Server, events: seq<Event>)
    requires Inv(s) && SoundHistory(s, events)
    ensures Inv(History(s, events))
  {
    if events != [] {
      var before := events[..|events| - 1];
      forall i: nat | i < |before|
        ensures Sound(History(s, before[..i]), before[i])
      {
        assert before[..i] == events[..i];
      }
      HistoryKeepsInv(s, before);
      InvStep(History(s, before), events[|events| - 1]);
    }
  }

  /** No overselling, over every history: what the tenants' palfs may still use
      is covered by the reservation, and the reservation by the pool. */
  lemma NeverOversold(total: nat, events: seq<Event>)
    requires SoundHistory(EmptyServer(total), events)
    ensures var s := History(EmptyServer(total), events);
            0 <= Sum(s.tenants, Stable) <= s.reserved <= s.total
  {
    HistoryKeepsInv(EmptyServer(total), events);
    var s := History(EmptyServer(total), events);
    SumMonotone(s.tenants, Stable, Recorded);
  }

  /** For an update that is carried out, the condition of `Sound` is exact. */
  lemma UpdateBoundIsExact(s: Server, id: nat, newSize: nat)
    requires Inv(s) && id in s.tenants && s.tenants[id].palf.Some?
    requires s.reserved - s.tenants[id].recorded
             + AllowedSize(s.tenants[id].recorded, newSize, s.tenants[id].palf.value) <= s.total
    ensures var e := Update(id, newSize, true);
            TenantOk(Step(s, e).tenants[id]) <==> Sound(s, e)
  {
  }

  ghost predicate NotAbout(events: seq<Event>, id: nat) {
    forall e | e in events :: e.PoolResize? || e.id != id
  }

  lemma {:induction false} OthersKeep(s: Server, events: seq<Event>, id: nat)
    requires id in s.tenants && NotAbout(events, id)
    ensures id in History(s, events).tenants && History(s, events).tenants[id] == s.tenants[id]
  {
    if events != [] {
      OthersKeep(s, events[..|events| - 1], id);
      assert events[|events| - 1] in events;
    }
  }

  predicate AtRest(s: Server, id: nat) {
    id in s.tenants && s.tenants[id].palf.Some? && !s.tenants[id].palf.value.shrinking
  }

  /** A tenant whose palf is at rest gets any size from palf's on, exactly, as long as
      the pool has it; palf is then at rest at that size. */
  lemma UpdateAtRest(s: Server, id: nat, size: nat)
    requires Inv(s) && AtRest(s, id) && 0 < size && s.tenants[id].palf.value.stopping <= size
    requires s.reserved - s.tenants[id].recorded + size <= s.total
    ensures var t := Step(s, Update(id, size, true));
            && AtRest(t, id) && t.tenants[id].recorded == size
            && t.tenants[id].palf.value.stopping == t.tenants[id].palf.value.recycling == size
            && t == Server(s.total, s.reserved - s.tenants[id].recorded + size, s.tenants[id := t.tenants[id]])
  {
    assert TenantOk(s.tenants[id]);
  }

  lemma StartShrink(s: Server, id: nat, size: nat)
    requires Inv(s) && AtRest(s, id) && 0 < size < s.tenants[id].palf.value.stopping
    ensures var p := s.tenants[id].palf.value;
            var x := s.tenants[id].(palf := Some(Palf(p.stopping, size, true, p.sequence + 1)));
            Step(s, Update(id, size, true)) == s.(tenants := s.tenants[id := x])
  {
    assert TenantOk(s.tenants[id]);
  }

  lemma FinishShrink(s: Server, id: nat)
    requires id in s.tenants && s.tenants[id].palf.Some? && s.tenants[id].palf.value.shrinking
    ensures var p := s.tenants[id].palf.value;
            var x := s.tenants[id].(palf := Some(Palf(p.recycling, p.recycling, false, p.sequence)));
            Step(s, PalfNormal(id, p.sequence)) == s.(tenants := s.tenants[id := x])
  {
  }

  /** A report on options that have changed since, or of a palf at rest, is ignored. */
  lemma StaleReport(s: Server, id: nat, sequence: nat)
    requires id in s.tenants && s.tenants[id].palf.Some?
    requires s.tenants[id].palf.value.sequence != sequence || !s.tenants[id].palf.value.shrinking
    ensures Step(s, PalfNormal(id, sequence)) == s
  {
    assert s.tenants[id := s.tenants[id]] == s.tenants;
  }

  /** The same in every history. */
  lemma RestingUpdate(total: nat, events: seq<Event>, id: nat, size: nat)
    requires SoundHistory(EmptyServer(total), events)
    requires var s := History(EmptyServer(total), events);
             && AtRest(s, id) && 0 < size && s.tenants[id].palf.value.stopping <= size
             && s.reserved - s.tenants[id].recorded + size <= s.total
    ensures var s := History(EmptyServer(total), events);
            var t := Step(s, Update(id, size, true));
            && AtRest(t, id) && t.tenants[id].recorded == size
            && t.tenants[id].palf.value.stopping == t.tenants[id].palf.value.recycling == size
            && t == Server(s.total, s.reserved - s.tenants[id].recorded + size, s.tenants[id := t.tenants[id]])
  {
    HistoryKeepsInv(EmptyServer(total), events);
    UpdateAtRest(History(EmptyServer(total), events), id, size);
  }

  /** A shrink of a tenant at rest, from the request to the repeated update; other
      tenants' events may come before and after palf's report. */
  ghost predicate Shrinks(s: Server, id: nat, size: nat, during: seq<Event>, after: seq<Event>,
                          s1: Server, s3: Server, s4: Server)
    requires AtRest(s, id)
  {
    && NotAbout(during, id) && NotAbout(after, id)
    && s1 == Step(s, Update(id, size, true)) && SoundHistory(s1, during)
    && s3 == Step(History(s1, during), PalfNormal(id, s.tenants[id].palf.value.sequence + 1))
    && SoundHistory(s3, after) && s4 == History(s3, after)
  }

  lemma WhileShrinking(s: Server, id: nat, size: nat, during: seq<Event>, after: seq<Event>,
                       s1: Server, s3: Server, s4: Server)
    requires Inv(s) && AtRest(s, id) && 0 < size < s.tenants[id].palf.value.stopping
    requires Shrinks(s, id, size, during, after, s1, s3, s4)
    ensures id in s1.tenants && s1.tenants[id].recorded == s.tenants[id].recorded && s1.reserved == s.reserved
    ensures Inv(s4) && AtRest(s4, id)
    ensures s4.tenants[id].recorded == s.tenants[id].recorded && s4.tenants[id].palf.value.stopping == size
  {
    StartShrink(s, id, size);
    InvStep(s, Update(id, size, true));
    OthersKeep(s1, during, id);
    HistoryKeepsInv(s1, during);
    FinishShrink(History(s1, during), id);
    InvStep(History(s1, during), PalfNormal(id, s.tenants[id].palf.value.sequence + 1));
    OthersKeep(s3, after, id);
    HistoryKeepsInv(s3, after);
  }

  /** In every history: shrinking a tenant at rest keeps its reservation until palf
      reports that it is done; repeating the update then releases the difference,
      whatever happens to the other tenants meanwhile. */
  lemma ShrinkReleases(total: nat, events: seq<Event>, id: nat, size: nat, during: seq<Event>, after: seq<Event>,
                       s: Server, s1: Server, s3: Server, s4: Server)
    requires SoundHistory(EmptyServer(total), events) && s == History(EmptyServer(total), events)
    requires AtRest(s, id) && 0 < size < s.tenants[id].palf.value.stopping
    requires Shrinks(s, id, size, during, after, s1, s3, s4)
    ensures && id in s1.tenants && s1.tenants[id].recorded == s.tenants[id].recorded && s1.reserved == s.reserved
            && id in s4.tenants && s4.tenants[id].recorded == s.tenants[id].recorded
    ensures var s5 := Step(s4, Update(id, size, true));
            && id in s5.tenants && s5.tenants[id].recorded == size && Stable(s5.tenants[id]) == size
            && s5.reserved == s4.reserved - (s.tenants[id].recorded - size) < s4.reserved
            && s5.tenants == s4.tenants[id := s5.tenants[id]]
  {
    HistoryKeepsInv(EmptyServer(total), events);
    assert TenantOk(s.tenants[id]);
    WhileShrinking(s, id, size, during, after, s1, s3, s4);
    UpdateAtRest(s4, id, size);
  }

  /** Shrinking a tenant to size 0 frees its reservation at once, and the pool
      can then be promised a second time. */
  lemma ZeroUpdateOversells()
    ensures var events := [Create(0, 10), Built(0), Update(0, 0, true), Create(1, 10), Built(1)];
            var s := History(EmptyServer(10), events);
            s.total == 10 && Sum(s.tenants, Stable) == 20
  {
    var s0 := EmptyServer(10);
    var p0, p1 := Palf(10, 10, false, 0), Palf(10, 0, true, 1);
    var s1 := Server(10, 10, map[0 := Tenant(10, None)]);
    var s2 := Server(10, 10, map[0 := Tenant(10, Some(p0))]);
    var s3 := Server(10, 0, map[0 := Tenant(0, Some(p1))]);
    var s4 := Server(10, 10, map[0 := Tenant(0, Some(p1)), 1 := Tenant(10, None)]);
    var s5 := Server(10, 10, map[0 := Tenant(0, Some(p1)), 1 := Tenant(10, Some(p0))]);
    assert Step(s0, Create(0, 10)) == s1;
    assert Step(s1, Built(0)) == s2;
    assert Step(s2, Update(0, 0, true)) == s3;
    assert Step(s3, Create(1, 10)) == s4;
    assert Step(s4, Built(1)) == s5;
    FiveSteps(s0, [Create(0, 10), Built(0), Update(0, 0, true), Create(1, 10), Built(1)]);
    SumWithout(s5.tenants, 0, Stable);
    assert s5.tenants - {0} == map[1 := Tenant(10, Some(p0))];
    SumWithout(s5.tenants - {0}, 1, Stable);
    assert s5.tenants - {0} - {1} == map[];
  }

  lemma FiveSteps(s: Server, es: seq<Event>)
    requires |es| == 5
    ensures History(s, es) == Step(Step(Step(Step(Step(s, es[0]), es[1]), es[2]), es[3]), es[4])
  {
    assert es[..4][..3] == es[..3] && es[..3][..2] == es[..2] && es[..2][..1] == es[..1] && es[..1][..0] == [];
    assert History(s, es[..1]) == Step(s, es[0]);
    assert History(s, es[..2]) == Step(History(s, es[..1]), es[1]);
    assert History(s, es[..3]) == Step(History(s, es[..2]), es[2]);
    assert History(s, es[..4]) == Step(History(s, es[..3]), es[3]);
  }

  // The code itself: the ledger in memory, and a server that calls it.

  function Size(n: nat): nat {
    n
  }

  function Sizes(ts: map<nat, Tenant>): map<nat, nat> {
    map id | id in ts :: ts[id].recorded
  }

  /** The ledger of the block manager keeps one number; `grants` are the
      reservations it stands for. */
  class Ledger {
    var total: nat
    var reserved: int
    ghost var grants: map<nat, nat>

    constructor (total: nat)
      ensures Valid() && this.total == total && grants == map[]
    {
      this.total, reserved, grants := total, 0, map[];
    }

    ghost predicate Valid()
      reads this
    {
      reserved == Sum(grants, Size) && reserved <= total
    }

    /** Granted exactly when the grants and the new one fit the pool together. */
    method CreateTenant(ghost id: nat, size: nat) returns (ok: bool)
      requires Valid() && id !in grants
      modifies `reserved, `grants
      ensures Valid() && (ok <==> Sum(old(grants), Size) + size <= total)
      ensures grants == if ok then old(grants)[id := size] else old(grants)
    {
      SumWith(grants, id, size, Size);
      assert grants - {id} == grants;
      var tmp := reserved;
      tmp := tmp + size;
      if tmp > total {
        ok := false;
      } else {
        reserved, ok := tmp, true;
        grants := grants[id := size];
      }
    }

    /** The source asserts that the reservation stays within the pool. */
    method AbortCreateTenant(ghost id: nat, size: nat)
      requires Valid() && id in grants && grants[id] == size
      modifies `reserved, `grants
      ensures Valid() && grants == old(grants) - {id}
    {
      SumWithout(grants, id, Size);
      reserved := reserved - size;
      assert 0 <= reserved <= total;
      grants := grants - {id};
    }

    /** The grant becomes the new size, or stays while palf holds more than that,
        exactly when the result fits the pool and palf accepts. */
    method UpdateTenant(ghost id: nat, oldSize: nat, newSize: nat, palf: Palf, palfAccepts: bool)
      returns (ok: bool, allowed: nat, palf': Palf)
      requires Valid() && id in grants && grants[id] == oldSize
      modifies `reserved, `grants
      ensures Valid() && (newSize > 0 ==> (palf.stopping <= oldSize ==> palf.stopping <= allowed))
      ensures newSize >= palf.stopping || newSize == 0 ==> allowed == newSize
      ensures 0 < newSize < palf.stopping ==> allowed == oldSize
      ensures ok <==> Sum(old(grants)[id := allowed], Size) <= total && palfAccepts
      ensures grants == if ok then old(grants)[id := allowed] else old(grants)
      ensures palf' == if ok then UpdateOptions(palf, newSize) else palf
      ensures !ok || newSize == palf.recycling ==> palf' == palf
      ensures ok && newSize != palf.recycling ==>
                && palf'.recycling == newSize && palf'.sequence == palf.sequence + 1
                && palf'.stopping == (if palf.stopping > newSize then palf.stopping else newSize)
                && (palf'.shrinking <==> palf.stopping > newSize)
    {
      SumWithout(grants, id, Size);
      palf' := palf;
      var tmp := reserved - oldSize;
      var expected := newSize >= palf.stopping || newSize == 0;
      allowed := if expected then newSize else oldSize;
      tmp := tmp + allowed;
      SumWith(grants, id, allowed, Size);
      if tmp > total || !palfAccepts {
        ok := false;
      } else {
        palf', reserved, ok := UpdateOptions(palf, newSize), tmp, true;
        grants := grants[id := allowed];
      }
    }

    /** Removing a tenant with the size it was granted is never refused. */
    method RemoveTenant(ghost id: nat, size: nat) returns (ok: bool)
      requires Valid() && id in grants && grants[id] == size
      modifies `reserved, `grants
      ensures Valid() && ok && grants == old(grants) - {id}
    {
      SumWithout(grants, id, Size);
      if reserved - size < 0 {
        ok := false;
      } else {
        reserved, ok := reserved - size, true;
        grants := grants - {id};
      }
    }

    /** The reservation test of resize_: never below what is granted. */
    method Resize(newSize: nat) returns (ok: bool)
      requires Valid()
      modifies `total
      ensures Valid() && (ok <==> Sum(grants, Size) <= LowerAlign(newSize))
      ensures total == if ok then LowerAlign(newSize) else old(total)
    {
      ok := !(LowerAlign(newSize) < reserved);
      if ok {
        total := LowerAlign(newSize);
      }
    }
  }

  /** The server: it records each tenant's size and passes it to the ledger. */
  class Host {
    const ledger: Ledger
    var tenants: map<nat, Tenant>

    constructor (total: nat)
      ensures Valid() && View() == EmptyServer(total) && fresh(ledger)
    {
      ledger := new Ledger(total);
      tenants := map[];
    }

    ghost predicate Valid()
      reads this, ledger
    {
      ledger.Valid() && ledger.grants == Sizes(tenants)
    }

    ghost function View(): Server
      reads this, ledger
    {
      Server(ledger.total, ledger.reserved, tenants)
    }

    method Create(id: nat, size: nat)
      requires Valid()
      modifies this, ledger
      ensures Valid() && View() == Step(old(View()), Event.Create(id, size))
    {
      if id !in tenants {
        SumWith(Sizes(tenants), id, size, Size);
        assert Sizes(tenants) - {id} == Sizes(tenants);
        var ok := ledger.CreateTenant(id, size);
        if ok {
          tenants := tenants[id := Tenant(size, None)];
        }
      }
    }

    method Abort(id: nat)
      requires Valid()
      modifies this, ledger
      ensures Valid() && View() == Step(old(View()), Event.Abort(id))
    {
      if id in tenants && tenants[id].palf.None? {
        SumWithout(Sizes(tenants), id, Size);
        ledger.AbortCreateTenant(id, tenants[id].recorded);
        tenants := tenants - {id};
      }
    }

    method Update(id: nat, newSize: nat, palfAccepts: bool)
      requires Valid()
      modifies this, ledger
      ensures Valid() && View() == Step(old(View()), Event.Update(id, newSize, palfAccepts))
    {
      if id in tenants && tenants[id].palf.Some? {
        var t := tenants[id];
        SumWithout(Sizes(tenants), id, Size);
        SumWith(Sizes(tenants), id, AllowedSize(t.recorded, newSize, t.palf.value), Size);
        var ok, allowed, palf := ledger.UpdateTenant(id, t.recorded, newSize, t.palf.value, palfAccepts);
        if ok {
          tenants := tenants[id := Tenant(allowed, Some(palf))];
        }
      }
    }

    method Remove(id: nat)
      requires Valid()
      modifies this, ledger
      ensures Valid() && View() == Step(old(View()), Event.Remove(id))
    {
      if id in tenants && tenants[id].palf.Some? {
        SumWithout(Sizes(tenants), id, Size);
        var _ := ledger.RemoveTenant(id, tenants[id].recorded);
        tenants := tenants - {id};
      }
    }

    /** Every event handled by the code is a step of the histories above. */
    method Handle(e: Event)
      requires Valid()
      modifies this, ledger
      ensures Valid() && View() == Step(old(View()), e)
    {
      match e
      case Create(id, size) => Create(id, size);
      case Abort(id) => Abort(id);
      case Update(id, newSize, palfAccepts) => Update(id, newSize, palfAccepts);
      case Remove(id) => Remove(id);
      case Built(id) =>
        if id in tenants && tenants[id].palf.None? {
          tenants := tenants[id := tenants[id].(palf := Some(NewPalf(tenants[id].recorded)))];
          assert Sizes(tenants) == ledger.grants;
        }
      case PalfNormal(id, sequence) =>
        if id in tenants && tenants[id].palf.Some? {
          var t := tenants[id];
          tenants := tenants[id := t.(palf := Some(ChangeToNormal(t.palf.value, sequence)))];
          assert Sizes(tenants) == ledger.grants;
        }
      case PoolResize(newSize) =>
        var _ := ledger.Resize(newSize);
    }

    /** A server driven through any history never oversells its pool. */
    method Drive(events: seq<Event>)
      requires Valid() && View() == EmptyServer(ledger.total)
      modifies this, ledger
      ensures Valid() && View() == History(old(View()), events)
      ensures SoundHistory(old(View()), events) ==> Sum(tenants, Stable) <= ledger.reserved <= ledger.total
    {
      for i := 0 to |events|
        invariant Valid() && View() == History(old(View()), events[..i])
      {
        assert events[..i + 1][..i] == events[..i];
        Handle(events[i]);
      }
      assert events[..|events|] == events;
      if SoundHistory(old(View()), events) {
        NeverOversold(old(ledger.total), events);
      }
    }
  }
}
