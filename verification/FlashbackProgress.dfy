/** When a stage of the flashback gets through: what the network has to do, from
    some pass of the stage on. */
module FlashbackProgress {
  import opened Common
  import opened FlashbackNet

  /** From `lo` on, l is the known leader and the only one to answer as such. */
  ghost predicate Stable(net: Net, ls: nat, l: nat, lo: nat) {
    && (forall t: nat | lo <= t :: net.leader(t, ls) == Some(l))
    && (forall t: nat | lo <= t :: net.leaderStat(t, l, ls).Some?)
    && (forall t: nat, s: nat | lo <= t && s != l :: net.leaderStat(t, s, ls).None?)
  }

  ghost predicate SettledOn(net: Net, ls: nat, l: nat, dst: Mode, lo: nat) {
    && Stable(net, ls, l, lo)
    && forall t: nat | lo <= t && net.leaderStat(t, l, ls).Some? ::
         var st := net.leaderStat(t, l, ls).value;
         GoodMode(st, dst)
  }

  /** From `lo` on the log stream has one leader, and it is in the mode. */
  ghost predicate Settled(net: Net, ls: nat, dst: Mode, lo: nat) {
    exists l :: SettledOn(net, ls, l, dst, lo)
  }

  ghost predicate AllSettled(net: Net, lsArray: seq<nat>, dst: Mode, lo: nat) {
    forall ls | ls in lsArray :: Settled(net, ls, dst, lo)
  }

  /** The operator does not believe in another leader. */
  predicate Fresh(leader: Option<nat>, l: nat) {
    leader.None? || leader == Some(l)
  }

  ghost predicate FreshMode(net: Net, op: ModeOp, dst: Mode, lo: nat) {
    exists l :: SettledOn(net, op.ls, l, dst, lo) && Fresh(op.leader, l)
  }

  ghost predicate AllFresh(net: Net, ops: seq<ModeOp>, dst: Mode, lo: nat) {
    forall op | op in ops :: FreshMode(net, op, dst, lo)
  }

  lemma SettledLater(net: Net, ls: nat, l: nat, dst: Mode, lo: nat, lo': nat)
    requires SettledOn(net, ls, l, dst, lo) && lo <= lo'
    ensures SettledOn(net, ls, l, dst, lo')
  {
  }

  lemma FreshLater(net: Net, ops: seq<ModeOp>, dst: Mode, lo: nat, lo': nat)
    requires AllFresh(net, ops, dst, lo) && lo <= lo'
    ensures AllFresh(net, ops, dst, lo')
  {
    forall op | op in ops
      ensures FreshMode(net, op, dst, lo')
    {
      assert FreshMode(net, op, dst, lo);
      var l :| SettledOn(net, op.ls, l, dst, lo) && Fresh(op.leader, l);
      SettledLater(net, op.ls, l, dst, lo, lo');
    }
  }

  /** Operator number `asker` got an answer from this leader in [lo, hi). */
  ghost predicate AskedIn(h: History, asker: nat, l: nat, ls: nat, lo: nat, hi: nat) {
    exists t: nat, st: Stat | LeaderAns(t, asker, l, ls, st) in h :: lo <= t < hi
  }

  lemma AskedLater(h: History, h': History, lo': nat, lo: nat, hi: nat, hi': nat)
    requires h <= h' && lo' <= lo && hi <= hi'
    ensures forall asker: nat, l: nat, ls: nat | AskedIn(h, asker, l, ls, lo, hi) :: AskedIn(h', asker, l, ls, lo', hi')
  {
    forall asker: nat, l: nat, ls: nat | AskedIn(h, asker, l, ls, lo, hi)
      ensures AskedIn(h', asker, l, ls, lo', hi')
    {
      var t: nat, st: Stat :| LeaderAns(t, asker, l, ls, st) in h && lo <= t < hi;
      assert LeaderAns(t, asker, l, ls, st) in h';
    }
  }

  lemma StableLater(net: Net, ls: nat, l: nat, lo: nat, lo': nat)
    requires Stable(net, ls, l, lo) && lo <= lo'
    ensures Stable(net, ls, l, lo')
  {
  }

  /** From the pass after one that begins with a stable leader on, every pass asks that
      leader. */
  ghost predicate StableAsked(net: Net, h: History, lsArray: seq<nat>, starts: seq<nat>, now: nat) {
    forall p: nat, q: nat, i: nat, l | p < q < |starts| && i < |lsArray| && Stable(net, lsArray[i], l, starts[p]) ::
      AskedIn(h, i, l, lsArray[i], starts[q], EndOf(starts, q, now))
  }

  ghost function EndOf(starts: seq<nat>, q: nat, now: nat): nat {
    if q + 1 < |starts| then starts[q + 1] else now
  }

  /** A stable leader is not forgotten, and is asked unless the operator believes in
      another one. */
  ghost predicate TurnOk(net: Net, h: History, k: nat, op: ModeOp, r: ModeOp, dst: Mode, lo: nat, now: nat) {
    && r.ls == op.ls && r.dst == op.dst == dst
    && forall l | Stable(net, op.ls, l, lo) ::
         Fresh(r.leader, l) && (Fresh(op.leader, l) ==> AskedIn(h, k, l, op.ls, lo, now))
  }

  /** What one turn of a mode operator does for the stage. */
  lemma ModeTurnFacts(net: Net, i: nat, op: ModeOp, r: ModeOp, ok: bool, h: History, h': History, sent: set<Cmd>,
                      sent': set<Cmd>, lo: nat, now: nat)
    requires Before(h, lo) && lo <= now <= lo + 3
    requires var s := if op.leader.Some? then op.leader else net.leader(lo, op.ls);
             var t := if op.leader.Some? then lo else lo + 1;
             if s.Some? && net.leaderStat(t, s.value, op.ls).Some?
             then var st := net.leaderStat(t, s.value, op.ls).value;
                  Answered(i, op, r, ok, s.value, t, st, h, h', sent, sent') && t < now
             else Unanswered(op, r, ok, h, h', sent, sent')
    ensures After(h, h', lo) && Sends(h', sent, sent', op.dst, lo, now)
    ensures TurnOk(net, h', i, op, r, op.dst, lo, now)
    ensures ok ==> InMode(h', r, lo, now)
    ensures FreshMode(net, op, op.dst, lo) ==> ok
  {
    var s := if op.leader.Some? then op.leader else net.leader(lo, op.ls);
    var t := if op.leader.Some? then lo else lo + 1;
    if s.Some? && net.leaderStat(t, s.value, op.ls).Some? {
      assert LeaderAns(t, i, s.value, op.ls, net.leaderStat(t, s.value, op.ls).value) in h';
    }
  }

  ghost predicate TurnsOk(net: Net, h: History, ops: seq<ModeOp>, rs: seq<ModeOp>, dst: Mode, lo: nat, now: nat) {
    |rs| <= |ops| && forall k: nat | k < |rs| :: TurnOk(net, h, k, ops[k], rs[k], dst, lo, now)
  }

  lemma TurnsStep(net: Net, h: History, h': History, ops: seq<ModeOp>, rs: seq<ModeOp>, r: ModeOp, dst: Mode,
                  lo: nat, mid: nat, now: nat)
    requires TurnsOk(net, h, ops, rs, dst, lo, mid) && |rs| < |ops| && h <= h' && lo <= mid <= now
    requires TurnOk(net, h', |rs|, ops[|rs|], r, dst, mid, now)
    ensures TurnsOk(net, h', ops, rs + [r], dst, lo, now)
  {
    AskedLater(h, h', lo, lo, mid, now);
    AskedLater(h', h', lo, mid, now, now);
    var more := rs + [r];
    forall k: nat | k < |more|
      ensures TurnOk(net, h', k, ops[k], more[k], dst, lo, now)
    {
      if k < |rs| {
        assert TurnOk(net, h, k, ops[k], rs[k], dst, lo, mid);
      } else {
        forall l | Stable(net, ops[k].ls, l, lo)
          ensures Fresh(r.leader, l) && (Fresh(ops[k].leader, l) ==> AskedIn(h', k, l, ops[k].ls, lo, now))
        {
          StableLater(net, ops[k].ls, l, lo, mid);
        }
      }
    }
  }

  lemma StablePass(net: Net, h: History, h': History, lsArray: seq<nat>, ops: seq<ModeOp>, rs: seq<ModeOp>, dst: Mode,
                   past: seq<nat>, last: nat, now: nat)
    requires h <= h' && |ops| == |rs| == |lsArray| && last <= now && forall t | t in past :: t <= last
    requires forall i | 0 <= i < |lsArray| :: ops[i].ls == lsArray[i]
    requires StableAsked(net, h, lsArray, past, last) && StableKnown(net, ops, past)
    requires TurnsOk(net, h', ops, rs, dst, last, now)
    ensures StableAsked(net, h', lsArray, past + [last], now) && StableKnown(net, rs, past + [last])
  {
    var starts := past + [last];
    forall p: nat, q: nat, i: nat, l | p < q < |starts| && i < |lsArray| && Stable(net, lsArray[i], l, starts[p])
      ensures AskedIn(h', i, l, lsArray[i], starts[q], EndOf(starts, q, now))
    {
      assert starts[p] == past[p] && past[p] in past;
      if q < |past| {
        assert AskedIn(h, i, l, lsArray[i], past[q], EndOf(past, q, last));
        AskedLater(h, h', past[q], past[q], EndOf(past, q, last), EndOf(starts, q, now));
      } else {
        StableLater(net, lsArray[i], l, past[p], last);
        assert TurnOk(net, h', i, ops[i], rs[i], dst, last, now);
      }
    }
    forall p: nat, i: nat, l | p < |starts| && i < |rs| && Stable(net, rs[i].ls, l, starts[p])
      ensures Fresh(rs[i].leader, l)
    {
      assert starts[p] in starts;
      assert TurnOk(net, h', i, ops[i], rs[i], dst, last, now);
      StableLater(net, rs[i].ls, l, starts[p], last);
    }
  }

  /** If a pass before this one began settled, no operator is mistaken in this one. */
  lemma SettledIsFresh(net: Net, lsArray: seq<nat>, ops: seq<ModeOp>, dst: Mode, past: seq<nat>, last: nat)
    requires |ops| == |lsArray| && (forall t | t in past :: t <= last) && StableKnown(net, ops, past)
    requires forall i | 0 <= i < |lsArray| :: ops[i].ls == lsArray[i]
    ensures (exists p: nat | p < |past| :: AllSettled(net, lsArray, dst, past[p])) ==> AllFresh(net, ops, dst, last)
  {
    forall p: nat | p < |past| && AllSettled(net, lsArray, dst, past[p])
      ensures AllFresh(net, ops, dst, last)
    {
      forall i: nat | i < |ops|
        ensures FreshMode(net, ops[i], dst, last)
      {
        assert Settled(net, lsArray[i], dst, past[p]) && past[p] in past;
        var l :| SettledOn(net, lsArray[i], l, dst, past[p]);
        SettledLater(net, lsArray[i], l, dst, past[p], last);
      }
    }
  }

  ghost predicate StableKnown(net: Net, ops: seq<ModeOp>, starts: seq<nat>) {
    forall p: nat, i: nat, l | p < |starts| && i < |ops| && Stable(net, ops[i].ls, l, starts[p]) ::
      Fresh(ops[i].leader, l)
  }

  /** The stage used all its passes, and from none of them but the last on were all
      log streams settled. */
  ghost predicate ModeStuck(net: Net, lsArray: seq<nat>, dst: Mode, passes: nat, starts: seq<nat>) {
    |starts| == passes && forall p: nat | p + 1 < passes :: !AllSettled(net, lsArray, dst, starts[p])
  }

  /** Some leader would have listed the server as a member, or a learner, since
      `from`. */
  ghost predicate MemberSince(net: Net, ls: nat, s: nat, from: nat) {
    exists t: nat, l: nat | from <= t && net.leaderStat(t, l, ls).Some? :: s in net.leaderStat(t, l, ls).value.members
  }

  ghost predicate LearnerSince(net: Net, ls: nat, s: nat, from: nat) {
    exists t: nat, l: nat | from <= t && net.leaderStat(t, l, ls).Some? :: s in net.leaderStat(t, l, ls).value.learners
  }

  ghost predicate ListedSince(net: Net, ls: nat, s: nat, from: nat) {
    MemberSince(net, ls, s, from) || LearnerSince(net, ls, s, from)
  }

  lemma ListsAreListed(net: Net, h: History, asker: nat, ls: nat, members: seq<nat>, learners: seq<nat>,
                       from: nat, now: nat)
    requires Current(h, asker, ls, members, learners, from, now) && Truthful(net, h, now)
    ensures forall s | s in members :: MemberSince(net, ls, s, from)
    ensures forall s | s in learners :: LearnerSince(net, ls, s, from)
  {
    var t: nat, l: nat, st: Stat :| LeaderAns(t, asker, l, ls, st) in h && from <= t < now &&
                                    st.members == members && st.learners == learners;
    assert True(net, LeaderAns(t, asker, l, ls, st));
    assert net.leaderStat(t, l, ls) == Some(st);
  }

  ghost predicate SyncedAt(net: Net, ls: nat, s: nat, scn: nat, t: nat) {
    net.stat(t, s, ls).Some? && IsSynced(net.stat(t, s, ls).value, scn)
  }

  ghost predicate AlwaysSynced(net: Net, ls: nat, s: nat, scn: nat, lo: nat) {
    forall t: nat | lo <= t :: SyncedAt(net, ls, s, scn, t)
  }

  ghost predicate NeverSynced(net: Net, ls: nat, s: nat, scn: nat, lo: nat) {
    forall t: nat | lo <= t :: !SyncedAt(net, ls, s, scn, t)
  }

  ghost predicate ShortAt(net: Net, ls: nat, s: nat, scn: nat, t: nat) {
    net.stat(t, s, ls).Some? && IsShort(net.stat(t, s, ls).value, scn)
  }

  ghost predicate AlwaysShort(net: Net, ls: nat, s: nat, scn: nat, lo: nat) {
    forall t: nat | lo <= t :: ShortAt(net, ls, s, scn, t)
  }

  ghost predicate UpAt(net: Net, ls: nat, s: nat, t: nat) {
    net.stat(t, s, ls).Some?
  }

  ghost predicate AlwaysUp(net: Net, ls: nat, s: nat, lo: nat) {
    forall t: nat | lo <= t :: UpAt(net, ls, s, t)
  }

  /** Every server on the list answered in [lo, hi), or was known before. */
  ghost predicate AllAnswered(h: History, ls: nat, list: seq<nat>, known: set<nat>, lo: nat, hi: nat) {
    forall s | s in list && s !in known :: AnsweredIn(h, ls, s, lo, hi)
  }

  ghost predicate AnsweredIn(h: History, ls: nat, s: nat, lo: nat, hi: nat) {
    exists t: nat, st: Stat | ServerAns(t, s, ls, st) in h :: lo <= t < hi
  }

  /** Some server on the list did not answer when asked. */
  ghost predicate SomeSilent(net: Net, ls: nat, list: seq<nat>, lo: nat, hi: nat) {
    exists s: nat, t: nat | s in list && lo <= t < hi :: !UpAt(net, ls, s, t)
  }

  lemma AnsweredLater(h: History, h': History, ls: nat, list: seq<nat>, known: set<nat>, lo: nat, hi: nat, hi': nat)
    requires h <= h' && hi <= hi'
    ensures AllAnswered(h, ls, list, known, lo, hi) ==> AllAnswered(h', ls, list, known, lo, hi')
  {
    if AllAnswered(h, ls, list, known, lo, hi) {
      forall s | s in list && s !in known
        ensures AnsweredIn(h', ls, s, lo, hi')
      {
        assert AnsweredIn(h, ls, s, lo, hi);
        var t: nat, st: Stat :| ServerAns(t, s, ls, st) in h && lo <= t < hi;
        assert ServerAns(t, s, ls, st) in h';
      }
    }
  }

  lemma AnsweredEarlier(h: History, ls: nat, list: seq<nat>, known: set<nat>, lo': nat, lo: nat, hi: nat)
    requires lo' <= lo
    ensures AllAnswered(h, ls, list, known, lo, hi) ==> AllAnswered(h, ls, list, known, lo', hi)
  {
    forall s | AnsweredIn(h, ls, s, lo, hi)
      ensures AnsweredIn(h, ls, s, lo', hi)
    {
      var t: nat, st: Stat :| ServerAns(t, s, ls, st) in h && lo <= t < hi;
    }
  }

  lemma SyncedAnswered(h: History, ls: nat, s: nat, scn: nat, lo: nat, hi: nat)
    ensures Synced(h, ls, s, scn, lo, hi) ==> AnsweredIn(h, ls, s, lo, hi)
  {
  }

  lemma SilentJoin(net: Net, ls: nat, members: seq<nat>, learners: seq<nat>, lo: nat, mid: nat, hi: nat)
    requires lo <= mid <= hi
    ensures SomeSilent(net, ls, members, lo, mid) || SomeSilent(net, ls, learners, mid, hi) ==>
              SomeSilent(net, ls, members + learners, lo, hi)
  {
    if SomeSilent(net, ls, members, lo, mid) {
      var s: nat, t: nat :| s in members && lo <= t < mid && !UpAt(net, ls, s, t);
      assert s in members + learners;
    } else if SomeSilent(net, ls, learners, mid, hi) {
      var s: nat, t: nat :| s in learners && mid <= t < hi && !UpAt(net, ls, s, t);
      assert s in members + learners;
    }
  }

  lemma AlwaysLater(net: Net, ls: nat, scn: nat, lo: nat, lo': nat)
    requires lo <= lo'
    ensures forall s: nat | AlwaysSynced(net, ls, s, scn, lo) :: AlwaysSynced(net, ls, s, scn, lo')
    ensures forall s: nat | AlwaysShort(net, ls, s, scn, lo) :: AlwaysShort(net, ls, s, scn, lo')
    ensures forall s: nat | AlwaysUp(net, ls, s, lo) :: AlwaysUp(net, ls, s, lo')
    ensures forall s: nat | AlwaysSynced(net, ls, s, scn, lo) :: AlwaysUp(net, ls, s, lo)
  {
    forall s: nat, t: nat | AlwaysSynced(net, ls, s, scn, lo) && lo <= t
      ensures UpAt(net, ls, s, t)
    {
      assert SyncedAt(net, ls, s, scn, t);
    }
  }

  /** Whoever was seen in sync was, so one who never is was not seen. */
  lemma NotSeenSynced(net: Net, h: History, ls: nat, s: nat, scn: nat, from: nat, now: nat)
    requires Truthful(net, h, now) && NeverSynced(net, ls, s, scn, from)
    ensures !Synced(h, ls, s, scn, from, now)
  {
    forall t: nat, st: Stat | ServerAns(t, s, ls, st) in h && from <= t < now
      ensures !IsSynced(st, scn)
    {
      assert True(net, ServerAns(t, s, ls, st));
      assert !SyncedAt(net, ls, s, scn, t);
    }
  }

  /** All servers on the lists answer, and are in sync. */
  ghost predicate InSyncFrom(net: Net, ls: nat, scn: nat, from: nat, lo: nat) {
    forall s | ListedSince(net, ls, s, from) :: AlwaysSynced(net, ls, s, scn, lo)
  }

  /** All servers on the lists answer, and all members end before the point. */
  ghost predicate ShortFrom(net: Net, ls: nat, scn: nat, from: nat, lo: nat) {
    && (forall s | ListedSince(net, ls, s, from) :: AlwaysUp(net, ls, s, lo))
    && forall s | MemberSince(net, ls, s, from) ::
         AlwaysShort(net, ls, s, scn, lo) && NeverSynced(net, ls, s, scn, from)
  }

  /** From `lo` on, one leader, and the servers listed since `from` in sync or, all
      members, short. */
  ghost predicate ReadyOn(net: Net, ls: nat, l: nat, scn: nat, from: nat, lo: nat) {
    Stable(net, ls, l, lo) && (InSyncFrom(net, ls, scn, from, lo) || ShortFrom(net, ls, scn, from, lo))
  }

  ghost predicate Ready(net: Net, ls: nat, scn: nat, from: nat, lo: nat) {
    exists l :: ReadyOn(net, ls, l, scn, from, lo)
  }

  ghost predicate AllReady(net: Net, lsArray: seq<nat>, scn: nat, from: nat, lo: nat) {
    forall ls | ls in lsArray :: Ready(net, ls, scn, from, lo)
  }

  predicate FreshCheck(op: CheckOp, l: nat) {
    op.hasList || Fresh(op.leader, l)
  }

  /** What readiness means for the operator's own lists. */
  lemma CheckReadyLists(net: Net, h: History, asker: nat, op: CheckOp, scn: nat, from: nat, lo: nat, now: nat)
    requires op.hasList && CheckInv(h, asker, op, scn, from, now) && Truthful(net, h, now) && lo <= now
    ensures InSyncFrom(net, op.ls, scn, from, lo) || ShortFrom(net, op.ls, scn, from, lo) ==>
              forall s | s in op.members || s in op.learners :: AlwaysUp(net, op.ls, s, now)
    ensures InSyncFrom(net, op.ls, scn, from, lo) ==>
              forall s | s in op.members || s in op.learners :: AlwaysSynced(net, op.ls, s, scn, now)
    ensures ShortFrom(net, op.ls, scn, from, lo) ==>
              forall s | s in op.members :: AlwaysShort(net, op.ls, s, scn, now) && s !in op.syncMembers
  {
    ListsAreListed(net, h, asker, op.ls, op.members, op.learners, from, now);
    AlwaysLater(net, op.ls, scn, lo, now);
    forall s | s in op.members && ShortFrom(net, op.ls, scn, from, lo)
      ensures s !in op.syncMembers
    {
      NotSeenSynced(net, h, op.ls, s, scn, from, now);
    }
  }

  ghost predicate CheckReady(net: Net, op: CheckOp, scn: nat, from: nat, lo: nat) {
    exists l :: ReadyOn(net, op.ls, l, scn, from, lo) && FreshCheck(op, l)
  }

  ghost predicate ChecksReady(net: Net, ops: seq<CheckOp>, scn: nat, from: nat, lo: nat) {
    forall op | op in ops :: CheckReady(net, op, scn, from, lo)
  }

  lemma ReadyLater(net: Net, ls: nat, l: nat, scn: nat, from: nat, lo: nat, lo': nat)
    requires ReadyOn(net, ls, l, scn, from, lo) && lo <= lo'
    ensures ReadyOn(net, ls, l, scn, from, lo')
  {
    AlwaysLater(net, ls, scn, lo, lo');
  }

  lemma ChecksLater(net: Net, ops: seq<CheckOp>, scn: nat, from: nat, lo: nat, lo': nat)
    requires ChecksReady(net, ops, scn, from, lo) && lo <= lo'
    ensures ChecksReady(net, ops, scn, from, lo')
  {
    forall op | op in ops
      ensures CheckReady(net, op, scn, from, lo')
    {
      assert CheckReady(net, op, scn, from, lo);
      var l :| ReadyOn(net, op.ls, l, scn, from, lo) && FreshCheck(op, l);
      ReadyLater(net, op.ls, l, scn, from, lo, lo');
    }
  }

  ghost predicate SyncStuck(net: Net, lsArray: seq<nat>, scn: nat, from: nat, passes: nat, starts: seq<nat>) {
    |starts| == passes && forall p: nat | p + 1 < passes :: !AllReady(net, lsArray, scn, from, starts[p])
  }

  ghost predicate Led(net: Net, ls: nat, lo: nat) {
    exists l :: Stable(net, ls, l, lo)
  }

  ghost predicate AllLed(net: Net, ops: seq<ModeOp>, lo: nat) {
    forall op | op in ops :: Led(net, op.ls, lo)
  }

  /** The server's acknowledgement, for whatever point, arrives in [lo, hi). */
  ghost predicate AcksIn(net: Net, ls: nat, version: nat, s: nat, lo: nat, hi: nat) {
    exists t: nat, scn: nat | Ack(s, ls, version, scn, true) in net.acks(t) :: lo <= t < hi
  }

  /** Every server listed since `from` acknowledges at some time in [lo, hi), and
      none was listed both as member and as learner. */
  ghost predicate Responds(net: Net, ls: nat, version: nat, from: nat, lo: nat, hi: nat) {
    && (forall s | ListedSince(net, ls, s, from) :: AcksIn(net, ls, version, s, lo, hi))
    && forall s | MemberSince(net, ls, s, from) :: !LearnerSince(net, ls, s, from)
  }

  ghost predicate AllRespond(net: Net, ops: seq<ModeOp>, from: nat, lo: nat, hi: nat) {
    && (forall i, j | 0 <= i < j < |ops| :: ops[i].ls != ops[j].ls)
    && forall op | op in ops :: Responds(net, op.ls, op.version, from, lo, hi)
  }

  /** The stage used all its passes, and there are no two of them, p before q, such
      that leaders are stable from p on and all servers have acknowledged between
      the start of the pass after p and the start of q. */
  ghost predicate AckStuck(net: Net, ops: seq<ModeOp>, from: nat, passes: nat, starts: seq<nat>) {
    && |starts| == passes
    && forall p: nat, q: nat | p < q < passes ::
         !(AllLed(net, ops, starts[p]) && AllRespond(net, ops, from, starts[p + 1], starts[q]))
  }

  /** All acknowledgements that came in [since, heard) are counted. */
  ghost predicate CountedSince(net: Net, ops: seq<ExecOp>, since: nat, heard: nat) {
    forall k: nat, t: nat | k < |ops| && since <= t < heard :: CountedAt(net, ops, k, t)
  }

  ghost predicate CountedAt(net: Net, ops: seq<ExecOp>, k: nat, t: nat)
    requires k < |ops|
  {
    forall ack | ack in net.acks(t) && FirstMatch(ops, ack, k) :: Counted(ops[k], ack)
  }

  lemma Completes(net: Net, h: History, ops: seq<ExecOp>, k: nat, from: nat, since: nat, hi: nat, heard: nat, now: nat)
    requires k < |ops| && Distinct(ops) && ops[k].hasList && ExecInv(h, k, ops[k], from, now) && Truthful(net, h, now)
    requires CountedSince(net, ops, since, heard) && hi <= heard
    requires Responds(net, ops[k].ls, ops[k].version, from, since, hi)
    ensures Complete(ops[k])
  {
    var op := ops[k];
    ListsAreListed(net, h, k, op.ls, op.members, op.learners, from, now);
    forall s | s in op.members || s in op.learners
      ensures s in op.members ==> s in op.doneMembers
      ensures s in op.learners ==> s in op.doneLearners
    {
      assert ListedSince(net, op.ls, s, from);
      assert AcksIn(net, op.ls, op.version, s, since, hi);
      var t: nat, scn: nat :| Ack(s, op.ls, op.version, scn, true) in net.acks(t) && since <= t < hi;
      assert CountedAt(net, ops, k, t);
      assert FirstMatch(ops, Ack(s, op.ls, op.version, scn, true), k);
    }
  }

  ghost predicate AllListed(ops: seq<ExecOp>) {
    forall op | op in ops :: op.hasList
  }

  /** Everything is listed, and what came in [since, heard) counted. */
  ghost predicate Armed(net: Net, ops: seq<ExecOp>, since: nat, heard: nat) {
    AllListed(ops) && CountedSince(net, ops, since, heard)
  }

  ghost predicate AllGrew(ops: seq<ExecOp>, rs: seq<ExecOp>) {
    |rs| == |ops| && forall k | 0 <= k < |ops| :: Grew(ops[k], rs[k])
  }

  /** The first i of these acknowledgements are counted. */
  ghost predicate CountedFirst(ops: seq<ExecOp>, arrived: seq<Ack>, i: nat)
    requires i <= |arrived|
  {
    forall k, j | 0 <= k < |ops| && 0 <= j < i && FirstMatch(ops, arrived[j], k) :: Counted(ops[k], arrived[j])
  }

  lemma HeardAll(net: Net, ops: seq<ExecOp>, t: nat)
    requires CountedFirst(ops, net.acks(t), |net.acks(t)|)
    ensures CountedSince(net, ops, t, t + 1)
  {
  }

  lemma TookKeeps(h: History, before: seq<ExecOp>, after: seq<ExecOp>, ack: Ack, from: nat, t: nat, now: nat)
    requires AckIn(t, ack) in h && from <= t < now && Took(before, after, ack) && ExecInvs(h, before, from, now)
    ensures AllGrew(before, after) && ExecInvs(h, after, from, now)
    ensures forall k | 0 <= k < |before| && FirstMatch(before, ack, k) :: Counted(after[k], ack)
  {
    forall k | 0 <= k < |after|
      ensures Grew(before[k], after[k]) && ExecInv(h, k, after[k], from, now)
      ensures FirstMatch(before, ack, k) ==> Counted(after[k], ack)
    {
      AcceptInv(h, k, before[k], ack, from, t, now);
    }
  }

  lemma AllGrewStep(start: seq<ExecOp>, before: seq<ExecOp>, after: seq<ExecOp>)
    requires AllGrew(start, before) && AllGrew(before, after)
    ensures AllGrew(start, after)
  {
    forall k | 0 <= k < |after|
      ensures Grew(start[k], after[k])
    {
      assert Grew(start[k], before[k]) && Grew(before[k], after[k]);
    }
  }

  lemma SameMatches(before: seq<ExecOp>, after: seq<ExecOp>, ack: Ack, k: nat)
    requires AllGrew(before, after) && k < |after|
    ensures FirstMatch(before, ack, k) == FirstMatch(after, ack, k)
    ensures Counted(before[k], ack) ==> Counted(after[k], ack)
  {
    assert forall j | 0 <= j <= k :: Grew(before[j], after[j]);
  }

  lemma TookStep(before: seq<ExecOp>, after: seq<ExecOp>, arrived: seq<Ack>, i: nat)
    requires i < |arrived| && AllGrew(before, after) && CountedFirst(before, arrived, i)
    requires forall k | 0 <= k < |before| && FirstMatch(before, arrived[i], k) :: Counted(after[k], arrived[i])
    ensures CountedFirst(after, arrived, i + 1)
  {
    forall k, j | 0 <= k < |after| && 0 <= j < i + 1 && FirstMatch(after, arrived[j], k)
      ensures Counted(after[k], arrived[j])
    {
      SameMatches(before, after, arrived[j], k);
    }
  }

  lemma CountedGrew(net: Net, ops: seq<ExecOp>, rs: seq<ExecOp>, since: nat, mid: nat, hi: nat)
    requires AllGrew(ops, rs) && CountedSince(net, ops, since, mid) && CountedSince(net, rs, mid, hi)
    ensures CountedSince(net, rs, since, hi)
  {
    forall k: nat, t: nat | k < |rs| && since <= t < hi
      ensures CountedAt(net, rs, k, t)
    {
      if t < mid {
        assert CountedAt(net, ops, k, t);
        forall ack | ack in net.acks(t) && FirstMatch(rs, ack, k)
          ensures Counted(rs[k], ack)
        {
          SameMatches(ops, rs, ack, k);
        }
      } else {
        assert CountedAt(net, rs, k, t);
      }
    }
  }

  lemma RespondsLonger(net: Net, ls: nat, version: nat, from: nat, lo': nat, lo: nat, hi: nat)
    requires Responds(net, ls, version, from, lo, hi) && lo' <= lo
    ensures Responds(net, ls, version, from, lo', hi)
  {
    forall s | ListedSince(net, ls, s, from)
      ensures AcksIn(net, ls, version, s, lo', hi)
    {
      assert AcksIn(net, ls, version, s, lo, hi);
    }
  }

  ghost predicate Distinct(ops: seq<ExecOp>) {
    forall i, j | 0 <= i < j < |ops| :: ops[i].ls != ops[j].ls
  }

  /** Everything is listed and counted, and all servers have acknowledged. */
  ghost predicate Due(net: Net, ops: seq<ExecOp>, from: nat, since: nat, hi: nat) {
    Distinct(ops) && forall op | op in ops :: Responds(net, op.ls, op.version, from, since, hi)
  }

  lemma DueSame(net: Net, ops: seq<ExecOp>, rs: seq<ExecOp>, from: nat, since: nat, hi: nat)
    requires SameTargets(ops, rs) && Due(net, ops, from, since, hi)
    ensures Due(net, rs, from, since, hi)
  {
    forall k | 0 <= k < |rs|
      ensures Responds(net, rs[k].ls, rs[k].version, from, since, hi)
    {
      assert ops[k] in ops && SameTarget(ops[k], rs[k]);
    }
    forall i, j | 0 <= i < j < |rs|
      ensures rs[i].ls != rs[j].ls
    {
      assert SameTarget(ops[i], rs[i]) && SameTarget(ops[j], rs[j]);
    }
  }

  /** In a pass that began at `lo` the first i operators have had their turn. */
  ghost predicate Turned(net: Net, start: seq<ExecOp>, ops: seq<ExecOp>, i: nat, lo: nat) {
    && SameTargets(start, ops)
    && (forall k | 0 <= k < i && k < |ops| && (start[k].hasList || Led(net, start[k].ls, lo)) :: ops[k].hasList)
    && (forall k | i <= k < |ops| :: Grew(start[k], ops[k]))
  }

  ghost predicate FirstComplete(ops: seq<ExecOp>, i: nat) {
    forall k | 0 <= k < i && k < |ops| :: Complete(ops[k])
  }

  /** One operator's turn, in which the others only count acknowledgements. */
  lemma TurnKeeps(net: Net, start: seq<ExecOp>, before: seq<ExecOp>, after: seq<ExecOp>, i: nat, lo: nat)
    requires Turned(net, start, before, i, lo) && |after| == |before| && i < |after| && SameTarget(before[i], after[i])
    requires before[i].hasList || Led(net, before[i].ls, lo) ==> after[i].hasList
    requires forall k | 0 <= k < |before| && k != i :: Grew(before[k], after[k])
    ensures Turned(net, start, after, i + 1, lo)
    ensures FirstComplete(before, i) && Complete(after[i]) ==> FirstComplete(after, i + 1)
  {
    forall k | 0 <= k < |after|
      ensures SameTarget(start[k], after[k])
      ensures k != i ==> (before[k].hasList ==> after[k].hasList) && (Complete(before[k]) ==> Complete(after[k]))
      ensures i < k ==> Grew(start[k], after[k])
    {
      assert SameTarget(start[k], before[k]) && (k != i ==> Grew(before[k], after[k]));
      assert i < k ==> Grew(start[k], before[k]);
    }
    assert Grew(start[i], before[i]);
  }

  /** What is armed before the acknowledgements are handled is armed after, and what
      is due is complete. */
  lemma TurnDue(net: Net, h: History, before: seq<ExecOp>, after: seq<ExecOp>, i: nat, from: nat, since: nat, hi: nat,
                heard0: nat, heard: nat, now: nat)
    requires AllGrew(before, after) && CountedSince(net, after, heard0, heard) && Armed(net, before, since, heard0)
    requires i < |after| && hi <= heard && ExecInv(h, i, after[i], from, now) && Truthful(net, h, now)
    ensures Armed(net, after, since, heard)
    ensures Due(net, before, from, since, hi) ==> Complete(after[i])
  {
    CountedGrew(net, before, after, since, heard0, heard);
    forall k | 0 <= k < |after|
      ensures after[k].hasList
    {
      assert before[k] in before && Grew(before[k], after[k]);
    }
    if Due(net, before, from, since, hi) {
      DueSame(net, before, after, from, since, hi);
      Completes(net, h, after, i, from, since, hi, heard, now);
    }
  }

  lemma DueWhenAllRespond(net: Net, ops: seq<ModeOp>, rs: seq<ExecOp>, from: nat, since: nat, lo: nat, hi: nat)
    requires Casts(ops, rs) && AllRespond(net, ops, from, lo, hi) && since <= lo
    ensures Due(net, rs, from, since, hi)
  {
    forall k | 0 <= k < |rs|
      ensures Responds(net, rs[k].ls, rs[k].version, from, since, hi)
    {
      assert ops[k] in ops;
      RespondsLonger(net, ops[k].ls, ops[k].version, from, since, lo, hi);
    }
  }

  lemma LedLater(net: Net, ls: nat, lo: nat, lo': nat)
    requires lo <= lo'
    ensures Led(net, ls, lo) ==> Led(net, ls, lo')
  {
    if Led(net, ls, lo) {
      var l :| Stable(net, ls, l, lo);
      assert Stable(net, ls, l, lo');
    }
  }

  ghost predicate Rising(starts: seq<nat>, lo: nat, hi: nat) {
    && (forall t | t in starts :: lo <= t <= hi)
    && forall i, j | 0 <= i <= j < |starts| :: starts[i] <= starts[j]
  }

  lemma RisingStep(starts: seq<nat>, lo: nat, hi: nat)
    requires Rising(starts, lo, hi) && lo <= hi
    ensures Rising(starts + [hi], lo, hi)
  {
    var more := starts + [hi];
    forall i, j | 0 <= i <= j < |more|
      ensures more[i] <= more[j]
    {
      assert i < |starts| ==> starts[i] in starts;
    }
  }

  lemma RisingLater(starts: seq<nat>, lo: nat, hi: nat, hi': nat)
    requires Rising(starts, lo, hi) && hi <= hi'
    ensures Rising(starts, lo, hi')
  {
  }

  /** `since` is the first pass that began with all lists known: none later than
      the pass after one that began with stable leaders. */
  ghost predicate Tracked(net: Net, ops: seq<ModeOp>, rs: seq<ExecOp>, starts: seq<nat>, since: Option<nat>,
                          heard: nat)
  {
    && (since.Some? ==> since.value < |starts| && AllListed(rs) && CountedSince(net, rs, starts[since.value], heard))
    && (forall p: nat | p < |starts| && AllLed(net, ops, starts[p]) :: AllListed(rs))
    && (forall p: nat | p + 1 < |starts| && AllLed(net, ops, starts[p]) :: since.Some? && since.value <= p + 1)
  }

  lemma TrackStep(net: Net, ops: seq<ModeOp>, before: seq<ExecOp>, after: seq<ExecOp>, past: seq<nat>, starts: seq<nat>,
                  since0: Option<nat>, since: Option<nat>, heard0: nat, heard: nat)
    requires Tracked(net, ops, before, past, since0, heard0) && Casts(ops, before)
    requires |starts| == |past| + 1 && starts[..|past|] == past && heard0 <= starts[|past|]
    requires since == if since0.None? && AllListed(before) then Some(|past|) else since0
    requires (forall op | op in before :: op.hasList || Led(net, op.ls, starts[|past|])) ==> AllListed(after)
    requires since.Some? && AllListed(before) && CountedSince(net, before, starts[since.value], heard0) ==>
               CountedSince(net, after, starts[since.value], heard)
    ensures Tracked(net, ops, after, starts, since, heard)
  {
    assert forall p: nat | p < |past| :: starts[p] == past[p];
    if AllLed(net, ops, starts[|past|]) {
      forall k | 0 <= k < |before|
        ensures Led(net, before[k].ls, starts[|past|])
      {
        assert ops[k] in ops;
      }
    }
  }

  /** One more pass without success leaves the stage stuck as before. */
  lemma StuckStep(net: Net, ops: seq<ModeOp>, before: seq<ExecOp>, from: nat, past: seq<nat>, starts: seq<nat>,
                  since: Option<nat>, ok: bool)
    requires Casts(ops, before) && |starts| == |past| + 1 && starts[..|past|] == past
    requires forall i, j | 0 <= i <= j < |starts| :: starts[i] <= starts[j]
    requires AckStuck(net, ops, from, |past|, past)
    requires since.Some? ==> since.value < |starts|
    requires forall p: nat | p < |past| && AllLed(net, ops, starts[p]) :: since.Some? && since.value <= p + 1
    requires since.Some? && Due(net, before, from, starts[since.value], starts[|past|]) ==> ok
    ensures !ok ==> AckStuck(net, ops, from, |starts|, starts)
  {
    if !ok {
      forall p: nat, q: nat | p < q < |starts|
        ensures !(AllLed(net, ops, starts[p]) && AllRespond(net, ops, from, starts[p + 1], starts[q]))
      {
        assert starts[p] == past[p];
        if q < |past| {
          assert starts[p + 1] == past[p + 1] && starts[q] == past[q];
        } else if AllLed(net, ops, starts[p]) && AllRespond(net, ops, from, starts[p + 1], starts[q]) {
          DueWhenAllRespond(net, ops, before, from, starts[since.value], starts[p + 1], starts[q]);
        }
      }
    }
  }

  /** Each pass began after the one before. */
  ghost predicate Paced(starts: seq<nat>) {
    forall i, j | 0 <= i < j < |starts| :: starts[i] < starts[j]
  }

  lemma PacedStep(starts: seq<nat>, now: nat)
    requires starts != [] && Paced(starts) && starts[|starts| - 1] < now
    ensures Paced(starts + [now])
  {
  }

  lemma PacedPrefix(starts: seq<nat>, now: nat)
    ensures Paced(starts + [now]) ==> Paced(starts)
  {
    if Paced(starts + [now]) {
      forall i, j | 0 <= i < j < |starts|
        ensures starts[i] < starts[j]
      {
        assert (starts + [now])[i] < (starts + [now])[j];
      }
    }
  }

  /** The bookkeeping of the last stage between two passes. */
  ghost predicate Logged(net: Net, ops: seq<ModeOp>, rs: seq<ExecOp>, starts: seq<nat>, since: Option<nat>, from: nat,
                         heard: nat, now: nat)
  {
    && from <= now && Rising(starts, from, now) && Tracked(net, ops, rs, starts, since, heard)
    && (ops != [] ==> Paced(starts + [now]))
  }

  /** What a pass of the last stage adds to the bookkeeping. */
  lemma PassStep(net: Net, ops: seq<ModeOp>, before: seq<ExecOp>, after: seq<ExecOp>, past: seq<nat>, starts: seq<nat>,
                 since0: Option<nat>, since: Option<nat>, heard0: nat, heard: nat, from: nat, now: nat, ok: bool)
    requires |starts| == |past| + 1 && starts == past + [starts[|past|]] && heard0 <= starts[|past|] <= now
    requires Logged(net, ops, before, past, since0, from, heard0, starts[|past|]) && Casts(ops, before)
    requires Rising(starts, from, starts[|past|]) && AckStuck(net, ops, from, |past|, past)
    requires ops != [] ==> starts[|past|] < now
    requires since == if since0.None? && AllListed(before) then Some(|past|) else since0
    requires (forall op | op in before :: op.hasList || Led(net, op.ls, starts[|past|])) ==> AllListed(after)
    requires since.Some? && Armed(net, before, starts[since.value], heard0) ==>
               && Armed(net, after, starts[since.value], heard)
               && (Due(net, before, from, starts[since.value], starts[|past|]) ==> ok)
    ensures Logged(net, ops, after, starts, since, from, heard, now)
    ensures !ok ==> AckStuck(net, ops, from, |starts|, starts)
  {
    TrackStep(net, ops, before, after, past, starts, since0, since, heard0, heard);
    StuckStep(net, ops, before, from, past, starts, since, ok);
    RisingLater(starts, from, starts[|past|], now);
    if ops != [] {
      PacedStep(starts, now);
    }
  }

  /** When the passes of each stage began. */
  datatype Passes = Passes(prepare: seq<nat>, check: seq<nat>, flash: seq<nat>, exec: seq<nat>)

  ghost predicate PassesOk(lsArray: seq<nat>, begun: Passes, tl: Timeline, now: nat) {
    && (forall t | t in begun.prepare :: tl.start <= t <= tl.t1) && (forall t | t in begun.check :: tl.t1 <= t <= tl.t2)
    && (forall t | t in begun.flash :: tl.t2 <= t <= tl.t3) && (forall t | t in begun.exec :: tl.t3 <= t <= now)
    && (lsArray != [] ==> Paced(begun.exec))
  }

  /** Some stage never met what it waits for, early enough before its end. */
  ghost predicate Stuck(net: Net, h: History, lsArray: seq<nat>, scn: nat, passes: seq<nat>, tl: Timeline,
                        made: Operators, begun: Passes)
    requires |passes| == 4
  {
    || ModeStuck(net, lsArray, PREPARE_FLASHBACK, passes[0], begun.prepare)
    || SyncStuck(net, lsArray, scn, tl.t1, passes[1], begun.check)
    || ModeStuck(net, lsArray, FLASHBACK, passes[2], begun.flash)
    || (&& AllInMode(h, lsArray, made.flash, FLASHBACK, tl.l3, tl.t3)
        && AckStuck(net, made.flash, tl.t3, passes[3], begun.exec))
  }

  /** Every command that is due was sent: a leader that answers in another mode is told
      to change at once, a stable leader is asked in every pass, and every listed
      server that has not acknowledged is told to truncate. */
  ghost predicate Drove(net: Net, h: History, sent: set<Cmd>, lsArray: seq<nat>, scn: nat, tl: Timeline,
                        made: Operators, begun: Passes)
  {
    && Commanded(h, sent, PREPARE_FLASHBACK, tl.start, tl.t1) && Commanded(h, sent, FLASHBACK, tl.t2, tl.t3)
    && StableAsked(net, h, lsArray, begun.prepare, tl.t1) && StableAsked(net, h, lsArray, begun.flash, tl.t3)
    && AllRequested(sent, made.exec, scn)
  }

  lemma StableAskedLater(net: Net, h: History, h': History, lsArray: seq<nat>, starts: seq<nat>, now: nat)
    requires StableAsked(net, h, lsArray, starts, now) && h <= h'
    ensures StableAsked(net, h', lsArray, starts, now)
  {
    forall p: nat, q: nat, i: nat, l | p < q < |starts| && i < |lsArray| && Stable(net, lsArray[i], l, starts[p])
      ensures AskedIn(h', i, l, lsArray[i], starts[q], EndOf(starts, q, now))
    {
      var hi := EndOf(starts, q, now);
      assert AskedIn(h, i, l, lsArray[i], starts[q], hi);
      AskedLater(h, h', starts[q], starts[q], hi, hi);
    }
  }

  lemma DroveLater(net: Net, h: History, h': History, sent: set<Cmd>, sent': set<Cmd>, lsArray: seq<nat>, scn: nat,
                   tl: Timeline, made: Operators, begun: Passes)
    requires Drove(net, h, sent, lsArray, scn, tl, made, begun) && Ordered(tl) && After(h, h', tl.t3) && sent <= sent'
    ensures Drove(net, h', sent', lsArray, scn, tl, made, begun)
  {
    StableAskedLater(net, h, h', lsArray, begun.prepare, tl.t1);
    StableAskedLater(net, h, h', lsArray, begun.flash, tl.t3);
    forall op | op in made.exec
      ensures Requested(sent', op, scn)
    {
      assert Requested(sent, op, scn);
      TellsLater(sent, sent', op, scn);
    }
  }

  /** A network in which nothing changes: the leader is in FLASHBACK mode and every
      server in sync, and each listed one acknowledges all the time. */
  ghost predicate Quiet(net: Net, ls: nat, leader: nat, st: Stat, acks: seq<Ack>) {
    && (forall t: nat :: net.leader(t, ls) == Some(leader) && net.acks(t) == acks)
    && (forall t: nat, s: nat :: net.leaderStat(t, s, ls) == if s == leader then Some(st) else None)
    && (forall t: nat, s: nat :: net.stat(t, s, ls) == Some(st))
    && (forall s | s in st.members || s in st.learners :: Has(acks, s, ls, st.version))
    && (forall s | s in st.members :: s !in st.learners)
    && st.mode == FLASHBACK
  }

  ghost predicate Has(acks: seq<Ack>, s: nat, ls: nat, version: nat) {
    exists k | 0 <= k < |acks| :: acks[k] == Ack(s, ls, version, acks[k].scn, true)
  }

  lemma QuietVersion(net: Net, h: History, ls: nat, leader: nat, st: Stat, acks: seq<Ack>, ops: seq<ModeOp>,
                     lo: nat, hi: nat, now: nat)
    requires Quiet(net, ls, leader, st, acks) && Truthful(net, h, now) && AllInMode(h, [ls], ops, FLASHBACK, lo, hi)
    ensures |ops| == 1 && ops[0].ls == ls && ops[0].version == st.version
  {
    var op := ops[0];
    assert InMode(h, op, lo, hi);
    var t: nat, asker: nat, seen: Stat :| LeaderAns(t, asker, op.leader.value, op.ls, seen) in h &&
                                          lo <= t < hi && seen.version == op.version;
    assert True(net, LeaderAns(t, asker, op.leader.value, op.ls, seen));
  }

  lemma QuietResponds(net: Net, ls: nat, leader: nat, st: Stat, acks: seq<Ack>, from: nat, lo: nat, hi: nat)
    requires Quiet(net, ls, leader, st, acks) && lo < hi
    ensures Responds(net, ls, st.version, from, lo, hi)
  {
    forall s | ListedSince(net, ls, s, from)
      ensures AcksIn(net, ls, st.version, s, lo, hi)
    {
      assert Has(acks, s, ls, st.version);
      var k :| 0 <= k < |acks| && acks[k] == Ack(s, ls, st.version, acks[k].scn, true);
      assert Ack(s, ls, st.version, acks[k].scn, true) in net.acks(lo);
    }
  }

  lemma QuietNotStuck(net: Net, h: History, ls: nat, leader: nat, st: Stat, acks: seq<Ack>, scn: nat, tl: Timeline,
                      made: Operators, begun: Passes, now: nat)
    requires Quiet(net, ls, leader, st, acks) && IsSynced(st, scn) && Truthful(net, h, now)
    requires PassesOk([ls], begun, tl, now)
    ensures !Stuck(net, h, [ls], scn, [2, 2, 2, 3], tl, made, begun)
  {
    forall t: nat
      ensures AllReady(net, [ls], scn, tl.t1, t)
    {
      assert ReadyOn(net, ls, leader, scn, tl.t1, t);
    }
    forall t: nat, dst: Mode
      ensures AllSettled(net, [ls], dst, t)
    {
      assert SettledOn(net, ls, leader, dst, t);
    }
    if |begun.prepare| == 2 {
      assert AllSettled(net, [ls], PREPARE_FLASHBACK, begun.prepare[0]);
    }
    if |begun.check| == 2 {
      assert AllReady(net, [ls], scn, tl.t1, begun.check[0]);
    }
    if |begun.flash| == 2 {
      assert AllSettled(net, [ls], FLASHBACK, begun.flash[0]);
    }
    if AllInMode(h, [ls], made.flash, FLASHBACK, tl.l3, tl.t3) && |begun.exec| == 3 {
      QuietVersion(net, h, ls, leader, st, acks, made.flash, tl.l3, tl.t3, now);
      QuietResponds(net, ls, leader, st, acks, tl.t3, begun.exec[1], begun.exec[2]);
      assert Stable(net, ls, leader, begun.exec[0]);
      assert AllLed(net, made.flash, begun.exec[0]);
      assert AllRespond(net, made.flash, tl.t3, begun.exec[0 + 1], begun.exec[2]);
    }
  }

  lemma QuietDone(net: Net, h: History, ls: nat, leader: nat, st: Stat, acks: seq<Ack>, scn: nat, tl: Timeline,
                  made: Operators, now: nat)
    requires Quiet(net, ls, leader, st, acks) && Truthful(net, h, now) && AllDone(h, [ls], scn, tl, made, now)
    ensures |made.exec| == 1 && made.exec[0].ls == ls && made.exec[0].version == st.version
    ensures made.exec[0].members == st.members && made.exec[0].learners == st.learners
  {
    QuietVersion(net, h, ls, leader, st, acks, made.flash, tl.l3, tl.t3, now);
    var op := made.exec[0];
    assert AllAcked(h, 0, op, tl.t3, now);
    var t: nat, s: nat, seen: Stat :| LeaderAns(t, 0, s, ls, seen) in h && tl.t3 <= t < now &&
                                      seen.members == op.members && seen.learners == op.learners;
    assert True(net, LeaderAns(t, 0, s, ls, seen));
  }

  /** A network in which nothing changes, the leader is not in FLASHBACK mode, every
      member ends before the point and every learner lags behind. */
  ghost predicate Behind(net: Net, ls: nat, leader: nat, st: Stat, scn: nat) {
    && (forall t: nat :: net.leader(t, ls) == Some(leader))
    && (forall t: nat, s: nat :: net.leaderStat(t, s, ls) == if s == leader then Some(st) else None)
    && (forall t: nat, s: nat :: net.stat(t, s, ls).Some?)
    && (forall t: nat, s: nat | s in st.members :: ShortAt(net, ls, s, scn, t))
    && (forall t: nat, s: nat | s in st.learners :: !SyncedAt(net, ls, s, scn, t) && !ShortAt(net, ls, s, scn, t))
    && st.mode != FLASHBACK
  }

  lemma BehindNotStuck(net: Net, ls: nat, leader: nat, st: Stat, scn: nat, starts: seq<nat>)
    requires Behind(net, ls, leader, st, scn)
    ensures !SyncStuck(net, [ls], scn, 0, 2, starts)
  {
    if |starts| == 2 {
      forall s, t: nat | s in st.members
        ensures !SyncedAt(net, ls, s, scn, t)
      {
        assert ShortAt(net, ls, s, scn, t);
      }
      assert ShortFrom(net, ls, scn, 0, starts[0]);
      assert ReadyOn(net, ls, leader, scn, 0, starts[0]);
    }
  }

  lemma BehindPassed(net: Net, h: History, ls: nat, leader: nat, st: Stat, scn: nat, ops: seq<CheckOp>, last: nat,
                     now: nat)
    requires Behind(net, ls, leader, st, scn) && Truthful(net, h, now) && AllPassed(h, [ls], ops, scn, 0, last, now)
    ensures |ops| == 1 && ops[0].learners == st.learners
    ensures forall s | s in st.learners :: !Synced(h, ls, s, scn, 0, now) && !Short(h, ls, s, scn, 0, now)
  {
    var op := ops[0];
    assert CheckPassed(h, 0, op, scn, 0, last, now);
    forall t: nat, s: nat, seen: Stat | LeaderAns(t, 0, s, ls, seen) in h
      ensures seen == st
    {
      assert True(net, LeaderAns(t, 0, s, ls, seen));
    }
    forall t: nat, s: nat, seen: Stat | ServerAns(t, s, ls, seen) in h && s in st.learners
      ensures !IsSynced(seen, scn) && !IsShort(seen, scn)
    {
      assert True(net, ServerAns(t, s, ls, seen));
      assert !SyncedAt(net, ls, s, scn, t) && !ShortAt(net, ls, s, scn, t);
    }
  }
}
