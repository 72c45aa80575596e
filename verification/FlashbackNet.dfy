/** What the flashback driver deals with: the answers it receives from other
    servers, and the operators that keep track of them. */
module FlashbackNet {
  import opened Common

  datatype Mode = APPEND | RAW_WRITE | PREPARE_FLASHBACK | FLASHBACK

  datatype Stat = Stat(mode: Mode, version: nat, members: seq<nat>, learners: seq<nat>, endScn: nat, maxScn: nat)

  /** An acknowledgement names the point the server went back to. */
  datatype Ack = Ack(from: nat, ls: nat, version: nat, scn: nat, valid: bool)

  /** Everything the network and the other servers do. The first argument is the
      time of the call: the same question may get different answers later.
      `leaderStat` is answered only by a server that believes it is the leader.
      `acks` are the acknowledgements that arrive at a time. */
  datatype Net = Net(
    leader: (nat, nat) -> Option<nat>,
    leaderStat: (nat, nat, nat) -> Option<Stat>,
    stat: (nat, nat, nat) -> Option<Stat>,
    acks: nat -> seq<Ack>)

  datatype Cmd =
    | ChangeMode(time: nat, to: nat, ls: nat, version: nat, dst: Mode)
    | Truncate(time: nat, to: nat, ls: nat, version: nat, scn: nat)

  datatype Ret = Success | Timeout | OpNotAllow

  /** An answer received: asked as leader by operator number `asker`, asked as any
      server, or an acknowledgement. */
  datatype Obs =
    | LeaderAns(t: nat, asker: nat, s: nat, ls: nat, st: Stat)
    | ServerAns(t: nat, s: nat, ls: nat, st: Stat)
    | AckIn(t: nat, ack: Ack)

  /** All answers received so far. */
  type History = set<Obs>

  /** Each was given by the network, before now. */
  ghost predicate Truthful(net: Net, h: History, now: nat) {
    forall o | o in h :: o.t < now && True(net, o)
  }

  ghost predicate True(net: Net, o: Obs) {
    match o
    case LeaderAns(t, _, s, ls, st) => net.leaderStat(t, s, ls) == Some(st)
    case ServerAns(t, s, ls, st) => net.stat(t, s, ls) == Some(st)
    case AckIn(t, ack) => ack in net.acks(t)
  }

  // One operator per log stream and stage.

  datatype ModeOp = ModeOp(ls: nat, leader: Option<nat>, version: nat, dst: Mode)

  datatype CheckOp = CheckOp(ls: nat, leader: Option<nat>, hasList: bool, members: seq<nat>, learners: seq<nat>,
                             syncMembers: set<nat>, syncLearners: set<nat>)

  datatype ExecOp = ExecOp(ls: nat, leader: Option<nat>, version: nat, hasList: bool, members: seq<nat>,
                           learners: seq<nat>, doneMembers: set<nat>, doneLearners: set<nat>)

  // What was received in [lo, hi).

  predicate GoodMode(st: Stat, dst: Mode) {
    st.mode == dst || st.mode == FLASHBACK
  }

  /** The operator's leader answered, with the operator's version, that it is in the
      mode or already in FLASHBACK. */
  ghost predicate InMode(h: History, op: ModeOp, lo: nat, hi: nat) {
    && op.leader.Some?
    && exists t: nat, asker: nat, st: Stat | LeaderAns(t, asker, op.leader.value, op.ls, st) in h ::
         lo <= t < hi && st.version == op.version && GoodMode(st, op.dst)
  }

  ghost predicate AlreadyFlashback(h: History, asker: nat, ls: nat, lo: nat, hi: nat) {
    exists t: nat, s: nat, st: Stat | LeaderAns(t, asker, s, ls, st) in h :: lo <= t < hi && st.mode == FLASHBACK
  }

  /** The lists are those of the last answer operator `asker` got from a leader, and it
      got that answer in [lo, hi). */
  ghost predicate Current(h: History, asker: nat, ls: nat, members: seq<nat>, learners: seq<nat>, lo: nat, hi: nat) {
    exists t: nat, s: nat, st: Stat | LeaderAns(t, asker, s, ls, st) in h ::
      lo <= t < hi && st.members == members && st.learners == learners && LastAsked(h, asker, lo, hi, t)
  }

  ghost predicate LastAsked(h: History, asker: nat, lo: nat, hi: nat, t: nat) {
    forall o | o in h && o.LeaderAns? && o.asker == asker && lo <= o.t < hi :: o.t <= t
  }

  predicate IsSynced(st: Stat, scn: nat) {
    st.endScn >= st.maxScn && st.endScn >= scn
  }

  predicate IsShort(st: Stat, scn: nat) {
    st.endScn >= st.maxScn && st.endScn < scn
  }

  /** The server had committed all it holds, up to the flashback point or more. */
  ghost predicate Synced(h: History, ls: nat, s: nat, scn: nat, lo: nat, hi: nat) {
    exists t: nat, st: Stat | ServerAns(t, s, ls, st) in h :: lo <= t < hi && IsSynced(st, scn)
  }

  /** The server had committed all it holds, and it ends before the flashback point. */
  ghost predicate Short(h: History, ls: nat, s: nat, scn: nat, lo: nat, hi: nat) {
    exists t: nat, st: Stat | ServerAns(t, s, ls, st) in h :: lo <= t < hi && IsShort(st, scn)
  }

  /** The server acknowledged the version, for whatever point. */
  ghost predicate AckedBy(h: History, ls: nat, version: nat, s: nat, lo: nat, hi: nat) {
    exists t: nat, scn: nat | AckIn(t, Ack(s, ls, version, scn, true)) in h :: lo <= t < hi
  }

  lemma InModeLater(h: History, h': History, op: ModeOp, lo': nat, lo: nat, hi: nat, hi': nat)
    requires InMode(h, op, lo, hi) && h <= h' && lo' <= lo && hi <= hi'
    ensures InMode(h', op, lo', hi')
  {
    var t: nat, asker: nat, st: Stat :| LeaderAns(t, asker, op.leader.value, op.ls, st) in h &&
                                     lo <= t < hi && st.version == op.version && GoodMode(st, op.dst);
    assert LeaderAns(t, asker, op.leader.value, op.ls, st) in h';
  }

  ghost predicate InModes(h: History, ops: seq<ModeOp>, lo: nat, hi: nat) {
    forall i | 0 <= i < |ops| :: InMode(h, ops[i], lo, hi)
  }

  lemma InModesStep(h: History, h': History, ops: seq<ModeOp>, op: ModeOp, lo: nat, mid: nat, hi: nat)
    requires InModes(h, ops, lo, mid) && InMode(h', op, mid, hi) && h <= h' && lo <= mid <= hi
    ensures InModes(h', ops + [op], lo, hi)
  {
    forall i | 0 <= i < |ops|
      ensures InMode(h', ops[i], lo, hi)
    {
      InModeLater(h, h', ops[i], lo, lo, mid, hi);
    }
    InModeLater(h', h', op, lo, mid, hi, hi);
  }

  lemma FlashbackLater(h: History, h': History, asker: nat, ls: nat, lo': nat, lo: nat, hi: nat, hi': nat)
    requires AlreadyFlashback(h, asker, ls, lo, hi) && h <= h' && lo' <= lo && hi <= hi'
    ensures AlreadyFlashback(h', asker, ls, lo', hi')
  {
    var t: nat, s: nat, st: Stat :| LeaderAns(t, asker, s, ls, st) in h && lo <= t < hi && st.mode == FLASHBACK;
    assert LeaderAns(t, asker, s, ls, st) in h';
  }

  ghost predicate Before(h: History, hi: nat) {
    forall o | o in h :: o.t < hi
  }

  /** Only answers from time t on were added. */
  ghost predicate After(h: History, h': History, t: nat) {
    h <= h' && forall o | o in h' && o !in h :: t <= o.t
  }

  /** And no leader was asked. */
  ghost predicate NoLeaderAsked(h: History, h': History, t: nat) {
    After(h, h', t) && forall o | o in h' && o !in h :: !o.LeaderAns?
  }

  /** Others' questions do not make an operator's lists out of date. */
  ghost predicate NotAsked(h: History, h': History, asker: nat) {
    h <= h' && forall o | o in h' && o !in h && o.LeaderAns? :: o.asker != asker
  }

  lemma CurrentLater(h: History, h': History, asker: nat, ls: nat, members: seq<nat>, learners: seq<nat>,
                     lo: nat, hi: nat, hi': nat)
    requires Current(h, asker, ls, members, learners, lo, hi) && NotAsked(h, h', asker) && Before(h, hi) && hi <= hi'
    ensures Current(h', asker, ls, members, learners, lo, hi')
  {
    var t: nat, s: nat, st: Stat :| LeaderAns(t, asker, s, ls, st) in h && lo <= t < hi && st.members == members &&
                                    st.learners == learners && LastAsked(h, asker, lo, hi, t);
    assert LeaderAns(t, asker, s, ls, st) in h' && LastAsked(h', asker, lo, hi', t);
  }

  /** Later answers leave what was current in [lo, hi) as it was. */
  lemma CurrentStays(h: History, h': History, asker: nat, ls: nat, members: seq<nat>, learners: seq<nat>,
                     lo: nat, hi: nat)
    requires Current(h, asker, ls, members, learners, lo, hi) && After(h, h', hi)
    ensures Current(h', asker, ls, members, learners, lo, hi)
  {
    var t: nat, s: nat, st: Stat :| LeaderAns(t, asker, s, ls, st) in h && lo <= t < hi && st.members == members &&
                                    st.learners == learners && LastAsked(h, asker, lo, hi, t);
    assert LeaderAns(t, asker, s, ls, st) in h' && LastAsked(h', asker, lo, hi, t);
  }

  lemma SyncedLater(h: History, h': History, ls: nat, scn: nat, lo': nat, lo: nat, hi: nat, hi': nat)
    requires h <= h' && lo' <= lo && hi <= hi'
    ensures forall s: nat | Synced(h, ls, s, scn, lo, hi) :: Synced(h', ls, s, scn, lo', hi')
    ensures forall s: nat | Short(h, ls, s, scn, lo, hi) :: Short(h', ls, s, scn, lo', hi')
  {
    forall s: nat | Synced(h, ls, s, scn, lo, hi)
      ensures Synced(h', ls, s, scn, lo', hi')
    {
      var t: nat, st: Stat :| ServerAns(t, s, ls, st) in h && lo <= t < hi && IsSynced(st, scn);
      assert ServerAns(t, s, ls, st) in h';
    }
    forall s: nat | Short(h, ls, s, scn, lo, hi)
      ensures Short(h', ls, s, scn, lo', hi')
    {
      var t: nat, st: Stat :| ServerAns(t, s, ls, st) in h && lo <= t < hi && IsShort(st, scn);
      assert ServerAns(t, s, ls, st) in h';
    }
  }

  lemma AckedLater(h: History, h': History, ls: nat, version: nat, s: nat, lo: nat, hi: nat, hi': nat)
    requires AckedBy(h, ls, version, s, lo, hi) && h <= h' && hi <= hi'
    ensures AckedBy(h', ls, version, s, lo, hi')
  {
    var t: nat, scn: nat :| AckIn(t, Ack(s, ls, version, scn, true)) in h && lo <= t < hi;
    assert AckIn(t, Ack(s, ls, version, scn, true)) in h';
  }

  // Stage 2.

  ghost predicate CheckInv(h: History, asker: nat, op: CheckOp, scn: nat, from: nat, now: nat) {
    && (op.hasList ==> Current(h, asker, op.ls, op.members, op.learners, from, now))
    && (forall s | s in op.syncMembers :: Synced(h, op.ls, s, scn, from, now))
    && (forall s | s in op.syncLearners :: Synced(h, op.ls, s, scn, from, now))
  }

  ghost predicate CheckInvs(h: History, ops: seq<CheckOp>, scn: nat, from: nat, now: nat) {
    forall i | 0 <= i < |ops| :: CheckInv(h, i, ops[i], scn, from, now)
  }

  /** Some member on the operator's list has reached the flashback point. */
  predicate SomeReached(op: CheckOp) {
    exists s | s in op.members :: s in op.syncMembers
  }

  /** The check passed: in this pass the leader answered that it is in FLASHBACK
      mode; or, for the operator's own lists, the last it received: if some member
      has reached the point, every member and every learner has been seen in sync
      since the stage began, and if none has, every member was seen short in this
      pass, whatever the learners. */
  ghost predicate CheckPassed(h: History, asker: nat, op: CheckOp, scn: nat, from: nat, pass: nat, now: nat) {
    || AlreadyFlashback(h, asker, op.ls, pass, now)
    || (&& Current(h, asker, op.ls, op.members, op.learners, from, now)
        && if SomeReached(op)
           then forall s | s in op.members || s in op.learners :: Synced(h, op.ls, s, scn, from, now)
           else forall s | s in op.members :: Short(h, op.ls, s, scn, pass, now))
  }

  lemma CheckInvLater(h: History, h': History, asker: nat, op: CheckOp, scn: nat, from: nat, now: nat, now': nat)
    requires CheckInv(h, asker, op, scn, from, now) && NotAsked(h, h', asker) && Before(h, now) && now <= now'
    ensures CheckInv(h', asker, op, scn, from, now')
  {
    SyncedLater(h, h', op.ls, scn, from, from, now, now');
    if op.hasList {
      CurrentLater(h, h', asker, op.ls, op.members, op.learners, from, now, now');
    }
  }

  lemma PassedLater(h: History, h': History, asker: nat, op: CheckOp, scn: nat, from: nat, pass': nat, pass: nat,
                    now: nat, now': nat)
    requires CheckPassed(h, asker, op, scn, from, pass, now) && NotAsked(h, h', asker) && Before(h, now)
    requires pass' <= pass && now <= now'
    ensures CheckPassed(h', asker, op, scn, from, pass', now')
  {
    if AlreadyFlashback(h, asker, op.ls, pass, now) {
      FlashbackLater(h, h', asker, op.ls, pass', pass, now, now');
    } else {
      CurrentLater(h, h', asker, op.ls, op.members, op.learners, from, now, now');
      SyncedLater(h, h', op.ls, scn, from, from, now, now');
      SyncedLater(h, h', op.ls, scn, pass', pass, now, now');
    }
  }

  // Stage 4.

  predicate Matches(op: ExecOp, ack: Ack) {
    ack.ls == op.ls && ack.version == op.version
  }

  predicate FirstMatch(ops: seq<ExecOp>, ack: Ack, k: int)
    requires 0 <= k < |ops|
  {
    Matches(ops[k], ack) && forall j | 0 <= j < k :: !Matches(ops[j], ack)
  }

  /** ExecuteFlashbackOperator::handle_flashback_resp: the point is not looked at. */
  function Accept(op: ExecOp, ack: Ack): ExecOp {
    if !op.hasList || !ack.valid then op
    else if ack.from in op.members then op.(doneMembers := op.doneMembers + {ack.from})
    else if ack.from in op.learners then op.(doneLearners := op.doneLearners + {ack.from})
    else op
  }

  /** The first operator of the log stream and version takes the acknowledgement. */
  ghost predicate Took(ops: seq<ExecOp>, rs: seq<ExecOp>, ack: Ack) {
    && |rs| == |ops|
    && forall k | 0 <= k < |rs| :: rs[k] == if FirstMatch(ops, ack, k) then Accept(ops[k], ack) else ops[k]
  }

  ghost predicate ExecInv(h: History, asker: nat, op: ExecOp, from: nat, now: nat) {
    && (op.leader.Some? <==> op.hasList)
    && (op.hasList ==> Current(h, asker, op.ls, op.members, op.learners, from, now))
    && (!op.hasList ==> op.doneMembers == {} && op.doneLearners == {})
    && (forall s | s in op.doneMembers :: AckedBy(h, op.ls, op.version, s, from, now))
    && (forall s | s in op.doneLearners :: AckedBy(h, op.ls, op.version, s, from, now))
  }

  ghost predicate ExecInvs(h: History, ops: seq<ExecOp>, from: nat, now: nat) {
    forall i | 0 <= i < |ops| :: ExecInv(h, i, ops[i], from, now)
  }

  /** Only acknowledgements were added. */
  ghost predicate Grew(op: ExecOp, r: ExecOp) {
    && op.doneMembers <= r.doneMembers && op.doneLearners <= r.doneLearners
    && r == op.(doneMembers := r.doneMembers, doneLearners := r.doneLearners)
  }

  ghost predicate Counted(op: ExecOp, ack: Ack) {
    op.hasList && ack.valid ==>
      && (ack.from in op.members ==> ack.from in op.doneMembers)
      && (ack.from !in op.members && ack.from in op.learners ==> ack.from in op.doneLearners)
  }

  lemma ExecInvLater(h: History, h': History, asker: nat, op: ExecOp, from: nat, now: nat, now': nat)
    requires ExecInv(h, asker, op, from, now) && NotAsked(h, h', asker) && Before(h, now) && now <= now'
    ensures ExecInv(h', asker, op, from, now')
  {
    if op.hasList {
      CurrentLater(h, h', asker, op.ls, op.members, op.learners, from, now, now');
    }
    forall s | s in op.doneMembers || s in op.doneLearners
      ensures AckedBy(h', op.ls, op.version, s, from, now')
    {
      AckedLater(h, h', op.ls, op.version, s, from, now, now');
    }
  }

  lemma ExecInvsLater(h: History, h': History, ops: seq<ExecOp>, from: nat, now: nat, now': nat)
    requires now <= now' && Before(h, now) && ExecInvs(h, ops, from, now)
    requires h <= h' && forall o | o in h' && o !in h :: !o.LeaderAns?
    ensures ExecInvs(h', ops, from, now')
  {
    forall i | 0 <= i < |ops|
      ensures ExecInv(h', i, ops[i], from, now')
    {
      ExecInvLater(h, h', i, ops[i], from, now, now');
    }
  }

  /** What operator number i asks leaves the other operators as they were. */
  lemma OthersKept(h: History, h': History, ops: seq<ExecOp>, i: nat, from: nat, now: nat, now': nat)
    requires now <= now' && Before(h, now) && ExecInvs(h, ops, from, now)
    requires h <= h' && forall o | o in h' && o !in h && o.LeaderAns? :: o.asker == i
    ensures forall k | 0 <= k < |ops| && k != i :: ExecInv(h', k, ops[k], from, now')
  {
    forall k | 0 <= k < |ops| && k != i
      ensures ExecInv(h', k, ops[k], from, now')
    {
      ExecInvLater(h, h', k, ops[k], from, now, now');
    }
  }

  lemma AcceptInv(h: History, asker: nat, op: ExecOp, ack: Ack, from: nat, t: nat, now: nat)
    requires ExecInv(h, asker, op, from, now) && from <= t < now && AckIn(t, ack) in h
    ensures Grew(op, Accept(op, ack)) && Grew(op, op)
    ensures Matches(op, ack) ==> ExecInv(h, asker, Accept(op, ack), from, now) && Counted(Accept(op, ack), ack)
  {
    if Matches(op, ack) && ack.valid {
      assert ack == Ack(ack.from, op.ls, op.version, ack.scn, true);
      assert AckedBy(h, op.ls, op.version, ack.from, from, now);
    }
  }

  /** A truncation request of this operator, to this flashback point. */
  ghost predicate Asks(c: Cmd, op: ExecOp, scn: nat) {
    c.Truncate? && c.ls == op.ls && c.version == op.version && c.scn == scn
  }

  /** The server has been sent the operator's truncation request. */
  ghost predicate Told(sent: set<Cmd>, op: ExecOp, s: nat, scn: nat) {
    exists c | c in sent :: Asks(c, op, scn) && c.to == s
  }

  /** Every listed server that has not acknowledged has. */
  ghost predicate Requested(sent: set<Cmd>, op: ExecOp, scn: nat) {
    op.hasList ==>
      forall s | (s in op.members && s !in op.doneMembers) || (s in op.learners && s !in op.doneLearners) ::
        Told(sent, op, s, scn)
  }

  ghost predicate AllRequested(sent: set<Cmd>, ops: seq<ExecOp>, scn: nat) {
    forall op | op in ops :: Requested(sent, op, scn)
  }

  lemma TellsLater(sent: set<Cmd>, sent': set<Cmd>, op: ExecOp, scn: nat)
    requires sent <= sent'
    ensures forall s | Told(sent, op, s, scn) :: Told(sent', op, s, scn)
  {
  }

  lemma RequestedLater(sent: set<Cmd>, sent': set<Cmd>, ops: seq<ExecOp>, rs: seq<ExecOp>, scn: nat)
    requires sent <= sent' && AllRequested(sent, ops, scn) && |rs| == |ops|
    requires forall k | 0 <= k < |ops| :: Grew(ops[k], rs[k])
    ensures AllRequested(sent', rs, scn)
  {
    forall k | 0 <= k < |rs|
      ensures Requested(sent', rs[k], scn)
    {
      assert ops[k] in ops && Grew(ops[k], rs[k]);
      TellsLater(sent, sent', ops[k], scn);
      TellsSame(sent', ops[k], rs[k], scn);
    }
  }

  lemma TellsSame(sent: set<Cmd>, op: ExecOp, r: ExecOp, scn: nat)
    requires SameTarget(op, r)
    ensures forall s | Told(sent, op, s, scn) :: Told(sent, r, s, scn)
  {
    forall s | Told(sent, op, s, scn)
      ensures Told(sent, r, s, scn)
    {
      var c :| c in sent && Asks(c, op, scn) && c.to == s;
      assert Asks(c, r, scn);
    }
  }

  ghost predicate Complete(op: ExecOp) {
    && op.hasList
    && (forall s | s in op.members :: s in op.doneMembers)
    && (forall s | s in op.learners :: s in op.doneLearners)
  }

  ghost predicate SameTarget(op: ExecOp, r: ExecOp) {
    r.ls == op.ls && r.version == op.version
  }

  ghost predicate SameTargets(ops: seq<ExecOp>, rs: seq<ExecOp>) {
    |rs| == |ops| && forall k | 0 <= k < |ops| :: SameTarget(ops[k], rs[k])
  }

  ghost predicate AskedFor(c: Cmd, ops: seq<ExecOp>, scn: nat) {
    exists op | op in ops :: Asks(c, op, scn)
  }

  ghost predicate AskedForMode(c: Cmd, ops: seq<ModeOp>, scn: nat) {
    c.Truncate? && c.scn == scn && exists op | op in ops :: c.ls == op.ls && c.version == op.version
  }

  function Cast(ops: seq<ModeOp>): seq<ExecOp> {
    seq(|ops|, i requires 0 <= i < |ops| => ExecOp(ops[i].ls, None, ops[i].version, false, [], [], {}, {}))
  }

  ghost predicate Casts(ops: seq<ModeOp>, rs: seq<ExecOp>) {
    |rs| == |ops| && forall k | 0 <= k < |ops| :: rs[k].ls == ops[k].ls && rs[k].version == ops[k].version
  }

  lemma AskedForSame(ops: seq<ModeOp>, rs: seq<ExecOp>, scn: nat)
    requires Casts(ops, rs)
    ensures forall c | AskedFor(c, rs, scn) :: AskedForMode(c, ops, scn)
  {
    forall c | AskedFor(c, rs, scn)
      ensures AskedForMode(c, ops, scn)
    {
      var op :| op in rs && Asks(c, op, scn);
      var k :| 0 <= k < |rs| && rs[k] == op;
      assert ops[k] in ops;
    }
  }

  /** Every member and learner on the operator's list, the last it received,
      acknowledged its version in the stage. */
  ghost predicate AllAcked(h: History, asker: nat, op: ExecOp, from: nat, now: nat) {
    && Current(h, asker, op.ls, op.members, op.learners, from, now)
    && forall s | s in op.members || s in op.learners :: AckedBy(h, op.ls, op.version, s, from, now)
  }

  lemma CompleteIsAcked(h: History, ops: seq<ExecOp>, from: nat, now: nat)
    requires ExecInvs(h, ops, from, now)
    ensures forall i | 0 <= i < |ops| && Complete(ops[i]) :: AllAcked(h, i, ops[i], from, now)
  {
  }

  // The point of an acknowledgement.

  /** The server acknowledged this point. */
  ghost predicate AckedPoint(h: History, ls: nat, version: nat, s: nat, scn: nat, lo: nat, hi: nat) {
    exists t: nat | AckIn(t, Ack(s, ls, version, scn, true)) in h :: lo <= t < hi
  }

  ghost predicate AllAckedPoint(h: History, op: ExecOp, scn: nat, lo: nat, hi: nat) {
    forall s | s in op.members || s in op.learners :: AckedPoint(h, op.ls, op.version, s, scn, lo, hi)
  }

  /** No acknowledgement of the stream and version for another point came in. */
  ghost predicate OnlyThisPoint(h: History, ls: nat, version: nat, scn: nat, lo: nat, hi: nat) {
    forall o | o in h && o.AckIn? && lo <= o.t < hi && o.ack.ls == ls && o.ack.version == version && o.ack.valid ::
      o.ack.scn == scn
  }

  /** Success means that every listed server went back to this very point, provided
      no acknowledgement for another point came in. */
  lemma PointIsAcked(h: History, asker: nat, op: ExecOp, scn: nat, from: nat, now: nat)
    requires AllAcked(h, asker, op, from, now) && OnlyThisPoint(h, op.ls, op.version, scn, from, now)
    ensures AllAckedPoint(h, op, scn, from, now)
  {
    forall s | s in op.members || s in op.learners
      ensures AckedPoint(h, op.ls, op.version, s, scn, from, now)
    {
      assert AckedBy(h, op.ls, op.version, s, from, now);
      var t: nat, point: nat :| AckIn(t, Ack(s, op.ls, op.version, point, true)) in h && from <= t < now;
      assert AckIn(t, Ack(s, op.ls, op.version, point, true)).ack.scn == scn;
    }
  }

  // The whole flashback.

  /** When the stages ended (t1, t2, t3), and when the last pass of each began. */
  datatype Timeline = Timeline(start: nat, l1: nat, t1: nat, l2: nat, t2: nat, l3: nat, t3: nat)

  ghost predicate Ordered(tl: Timeline) {
    tl.start <= tl.l1 <= tl.t1 <= tl.l2 <= tl.t2 <= tl.l3 <= tl.t3
  }

  /** The operators of the stages, as they were left. */
  datatype Operators = Operators(prepare: seq<ModeOp>, check: seq<CheckOp>, flash: seq<ModeOp>, exec: seq<ExecOp>)

  ghost predicate AllInMode(h: History, lsArray: seq<nat>, ops: seq<ModeOp>, dst: Mode, lo: nat, hi: nat) {
    && |ops| == |lsArray|
    && forall i | 0 <= i < |ops| :: ops[i].ls == lsArray[i] && ops[i].dst == dst && InMode(h, ops[i], lo, hi)
  }

  ghost predicate AllPassed(h: History, lsArray: seq<nat>, ops: seq<CheckOp>, scn: nat, from: nat, pass: nat,
                            now: nat)
  {
    && |ops| == |lsArray|
    && forall i | 0 <= i < |ops| :: ops[i].ls == lsArray[i] && CheckPassed(h, i, ops[i], scn, from, pass, now)
  }

  /** Every log stream was in PREPARE_FLASHBACK mode in the last pass of stage 1, and
      then passed the check of stage 2. */
  ghost predicate Stopped(h: History, lsArray: seq<nat>, scn: nat, tl: Timeline, made: Operators) {
    && AllInMode(h, lsArray, made.prepare, PREPARE_FLASHBACK, tl.l1, tl.t1)
    && AllPassed(h, lsArray, made.check, scn, tl.t1, tl.l2, tl.t2)
  }

  ghost predicate AllDone(h: History, lsArray: seq<nat>, scn: nat, tl: Timeline, made: Operators, now: nat) {
    && Stopped(h, lsArray, scn, tl, made)
    && AllInMode(h, lsArray, made.flash, FLASHBACK, tl.l3, tl.t3)
    && Casts(made.flash, made.exec)
    && forall i | 0 <= i < |made.exec| :: AllAcked(h, i, made.exec[i], tl.t3, now)
  }

  /** A mode command is sent with the version its leader has just reported, to a
      leader in neither the wanted mode nor FLASHBACK. */
  ghost predicate Justified(h: History, c: Cmd, dst: Mode) {
    && c.ChangeMode? && c.dst == dst
    && exists t: nat, asker: nat, st: Stat | LeaderAns(t, asker, c.to, c.ls, st) in h ::
         c.time == t + 1 && st.version == c.version && !GoodMode(st, dst)
  }

  /** Every answer of a leader in neither the mode nor FLASHBACK, received in
      [lo, hi), was followed at once by the command to change, at the version answered. */
  ghost predicate Commanded(h: History, sent: set<Cmd>, dst: Mode, lo: nat, hi: nat) {
    forall o | o in h && o.LeaderAns? && lo <= o.t < hi && o.st.mode != dst && o.st.mode != FLASHBACK ::
      ChangeMode(o.t + 1, o.s, o.ls, o.st.version, dst) in sent
  }

  lemma JustifiedLater(h: History, h': History, c: Cmd, dst: Mode)
    requires Justified(h, c, dst) && h <= h'
    ensures Justified(h', c, dst)
  {
    var t: nat, asker: nat, st: Stat :| LeaderAns(t, asker, c.to, c.ls, st) in h && c.time == t + 1 &&
                                        st.version == c.version && !GoodMode(st, dst);
    assert LeaderAns(t, asker, c.to, c.ls, st) in h';
  }

  /** Leader s answered st at time t: it is done in the wanted mode or in FLASHBACK, and
      otherwise told to change at the version it answered. */
  ghost predicate Answered(i: nat, op: ModeOp, r: ModeOp, ok: bool, s: nat, t: nat, st: Stat, h: History, h': History,
                           sent: set<Cmd>, sent': set<Cmd>)
  {
    && r == op.(leader := Some(s), version := st.version)
    && h' == h + {LeaderAns(t, i, s, op.ls, st)}
    && (ok <==> st.mode == op.dst || st.mode == FLASHBACK)
    && sent' == sent + if ok then {} else {ChangeMode(t + 1, s, op.ls, st.version, op.dst)}
  }

  ghost predicate Unanswered(op: ModeOp, r: ModeOp, ok: bool, h: History, h': History, sent: set<Cmd>, sent': set<Cmd>)
  {
    r == op.(leader := None) && !ok && h' == h && sent' == sent
  }

  /** The mode commands sent in [lo, now) are exactly those the answers call for. */
  ghost predicate Sends(h: History, sent: set<Cmd>, sent': set<Cmd>, dst: Mode, lo: nat, now: nat) {
    && sent <= sent' && Commanded(h, sent', dst, lo, now)
    && forall c | c in sent' && c !in sent :: Justified(h, c, dst) && lo <= c.time
  }

  lemma SendsStep(h: History, h': History, s0: set<Cmd>, s1: set<Cmd>, s2: set<Cmd>, dst: Mode, lo: nat, mid: nat,
                  now: nat)
    requires Sends(h, s0, s1, dst, lo, mid) && Sends(h', s1, s2, dst, mid, now) && After(h, h', mid) && lo <= mid <= now
    ensures Sends(h', s0, s2, dst, lo, now)
  {
    forall c | c in s2 && c !in s0
      ensures Justified(h', c, dst) && lo <= c.time
    {
      if c in s1 {
        JustifiedLater(h, h', c, dst);
      }
    }
  }

  /** Later answers and commands leave it as it was. */
  lemma SendsLater(h: History, h': History, sent: set<Cmd>, s1: set<Cmd>, dst: Mode, lo: nat, now: nat)
    requires Sends(h, sent, s1, dst, lo, now) && After(h, h', now)
    ensures Sends(h', sent, s1, dst, lo, now)
  {
    forall c | c in s1 && c !in sent
      ensures Justified(h', c, dst)
    {
      JustifiedLater(h, h', c, dst);
    }
  }

  /** What every command sent depends on, whether or not the run succeeds: no
      log stream is moved to FLASHBACK mode before all of them are stopped and in
      sync, and no replica truncates before all of them are in FLASHBACK mode. */
  ghost predicate CmdSafe(h: History, c: Cmd, lsArray: seq<nat>, scn: nat, tl: Timeline, made: Operators) {
    && (c.ChangeMode? ==> Justified(h, c, PREPARE_FLASHBACK) || Justified(h, c, FLASHBACK))
    && (c.Truncate? || c.dst == FLASHBACK ==>
          tl.t2 <= c.time && Stopped(h, lsArray, scn, tl, made))
    && (c.Truncate? ==>
          && tl.t3 <= c.time && AskedForMode(c, made.flash, scn)
          && AllInMode(h, lsArray, made.flash, FLASHBACK, tl.l3, tl.t3))
  }

  lemma AllInModeLater(h: History, h': History, lsArray: seq<nat>, ops: seq<ModeOp>, dst: Mode, lo: nat, hi: nat)
    requires AllInMode(h, lsArray, ops, dst, lo, hi) && h <= h'
    ensures AllInMode(h', lsArray, ops, dst, lo, hi)
  {
    forall i | 0 <= i < |ops|
      ensures InMode(h', ops[i], lo, hi)
    {
      InModeLater(h, h', ops[i], lo, lo, hi, hi);
    }
  }

  lemma AllPassedLater(h: History, h': History, lsArray: seq<nat>, ops: seq<CheckOp>, scn: nat, from: nat, pass: nat,
                       now: nat)
    requires AllPassed(h, lsArray, ops, scn, from, pass, now) && After(h, h', now)
    ensures AllPassed(h', lsArray, ops, scn, from, pass, now)
  {
    forall i | 0 <= i < |ops|
      ensures CheckPassed(h', i, ops[i], scn, from, pass, now)
    {
      var op := ops[i];
      assert CheckPassed(h, i, op, scn, from, pass, now);
      if AlreadyFlashback(h, i, op.ls, pass, now) {
        FlashbackLater(h, h', i, op.ls, pass, pass, now, now);
      } else {
        CurrentStays(h, h', i, op.ls, op.members, op.learners, from, now);
        SyncedLater(h, h', op.ls, scn, from, from, now, now);
        SyncedLater(h, h', op.ls, scn, pass, pass, now, now);
      }
    }
  }

  lemma StoppedLater(h: History, h': History, lsArray: seq<nat>, scn: nat, tl: Timeline, made: Operators)
    requires Stopped(h, lsArray, scn, tl, made) && After(h, h', tl.t2)
    ensures Stopped(h', lsArray, scn, tl, made)
  {
    AllInModeLater(h, h', lsArray, made.prepare, PREPARE_FLASHBACK, tl.l1, tl.t1);
    AllPassedLater(h, h', lsArray, made.check, scn, tl.t1, tl.l2, tl.t2);
  }

  /** A successful flashback: where no acknowledgement of a log stream's version for
      another point came in, every server on its lists acknowledged this point. */
  lemma DoneAtPoint(h: History, lsArray: seq<nat>, scn: nat, tl: Timeline, made: Operators, now: nat)
    requires AllDone(h, lsArray, scn, tl, made, now)
    ensures |made.exec| == |lsArray|
    ensures forall i | 0 <= i < |lsArray| && OnlyThisPoint(h, lsArray[i], made.exec[i].version, scn, tl.t3, now) ::
              AllAckedPoint(h, made.exec[i], scn, tl.t3, now)
  {
    forall i | 0 <= i < |lsArray| && OnlyThisPoint(h, lsArray[i], made.exec[i].version, scn, tl.t3, now)
      ensures AllAckedPoint(h, made.exec[i], scn, tl.t3, now)
    {
      PointIsAcked(h, i, made.exec[i], scn, tl.t3, now);
    }
  }
}
