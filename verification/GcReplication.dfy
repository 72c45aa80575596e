/** The GC state of a log stream over all its replicas. A leader appends GC logs
    and applies them on the commit callback; every replica replays the stream,
    in order but with redelivery; roles change and replicas restart at any time. */
module GcReplication {
  import opened Common
  import opened GcHandler

  /** Passing the check for WAIT_GC, with the SCNs compared. */
  datatype Gate = Gate(offline: nat, env: Env)

  /** `applied` logs of the stream are applied; `pending` is the index of a log
      of its own whose callback is outstanding. `gate` remembers the last check
      passed, and `deletes` that the status entry is about to be deleted. */
  datatype Replica = Replica(meta: LsMeta, applied: nat, pending: Option<nat>, gate: Option<Gate>, deletes: bool)

  datatype System = System(stream: seq<Log>, leader: Option<nat>, replicas: map<nat, Replica>)

  datatype Action =
    | BecomeLeader(r: nat)
    | LoseLeader
    | Append(r: nat, kind: LogKind, scn: nat)
    | CallbackSuccess(r: nat, ok: bool)
    | CallbackFailure(r: nat)
    | Replay(r: nat, index: nat, ok: bool)
    | Restart(r: nat, checkpoint: nat)
    | Check(r: nat, env: Env) // a GC round of a replica whom palf calls LEADER
    | DeleteEntry(r: nat)

  /** The log a leader in this state appends. */
  predicate Submits(state: GcState, kind: LogKind) {
    match kind
    case BLOCK_TABLET_TRANSFER_IN => !BlockedFinished(state)
    case OFFLINE_LS => BlockedFinished(state) && !OfflineFinished(state)
  }

  /** Logs get growing SCNs. */
  predicate Newer(stream: seq<Log>, scn: nat) {
    stream != [] ==> stream[|stream| - 1].scn < scn
  }

  predicate Enabled(s: System, a: Action) {
    if a.LoseLeader? then true
    else
      && a.r in s.replicas
      && var x := s.replicas[a.r];
      match a
      // the role changes only after everything has been replayed
      case BecomeLeader(r) => x.pending.None? && x.applied == |s.stream|
      case Append(r, kind, scn) =>
        s.leader == Some(r) && x.pending.None? && Submits(x.meta.state, kind) && Newer(s.stream, scn)
      case CallbackSuccess(_, _) => x.pending.Some? && x.pending.value < |s.stream|
      case CallbackFailure(_) => x.pending.Some?
      // a handler waiting for its callback holds the lock replay needs
      case Replay(_, index, _) => x.pending.None? && index < |s.stream| && index <= x.applied
      case Restart(_, checkpoint) => checkpoint <= x.applied
      case Check(_, _) => x.pending.None? && OfflineFinished(x.meta.state)
      case DeleteEntry(_) => x.deletes
  }

  function Max(a: nat, b: nat): nat {
    if a < b then b else a
  }

  function Without(leader: Option<nat>, r: nat): Option<nat> {
    if leader == Some(r) then None else leader
  }

  /** A GC round of a replica that is offline or waiting for GC. */
  function AfterRound(x: Replica, env: Env): Replica {
    if x.meta.state == WAIT_GC then x.(deletes := true)
    else if x.meta.offlineScn.Some? && MayDelete(x.meta.offlineScn.value, env)
    then x.(meta := AfterCheck(x.meta, env), gate := Some(Gate(x.meta.offlineScn.value, env)), deletes := true)
    else x
  }

  function Do(s: System, a: Action): System
    requires Enabled(s, a)
  {
    match a
    case LoseLeader => s.(leader := None)
    case BecomeLeader(r) => s.(leader := Some(r))
    case Append(r, kind, scn) =>
      s.(stream := s.stream + [Log(kind, scn)],
         replicas := s.replicas[r := s.replicas[r].(pending := Some(|s.stream|))])
    case CallbackSuccess(r, ok) =>
      var x := s.replicas[r];
      var meta := ApplyLog(x.meta, s.stream[x.pending.value], ok);
      s.(replicas := s.replicas[r := x.(meta := meta, applied := Max(x.applied, x.pending.value + 1), pending := None)])
    case CallbackFailure(r) =>
      s.(leader := Without(s.leader, r), replicas := s.replicas[r := s.replicas[r].(pending := None)])
    case Replay(r, index, ok) =>
      var x := s.replicas[r];
      var meta := ApplyLog(x.meta, s.stream[index], ok);
      s.(replicas := s.replicas[r := x.(meta := meta, applied := Max(x.applied, index + 1))])
    case Restart(r, checkpoint) =>
      var x := s.replicas[r];
      s.(leader := Without(s.leader, r),
         replicas := s.replicas[r := x.(applied := checkpoint, pending := None, deletes := false)])
    case Check(r, env) => s.(replicas := s.replicas[r := AfterRound(s.replicas[r], env)])
    case DeleteEntry(r) => s.(replicas := s.replicas[r := s.replicas[r].(deletes := false)])
  }

  ghost predicate Init(s: System) {
    && s.stream == [] && s.leader == None
    && forall r | r in s.replicas :: s.replicas[r] == Replica(LsMeta(NORMAL, None), 0, None, None, false)
  }

  ghost predicate Run(states: seq<System>, actions: seq<Action>) {
    && |states| == |actions| + 1
    && Init(states[0])
    && forall i: nat | i < |actions| :: Taken(states, actions, i)
  }

  ghost predicate Taken(states: seq<System>, actions: seq<Action>, i: nat)
    requires i < |actions| && |states| == |actions| + 1
  {
    Enabled(states[i], actions[i]) && states[i + 1] == Do(states[i], actions[i])
  }

  ghost predicate HasLog(stream: seq<Log>, n: nat, kind: LogKind) {
    exists i: nat | i < n && i < |stream| :: stream[i].kind == kind
  }

  // What holds whether or not storing a state fails.

  predicate MetaOk(m: LsMeta) {
    m.state == LS_OFFLINE <==> m.offlineScn.Some?
  }

  /** The offline SCN belongs to some OFFLINE_LS log of the stream. */
  ghost predicate FromStream(stream: seq<Log>, m: LsMeta) {
    m.offlineScn.Some? ==> exists i: nat | i < |stream| :: stream[i] == Log(OFFLINE_LS, m.offlineScn.value)
  }

  /** How far a replica has come; a leader has applied everything but its own
      pending log. */
  ghost predicate PosInv(s: System, r: nat)
    requires r in s.replicas
  {
    var x := s.replicas[r];
    && x.applied <= |s.stream|
    && (x.pending.Some? ==> x.pending.value == x.applied < |s.stream|)
    && (s.leader == Some(r) ==> x.applied + (if x.pending.Some? then 1 else 0) == |s.stream|)
  }

  /** What a replica stores comes from the stream, and it deletes behind a gate. */
  ghost predicate StoreInv(stream: seq<Log>, x: Replica) {
    && MetaOk(x.meta) && FromStream(stream, x.meta)
    && (BlockedFinished(x.meta.state) ==> HasLog(stream, |stream|, BLOCK_TABLET_TRANSFER_IN))
    && (x.meta.state == WAIT_GC || x.deletes ==>
          x.gate.Some? && MayDelete(x.gate.value.offline, x.gate.value.env) && OfflineFinished(x.meta.state))
    && (x.gate.Some? ==> FromStream(stream, LsMeta(LS_OFFLINE, Some(x.gate.value.offline))))
  }

  ghost predicate ReplicaInv(s: System, r: nat)
    requires r in s.replicas
  {
    PosInv(s, r) && StoreInv(s.stream, s.replicas[r])
  }

  /** Every OFFLINE_LS log comes after a BLOCK_TABLET_TRANSFER_IN log. */
  ghost predicate OfflineAfterBlock(stream: seq<Log>) {
    forall i: nat | i < |stream| && stream[i].kind == OFFLINE_LS :: HasLog(stream, i, BLOCK_TABLET_TRANSFER_IN)
  }

  ghost predicate Growing(stream: seq<Log>) {
    forall i, j | 0 <= i < j < |stream| :: stream[i].scn < stream[j].scn
  }

  ghost predicate Inv(s: System) {
    OfflineAfterBlock(s.stream) && Growing(s.stream) && forall r | r in s.replicas :: ReplicaInv(s, r)
  }

  lemma HasLogGrows(stream: seq<Log>, log: Log, n: nat, kind: LogKind)
    requires HasLog(stream, n, kind)
    ensures HasLog(stream + [log], n, kind) && (n <= |stream| ==> HasLog(stream + [log], |stream| + 1, kind))
  {
    var i: nat :| i < n && i < |stream| && stream[i].kind == kind;
    assert (stream + [log])[i].kind == kind;
  }

  lemma FromStreamGrows(stream: seq<Log>, log: Log, m: LsMeta)
    requires FromStream(stream, m)
    ensures FromStream(stream + [log], m)
  {
    if m.offlineScn.Some? {
      var i: nat :| i < |stream| && stream[i] == Log(OFFLINE_LS, m.offlineScn.value);
      assert (stream + [log])[i] == stream[i];
    }
  }

  lemma StoreInvGrows(stream: seq<Log>, log: Log, x: Replica, y: Replica)
    requires StoreInv(stream, x) && y == x.(pending := y.pending)
    ensures StoreInv(stream + [log], y)
  {
    FromStreamGrows(stream, log, x.meta);
    if x.gate.Some? {
      FromStreamGrows(stream, log, LsMeta(LS_OFFLINE, Some(x.gate.value.offline)));
    }
    if BlockedFinished(x.meta.state) {
      HasLogGrows(stream, log, |stream|, BLOCK_TABLET_TRANSFER_IN);
    }
  }

  lemma AppendKeepsOrder(s: System, a: Action)
    requires Inv(s) && Enabled(s, a) && a.Append?
    ensures OfflineAfterBlock(Do(s, a).stream) && Growing(Do(s, a).stream)
  {
    var t := Do(s, a).stream;
    assert ReplicaInv(s, a.r);
    forall i: nat | i < |t| && t[i].kind == OFFLINE_LS
      ensures HasLog(t, i, BLOCK_TABLET_TRANSFER_IN)
    {
      if i < |s.stream| {
        assert s.stream[i].kind == OFFLINE_LS;
      }
      HasLogGrows(s.stream, Log(a.kind, a.scn), i, BLOCK_TABLET_TRANSFER_IN);
    }
  }

  /** Applying a log of the stream keeps what the meta promises. */
  lemma ApplyOk(stream: seq<Log>, m: LsMeta, i: nat, ok: bool)
    requires MetaOk(m) && FromStream(stream, m) && i < |stream| && OfflineAfterBlock(stream)
    requires BlockedFinished(m.state) ==> HasLog(stream, |stream|, BLOCK_TABLET_TRANSFER_IN)
    ensures var m' := ApplyLog(m, stream[i], ok);
            && MetaOk(m') && FromStream(stream, m') && Rank(m.state) <= Rank(m'.state)
            && (BlockedFinished(m'.state) ==> HasLog(stream, |stream|, BLOCK_TABLET_TRANSFER_IN))
            && (m'.state == WAIT_GC ==> m.state == WAIT_GC)
  {
  }

  lemma PosStep(s: System, a: Action, r: nat)
    requires Enabled(s, a) && r in s.replicas && PosInv(s, r)
    requires a.Append? ==> PosInv(s, a.r)
    ensures r in Do(s, a).replicas && PosInv(Do(s, a), r)
  {
  }

  lemma RoundStores(stream: seq<Log>, x: Replica, env: Env)
    requires StoreInv(stream, x) && OfflineFinished(x.meta.state)
    ensures StoreInv(stream, AfterRound(x, env))
  {
  }

  /** A replica's new meta is that of a log applied, of a round, or the old one. */
  lemma StoreStep(s: System, a: Action, r: nat)
    requires OfflineAfterBlock(s.stream) && Enabled(s, a) && !a.Append?
    requires r in s.replicas && StoreInv(s.stream, s.replicas[r])
    ensures r in Do(s, a).replicas && StoreInv(s.stream, Do(s, a).replicas[r])
  {
    var x := s.replicas[r];
    if a.LoseLeader? || a.r != r {
    } else if a.CallbackSuccess? {
      ApplyOk(s.stream, x.meta, x.pending.value, a.ok);
    } else if a.Replay? {
      ApplyOk(s.stream, x.meta, a.index, a.ok);
    } else if a.Check? {
      RoundStores(s.stream, x, a.env);
    }
  }

  lemma InvStep(s: System, a: Action)
    requires Inv(s) && Enabled(s, a)
    ensures Inv(Do(s, a))
  {
    var t := Do(s, a);
    if a.Append? {
      AppendKeepsOrder(s, a);
      assert ReplicaInv(s, a.r);
    }
    forall r | r in t.replicas
      ensures ReplicaInv(t, r)
    {
      assert ReplicaInv(s, r);
      PosStep(s, a, r);
      if a.Append? {
        StoreInvGrows(s.stream, Log(a.kind, a.scn), s.replicas[r], t.replicas[r]);
      } else {
        StoreStep(s, a, r);
      }
    }
  }

  lemma {:induction false} RunKeepsInv(states: seq<System>, actions: seq<Action>, n: nat)
    requires Run(states, actions) && n < |states|
    ensures Inv(states[n]) && states[n].replicas.Keys == states[0].replicas.Keys
  {
    if n > 0 {
      RunKeepsInv(states, actions, n - 1);
      assert Taken(states, actions, n - 1);
      InvStep(states[n - 1], actions[n - 1]);
    }
  }

  lemma RankStep(s: System, a: Action, r: nat)
    requires Enabled(s, a) && r in s.replicas
    ensures r in Do(s, a).replicas
    ensures Rank(s.replicas[r].meta.state) <= Rank(Do(s, a).replicas[r].meta.state)
  {
  }

  /** A replica's GC state never moves backward, over any run. */
  lemma {:induction false} StateNeverMovesBack(states: seq<System>, actions: seq<Action>, i: nat, j: nat, r: nat)
    requires Run(states, actions) && i <= j < |states| && r in states[i].replicas
    ensures r in states[j].replicas
    ensures Rank(states[i].replicas[r].meta.state) <= Rank(states[j].replicas[r].meta.state)
    decreases j
  {
    if i < j {
      StateNeverMovesBack(states, actions, i, j - 1, r);
      assert Taken(states, actions, j - 1);
      RankStep(states[j - 1], actions[j - 1], r);
    }
  }

  /** At step `m` replica `r`, offline, passed the check in a round of its own. */
  ghost predicate PassedGate(states: seq<System>, actions: seq<Action>, m: nat, r: nat)
    requires |states| == |actions| + 1 && m < |actions| && r in states[m].replicas
  {
    && actions[m].Check? && actions[m].r == r
    && states[m].replicas[r].meta.state == LS_OFFLINE
    && states[m].replicas[r].meta.offlineScn.Some?
    && MayDelete(states[m].replicas[r].meta.offlineScn.value, actions[m].env)
  }

  lemma GateStep(s: System, a: Action, r: nat)
    requires Enabled(s, a) && r in Do(s, a).replicas && Do(s, a).replicas[r].gate.Some?
    ensures r in s.replicas
    ensures s.replicas[r].gate.None? ==>
              var m := s.replicas[r].meta;
              && a.Check? && a.r == r && m.state == LS_OFFLINE
              && m.offlineScn.Some? && MayDelete(m.offlineScn.value, a.env)
  {
  }

  lemma {:induction false} GateWasPassed(states: seq<System>, actions: seq<Action>, n: nat, r: nat)
    requires Run(states, actions) && n < |states|
    requires r in states[n].replicas && states[n].replicas[r].gate.Some?
    ensures exists m: nat :: m < n && r in states[m].replicas && PassedGate(states, actions, m, r)
  {
    if n > 0 {
      assert Taken(states, actions, n - 1);
      GateStep(states[n - 1], actions[n - 1], r);
      if states[n - 1].replicas[r].gate.Some? {
        GateWasPassed(states, actions, n - 1, r);
      } else {
        assert PassedGate(states, actions, n - 1, r);
      }
    }
  }

  /** Replica r made a round at step k and has not restarted until n. */
  ghost predicate LedRound(actions: seq<Action>, k: nat, n: nat, r: nat)
    requires n <= |actions|
  {
    && k < n && actions[k].Check? && actions[k].r == r
    && forall l | k < l < n :: !(actions[l].Restart? && actions[l].r == r)
  }

  lemma DeletesStep(s: System, a: Action, r: nat)
    requires Enabled(s, a) && r in Do(s, a).replicas && Do(s, a).replicas[r].deletes
    ensures r in s.replicas
    ensures || (a.Check? && a.r == r)
            || (s.replicas[r].deletes && !(a.Restart? && a.r == r))
  {
  }

  lemma {:induction false} DeletesFromLedRound(states: seq<System>, actions: seq<Action>, n: nat, r: nat)
    requires Run(states, actions) && n < |states| && r in states[n].replicas && states[n].replicas[r].deletes
    ensures exists k: nat :: LedRound(actions, k, n, r)
  {
    if n > 0 {
      assert Taken(states, actions, n - 1);
      DeletesStep(states[n - 1], actions[n - 1], r);
      if actions[n - 1].Check? && actions[n - 1].r == r {
        assert LedRound(actions, n - 1, n, r);
      } else {
        DeletesFromLedRound(states, actions, n - 1, r);
        var k: nat :| LedRound(actions, k, n - 1, r);
        assert LedRound(actions, k, n, r);
      }
    }
  }

  /** A status entry is deleted only after a round k of a replica at or past
      LS_OFFLINE, since which it has not restarted; after a check m in which it was in
      LS_OFFLINE, with the offline SCN readable, recycling not delayed, and the archive
      past the SCN or, without archive, the tenant dropping, restored or cloned, or the
      delay over; and after both GC logs were written. */
  lemma DeletionIsGated(states: seq<System>, actions: seq<Action>, n: nat) returns (m: nat, k: nat)
    requires Run(states, actions) && n < |actions| && actions[n].DeleteEntry?
    ensures var r := actions[n].r;
            && r in states[n].replicas && OfflineFinished(states[n].replicas[r].meta.state)
            && LedRound(actions, k, n, r)
            && HasLog(states[n].stream, |states[n].stream|, OFFLINE_LS)
            && HasLog(states[n].stream, |states[n].stream|, BLOCK_TABLET_TRANSFER_IN)
    ensures var r := actions[n].r;
            && m < n && actions[m].Check? && actions[m].r == r
            && r in states[m].replicas && states[m].replicas[r].meta.state == LS_OFFLINE
            && states[m].replicas[r].meta.offlineScn.Some?
            && var scn, env := states[m].replicas[r].meta.offlineScn.value, actions[m].env;
            && env.readable.Some? && scn <= env.readable.value && !env.delayRecycle && env.inArchive.Some?
            && (env.inArchive.value ==>
                  env.progress.Some? && (env.progress.value.ignore || scn <= env.progress.value.scn))
            && (!env.inArchive.value ==>
                  && env.dropping.Some?
                  && (|| env.dropping.value || env.role == RESTORE || env.role == CLONE
                      || (env.delay.Some? && env.now - scn / 1000 >= env.delay.value)))
  {
    assert Taken(states, actions, n);
    var r := actions[n].r;
    RunKeepsInv(states, actions, n);
    assert ReplicaInv(states[n], r);
    GateWasPassed(states, actions, n, r);
    m :| m < n && r in states[m].replicas && PassedGate(states, actions, m, r);
    DeletesFromLedRound(states, actions, n, r);
    k :| LedRound(actions, k, n, r);
  }

  // When the replicas agree on the offline SCN.

  ghost predicate OneOffline(stream: seq<Log>) {
    forall i: nat, j: nat | i < j < |stream| :: stream[i].kind != OFFLINE_LS || stream[j].kind != OFFLINE_LS
  }

  /** The replica has applied an OFFLINE_LS log, but not stored LS_OFFLINE. */
  ghost predicate MissedStore(s: System, r: nat) {
    && r in s.replicas && !OfflineFinished(s.replicas[r].meta.state)
    && HasLog(s.stream, s.replicas[r].applied, OFFLINE_LS)
  }

  /** Step i writes another OFFLINE_LS log, by a leader that missed the store. */
  ghost predicate Repeats(states: seq<System>, actions: seq<Action>, i: nat)
    requires i < |actions| && |states| == |actions| + 1
  {
    actions[i].Append? && actions[i].kind == OFFLINE_LS && MissedStore(states[i], actions[i].r)
  }

  lemma OneOfflineStep(s: System, a: Action)
    requires Inv(s) && Enabled(s, a)
    ensures OneOffline(Do(s, a).stream) <==>
            OneOffline(s.stream) && !(a.Append? && a.kind == OFFLINE_LS && MissedStore(s, a.r))
  {
    if a.Append? {
      assert ReplicaInv(s, a.r);
      var t := Do(s, a).stream;
      assert forall i | 0 <= i < |s.stream| :: t[i] == s.stream[i];
      if MissedStore(s, a.r) && a.kind == OFFLINE_LS {
        var i: nat :| i < |s.stream| && s.stream[i].kind == OFFLINE_LS;
        assert t[i].kind == OFFLINE_LS && t[|s.stream|].kind == OFFLINE_LS;
      } else if a.kind == OFFLINE_LS {
        assert forall i: nat | i < |s.stream| :: s.stream[i].kind != OFFLINE_LS;
      }
    }
  }

  /** In every run the stream holds at most one OFFLINE_LS log exactly if no leader
      that had missed the store wrote one. */
  lemma {:induction false} OneOfflineExactly(states: seq<System>, actions: seq<Action>, n: nat)
    requires Run(states, actions) && n < |states|
    ensures OneOffline(states[n].stream) <==> forall i: nat | i < n :: !Repeats(states, actions, i)
  {
    if n > 0 {
      OneOfflineExactly(states, actions, n - 1);
      RunKeepsInv(states, actions, n - 1);
      assert Taken(states, actions, n - 1);
      var s, a := states[n - 1], actions[n - 1];
      OneOfflineStep(s, a);
      assert Repeats(states, actions, n - 1) <==> a.Append? && a.kind == OFFLINE_LS && MissedStore(s, a.r);
    }
  }

  /** Then a replica holds the SCN of the one OFFLINE_LS log exactly while it is in
      LS_OFFLINE: entering WAIT_GC clears the SCN. */
  lemma OfflineScnExact(states: seq<System>, actions: seq<Action>, n: nat, r: nat, f: nat)
    requires Run(states, actions) && n < |states| && r in states[n].replicas
    requires forall i: nat | i < n :: !Repeats(states, actions, i)
    requires f < |states[n].stream| && states[n].stream[f].kind == OFFLINE_LS
    ensures var x := states[n].replicas[r].meta;
            x.offlineScn == if x.state == LS_OFFLINE then Some(states[n].stream[f].scn) else None
  {
    OneOfflineExactly(states, actions, n);
    RunKeepsInv(states, actions, n);
    var s := states[n];
    assert ReplicaInv(s, r);
    if s.replicas[r].meta.offlineScn.Some? {
      var i: nat :| i < |s.stream| && s.stream[i] == Log(OFFLINE_LS, s.replicas[r].meta.offlineScn.value);
    }
  }

  ghost predicate Disagree(s: System, r1: nat, r2: nat) {
    && r1 in s.replicas && r2 in s.replicas
    && s.replicas[r1].meta.state == LS_OFFLINE == s.replicas[r2].meta.state
    && s.replicas[r1].meta.offlineScn != s.replicas[r2].meta.offlineScn
  }

  /** Replicas in LS_OFFLINE agree on the offline SCN in every run in which no
      leader that had missed the store wrote another OFFLINE_LS log. */
  lemma ReplicasAgree(states: seq<System>, actions: seq<Action>, n: nat, r1: nat, r2: nat)
    requires Run(states, actions) && n < |states|
    requires forall i: nat | i < n :: !Repeats(states, actions, i)
    ensures !Disagree(states[n], r1, r2)
  {
    if Disagree(states[n], r1, r2) {
      RunKeepsInv(states, actions, n);
      assert ReplicaInv(states[n], r1);
      var f: nat :| f < |states[n].stream|
                    && states[n].stream[f] == Log(OFFLINE_LS, states[n].replicas[r1].meta.offlineScn.value);
      OfflineScnExact(states, actions, n, r1, f);
      OfflineScnExact(states, actions, n, r2, f);
    }
  }

  /** Step i fails to store LS_OFFLINE on replica r. */
  ghost predicate FailsToStore(states: seq<System>, actions: seq<Action>, i: nat, r: nat)
    requires i < |actions| && |states| == |actions| + 1
  {
    var s, a := states[i], actions[i];
    && Enabled(s, a)
    && (|| (a.CallbackSuccess? && a.r == r && !a.ok && s.stream[s.replicas[r].pending.value].kind == OFFLINE_LS)
        || (a.Replay? && a.r == r && !a.ok && s.stream[a.index].kind == OFFLINE_LS))
  }

  /** A replica that never failed to store LS_OFFLINE has not missed the store, so
      only failures of a leader's own stores matter. */
  lemma {:induction false} StoredIsNotMissed(states: seq<System>, actions: seq<Action>, n: nat, r: nat)
    requires Run(states, actions) && n < |states|
    requires forall i: nat | i < n :: !FailsToStore(states, actions, i, r)
    ensures !MissedStore(states[n], r)
  {
    if n > 0 {
      StoredIsNotMissed(states, actions, n - 1, r);
      RunKeepsInv(states, actions, n - 1);
      assert Taken(states, actions, n - 1) && !FailsToStore(states, actions, n - 1, r);
      NotMissedStep(states[n - 1], actions[n - 1], r);
    }
  }

  lemma NotMissedStep(s: System, a: Action, r: nat)
    requires Inv(s) && Enabled(s, a) && !MissedStore(s, r)
    requires a.CallbackSuccess? && a.r == r && !a.ok ==> s.stream[s.replicas[r].pending.value].kind != OFFLINE_LS
    requires a.Replay? && a.r == r && !a.ok ==> s.stream[a.index].kind != OFFLINE_LS
    ensures !MissedStore(Do(s, a), r)
  {
    var t := Do(s, a);
    if r in s.replicas && !OfflineFinished(t.replicas[r].meta.state) {
      RankStep(s, a, r);
      assert ReplicaInv(s, r);
      forall i: nat | i < t.replicas[r].applied && i < |t.stream|
        ensures t.stream[i].kind != OFFLINE_LS
      {
        assert i < s.replicas[r].applied ==> t.stream[i] == s.stream[i];
      }
    }
  }

  ghost predicate Reachable(s: System) {
    exists states, actions :: Run(states, actions) && states[|actions|] == s
  }

  lemma RunExtends(states: seq<System>, actions: seq<Action>, a: Action)
    requires Run(states, actions) && Enabled(states[|actions|], a)
    ensures Run(states + [Do(states[|actions|], a)], actions + [a])
  {
    var states', actions' := states + [Do(states[|actions|], a)], actions + [a];
    forall i: nat | i < |actions'|
      ensures Taken(states', actions', i)
    {
      if i < |actions| {
        assert Taken(states, actions, i);
      }
    }
  }

  lemma ReachStep(s: System, a: Action)
    requires Reachable(s) && Enabled(s, a)
    ensures Reachable(Do(s, a))
  {
    var states, actions :| Run(states, actions) && states[|actions|] == s;
    RunExtends(states, actions, a);
  }

  lemma InitReachable(s: System)
    requires Init(s)
    ensures Reachable(s)
  {
    assert Run([s], []);
  }

  lemma ReachableInv(s: System)
    requires Reachable(s)
    ensures Inv(s)
  {
    var states, actions :| Run(states, actions) && states[|actions|] == s;
    RunKeepsInv(states, actions, |actions|);
  }

  /** The leader writes a log and gets its callback. */
  lemma WriteLog(s: System, r: nat, log: Log, ok: bool) returns (t: System)
    requires Reachable(s) && r in s.replicas && s.leader == Some(r)
    requires s.replicas[r].pending.None? && Submits(s.replicas[r].meta.state, log.kind) && Newer(s.stream, log.scn)
    ensures Reachable(t)
    ensures var x := s.replicas[r].(meta := ApplyLog(s.replicas[r].meta, log, ok), applied := |s.stream| + 1);
            t == System(s.stream + [log], s.leader, s.replicas[r := x])
  {
    ReachableInv(s);
    assert ReplicaInv(s, r);
    ReachStep(s, Append(r, log.kind, log.scn));
    t := Do(s, Append(r, log.kind, log.scn));
    ReachStep(t, CallbackSuccess(r, ok));
    t := Do(t, CallbackSuccess(r, ok));
  }

  /** A replica's outstanding callback comes in, without effect on its meta. */
  lemma Settle(s: System, r: nat) returns (t: System)
    requires Reachable(s) && r in s.replicas
    ensures Reachable(t) && t.stream == s.stream && t.leader == s.leader && r in t.replicas
    ensures t.replicas == s.replicas[r := t.replicas[r]]
    ensures t.replicas[r].pending.None? && t.replicas[r].meta == s.replicas[r].meta
    ensures t.replicas[r].applied >= s.replicas[r].applied
  {
    ReachableInv(s);
    assert ReplicaInv(s, r);
    t := s;
    if s.replicas[r].pending.Some? {
      ReachStep(s, CallbackSuccess(r, false));
      t := Do(s, CallbackSuccess(r, false));
    }
  }

  /** A replica can get as far as log k with its meta unchanged. */
  lemma {:induction false} CatchUp(s: System, r: nat, k: nat) returns (t: System)
    requires Reachable(s) && r in s.replicas && s.replicas[r].pending.None? && k <= |s.stream|
    ensures Reachable(t)
    ensures t == s.(replicas := s.replicas[r := s.replicas[r].(applied := Max(s.replicas[r].applied, k))])
    decreases k - s.replicas[r].applied
  {
    var x := s.replicas[r];
    t := s;
    if x.applied < k {
      ReachStep(s, Replay(r, x.applied, false));
      t := CatchUp(Do(s, Replay(r, x.applied, false)), r, k);
    }
  }

  /** The leader, having missed the store, ends in LS_OFFLINE with a new log's SCN:
      the next one, or the one after if it has to block first. */
  lemma LeaderAdopts(s: System, r: nat, scn: nat) returns (t: System, got: nat)
    requires Reachable(s) && r in s.replicas && s.leader == Some(r) && s.replicas[r].pending.None?
    requires !OfflineFinished(s.replicas[r].meta.state) && Newer(s.stream, scn)
    ensures Reachable(t) && s.stream <= t.stream && r in t.replicas
    ensures t.replicas == s.replicas[r := t.replicas[r]] && t.leader == Some(r)
    ensures got >= scn && t.replicas[r].meta == LsMeta(LS_OFFLINE, Some(got))
  {
    t, got := s, scn;
    if !BlockedFinished(s.replicas[r].meta.state) {
      t := WriteLog(t, r, Log(BLOCK_TABLET_TRANSFER_IN, scn), true);
      got := scn + 1;
    }
    t := WriteLog(t, r, Log(OFFLINE_LS, got), true);
  }

  lemma FollowerAdopts(s: System, r: nat, i: nat) returns (t: System)
    requires Reachable(s) && r in s.replicas && i < |s.stream| && s.stream[i].kind == OFFLINE_LS
    requires !OfflineFinished(s.replicas[r].meta.state)
    ensures Reachable(t) && r in t.replicas && t.replicas == s.replicas[r := t.replicas[r]]
    ensures t.replicas[r].meta == LsMeta(LS_OFFLINE, Some(s.stream[i].scn))
  {
    t := Settle(s, r);
    t := CatchUp(t, r, i);
    ReachStep(t, Replay(r, i, true));
    t := Do(t, Replay(r, i, true));
  }

  /** From every reachable state any replica can become leader. */
  lemma AnyoneCanLead(s: System, r: nat) returns (t: System)
    requires Reachable(s) && r in s.replicas
    ensures Reachable(t) && t.stream == s.stream && t.leader == Some(r) && r in t.replicas
    ensures t.replicas[r].meta == s.replicas[r].meta && t.replicas[r].pending.None?
  {
    t := Settle(s, r);
    t := CatchUp(t, r, |t.stream|);
    ReachableInv(t);
    assert ReplicaInv(t, r);
    ReachStep(t, BecomeLeader(r));
    t := Do(t, BecomeLeader(r));
  }

  /** The garbage collection is never stuck: from every reachable state a run leads to
      the deletion of any replica's status entry, once the tenant is being dropped. */
  lemma CanFinish(s: System, r: nat, scn: nat) returns (t: System)
    requires Reachable(s) && r in s.replicas && Newer(s.stream, scn)
    ensures Reachable(t) && Enabled(t, DeleteEntry(r))
  {
    t := AnyoneCanLead(s, r);
    if !OfflineFinished(t.replicas[r].meta.state) {
      var got;
      t, got := LeaderAdopts(t, r, scn);
    }
    ReachableInv(t);
    assert ReplicaInv(t, r);
    t := Settle(t, r);
    var offline := if t.replicas[r].meta.offlineScn.Some? then t.replicas[r].meta.offlineScn.value else 0;
    var env := Env(Some(offline), false, Some(false), None, Some(true), PRIMARY, None, 0, true);
    ReachableInv(t);
    assert ReplicaInv(t, r);
    ReachStep(t, Check(r, env));
    t := Do(t, Check(r, env));
  }

  /** The condition of `ReplicasAgree` is the exact one: wherever a leader has
      missed the store and another replica is not offline yet, the two can come to
      disagree, whichever SCN the leader's next log gets. */
  lemma MissedStoreDisagrees(s: System, r1: nat, r2: nat, scn: nat) returns (t: System)
    requires Reachable(s) && s.leader == Some(r1) && MissedStore(s, r1)
    requires r2 in s.replicas && r2 != r1 && !OfflineFinished(s.replicas[r2].meta.state)
    requires Newer(s.stream, scn)
    ensures Reachable(t) && Disagree(t, r1, r2)
  {
    ReachableInv(s);
    assert ReplicaInv(s, r1);
    var i: nat :| i < s.replicas[r1].applied && i < |s.stream| && s.stream[i].kind == OFFLINE_LS;
    t := Settle(s, r1);
    var got;
    t, got := LeaderAdopts(t, r1, scn);
    assert t.stream[i] == s.stream[i];
    t := FollowerAdopts(t, r2, i);
  }

  /** Such a state is reachable: a leader of two replicas fails to store
      LS_OFFLINE for a log with SCN 10. */
  lemma StoreFailureDisagrees() returns (s: System)
    ensures Reachable(s) && Disagree(s, 0, 1)
  {
    var x := Replica(LsMeta(NORMAL, None), 0, None, None, false);
    s := System([], None, map[0 := x, 1 := x]);
    InitReachable(s);
    ReachStep(s, BecomeLeader(0));
    s := Do(s, BecomeLeader(0));
    s := WriteLog(s, 0, Log(BLOCK_TABLET_TRANSFER_IN, 1), true);
    s := WriteLog(s, 0, Log(OFFLINE_LS, 10), false);
    assert s.stream[1] == Log(OFFLINE_LS, 10);
    s := MissedStoreDisagrees(s, 0, 1, 20);
  }
}
