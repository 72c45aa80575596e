/** The flashback driver: stop every log stream from growing, wait until all
    replicas have caught up, switch every log stream to FLASHBACK mode, then have
    every replica truncate and acknowledge. */
module Flashback {
  import opened Common
  import opened FlashbackNet
  import opened FlashbackProgress

  class Service {
    const net: Net
    var now: nat
    var sent: set<Cmd>
    var execOps: seq<ExecOp>
    var heard: nat // acknowledgements that arrived before this time have been handled
    ghost var seen: History

    constructor (net: Net)
      ensures Valid() && this.net == net && now == 0 && sent == {} && execOps == [] && seen == {}
    {
      this.net, now, sent, execOps, heard, seen := net, 0, {}, [], 0, {};
    }

    ghost predicate Valid()
      reads this
    {
      heard <= now && Truthful(net, seen, now) && forall c | c in sent :: c.time < now
    }

    method FindLeader(ls: nat, known: Option<nat>) returns (leader: Option<nat>)
      modifies `now
      ensures now == old(now) + (if known.None? then 1 else 0) && (known.Some? ==> leader == known)
      ensures known.None? ==> leader == net.leader(old(now), ls)
    {
      leader := known;
      if known.None? {
        leader := net.leader(now, ls);
        now := now + 1;
      }
    }

    method LeaderStat(ghost asker: nat, ls: nat, s: nat) returns (st: Option<Stat>)
      requires Truthful(net, seen, now)
      modifies `now, `seen
      ensures now == old(now) + 1 && st == net.leaderStat(old(now), s, ls) && Truthful(net, seen, now)
      ensures seen == old(seen) + if st.Some? then {LeaderAns(old(now), asker, s, ls, st.value)} else {}
    {
      st := net.leaderStat(now, s, ls);
      seen := seen + if st.Some? then {LeaderAns(now, asker, s, ls, st.value)} else {};
      now := now + 1;
    }

    // Stages 1 and 3: change the access mode.

    /** ChangeAccessModeOperator::switch_state of operator number i. The leader is
        forgotten only if it does not answer. */
    method SwitchMode(ghost i: nat, op: ModeOp) returns (r: ModeOp, ok: bool)
      requires Valid()
      modifies `now, `sent, `seen
      ensures Valid() && old(now) <= now <= old(now) + 3
      ensures var s := if op.leader.Some? then op.leader else net.leader(old(now), op.ls);
              var t := if op.leader.Some? then old(now) else old(now) + 1;
              if s.Some? && net.leaderStat(t, s.value, op.ls).Some?
              then var st := net.leaderStat(t, s.value, op.ls).value;
                   && Answered(i, op, r, ok, s.value, t, st, old(seen), seen, old(sent), sent) && t < now
              else Unanswered(op, r, ok, old(seen), seen, old(sent), sent)
    {
      r, ok := op, false;
      var leader := FindLeader(op.ls, op.leader);
      r := r.(leader := leader);
      if leader.None? { return; }
      var st := LeaderStat(i, op.ls, leader.value);
      if st.None? {
        r := r.(leader := None);
        return;
      }
      r := r.(version := st.value.version);
      if op.dst == st.value.mode || st.value.mode == FLASHBACK {
        ok := true;
      } else {
        sent := sent + {ChangeMode(now, leader.value, op.ls, r.version, op.dst)};
        now := now + 1;
      }
    }

    /** What this does for the stage. */
    method ModeTurn(ghost i: nat, op: ModeOp) returns (r: ModeOp, ok: bool)
      requires Valid()
      modifies `now, `sent, `seen
      ensures Valid() && now >= old(now) && After(old(seen), seen, old(now))
      ensures Sends(seen, old(sent), sent, op.dst, old(now), now)
      ensures TurnOk(net, seen, i, op, r, op.dst, old(now), now)
      ensures ok ==> InMode(seen, r, old(now), now)
      ensures FreshMode(net, op, op.dst, old(now)) ==> ok
    {
      r, ok := SwitchMode(i, op);
      ModeTurnFacts(net, i, op, r, ok, old(seen), seen, old(sent), sent, old(now), now);
    }

    method MotivateMode(ops: seq<ModeOp>, ghost dst: Mode) returns (rs: seq<ModeOp>, ok: bool)
      requires Valid() && forall op | op in ops :: op.dst == dst
      modifies `now, `sent, `seen
      ensures Valid() && now >= old(now) && After(old(seen), seen, old(now)) && |rs| == |ops|
      ensures ok ==> InModes(seen, rs, old(now), now)
      ensures Sends(seen, old(sent), sent, dst, old(now), now)
      ensures TurnsOk(net, seen, ops, rs, dst, old(now), now)
      ensures AllFresh(net, ops, dst, old(now)) ==> ok
    {
      rs, ok := [], true;
      for i := 0 to |ops|
        invariant Valid() && now >= old(now) && After(old(seen), seen, old(now)) && |rs| == i
        invariant ok ==> InModes(seen, rs, old(now), now)
        invariant Sends(seen, old(sent), sent, dst, old(now), now)
        invariant TurnsOk(net, seen, ops, rs, dst, old(now), now)
        invariant AllFresh(net, ops, dst, old(now)) ==> ok
      {
        ghost var before, h, sent0 := now, seen, sent;
        var r, good := ModeTurn(i, ops[i]);
        SendsStep(h, seen, old(sent), sent0, sent, dst, old(now), before, now);
        TurnsStep(net, h, seen, ops, rs, r, dst, old(now), before, now);
        if AllFresh(net, ops, dst, old(now)) {
          FreshLater(net, ops, dst, old(now), before);
        }
        if ok && good {
          InModesStep(h, seen, rs, r, old(now), before, now);
        }
        rs := rs + [r];
        ok := ok && good;
      }
    }

    /** get_and_change_access_mode_: passes over all log streams until one pass
        finds every one of them in the mode. `starts` are the times the passes
        began; whatever earlier passes met, it is enough that some pass but the
        last begins with all log streams settled. */
    method ChangeModeStage(lsArray: seq<nat>, dst: Mode, passes: nat)
      returns (ops: seq<ModeOp>, ret: Ret, ghost last: nat, ghost starts: seq<nat>)
      requires Valid()
      modifies `now, `sent, `seen
      ensures Valid() && old(now) <= last <= now && After(old(seen), seen, old(now)) && ret != OpNotAllow
      ensures ret == Success ==> AllInMode(seen, lsArray, ops, dst, last, now)
      ensures Sends(seen, old(sent), sent, dst, old(now), now)
      ensures Rising(starts, old(now), now) && StableAsked(net, seen, lsArray, starts, now)
      ensures ret != Success ==> ModeStuck(net, lsArray, dst, passes, starts)
    {
      ops := seq(|lsArray|, i requires 0 <= i < |lsArray| => ModeOp(lsArray[i], None, 0, dst));
      ret, last, starts := Timeout, now, [];
      var pass := 0;
      while pass < passes && ret == Timeout
        invariant Valid() && |starts| == pass <= passes && old(now) <= last <= now
        invariant After(old(seen), seen, old(now)) && |ops| == |lsArray| && ret != OpNotAllow
        invariant forall i | 0 <= i < |ops| :: ops[i].ls == lsArray[i] && ops[i].dst == dst
        invariant ret == Success ==> InModes(seen, ops, last, now)
        invariant Sends(seen, old(sent), sent, dst, old(now), now)
        invariant Rising(starts, old(now), now) && StableAsked(net, seen, lsArray, starts, now)
        invariant StableKnown(net, ops, starts)
        invariant ret == Timeout ==> forall p: nat | p + 1 < |starts| :: !AllSettled(net, lsArray, dst, starts[p])
      {
        ghost var h, sent0, past, ops0 := seen, sent, starts, ops;
        RisingStep(starts, old(now), now);
        last, starts, pass := now, starts + [now], pass + 1;
        var ok;
        ops, ok := MotivateMode(ops, dst);
        RisingLater(starts, old(now), last, now);
        SendsStep(h, seen, old(sent), sent0, sent, dst, old(now), last, now);
        StablePass(net, h, seen, lsArray, ops0, ops, dst, past, last, now);
        if ok {
          ret := Success;
        } else {
          SettledIsFresh(net, lsArray, ops0, dst, past, last);
        }
      }
    }

    // Stage 2: wait until the logs of all replicas are in sync.

    /** check_list_log_sync: asks every server not yet known to be in sync. */
    method CheckList(ls: nat, scn: nat, list: seq<nat>, synced: set<nat>)
      returns (synced': set<nat>, short: nat, allUp: bool, ok: bool)
      requires Truthful(net, seen, now)
      modifies `now, `seen
      ensures Truthful(net, seen, now) && now >= old(now) && NoLeaderAsked(old(seen), seen, old(now))
      ensures synced <= synced' && short <= |list|
      ensures forall s | s in synced' && s !in synced :: Synced(seen, ls, s, scn, old(now), now)
      ensures ok ==> forall s | s in list :: s in synced'
      ensures short == |list| ==>
                forall s | s in list :: s !in synced' && Short(seen, ls, s, scn, old(now), now)
      ensures allUp ==> AllAnswered(seen, ls, list, synced, old(now), now)
      ensures !allUp ==> SomeSilent(net, ls, list, old(now), now)
      ensures (forall s | s in list :: AlwaysSynced(net, ls, s, scn, old(now))) ==> ok
      ensures (forall s | s in list :: AlwaysUp(net, ls, s, old(now))) ==> allUp
      ensures (forall s | s in list :: AlwaysShort(net, ls, s, scn, old(now)) && s !in synced) ==> short == |list|
    {
      synced', short, allUp, ok := synced, 0, true, true;
      for i := 0 to |list|
        invariant Truthful(net, seen, now) && now >= old(now) && NoLeaderAsked(old(seen), seen, old(now))
        invariant synced <= synced' && short <= i
        invariant forall s | s in synced' && s !in synced :: Synced(seen, ls, s, scn, old(now), now)
        invariant ok ==> forall k | 0 <= k < i :: list[k] in synced'
        invariant short == i ==> synced' == synced && forall k | 0 <= k < i ::
            list[k] !in synced && Short(seen, ls, list[k], scn, old(now), now)
        invariant allUp ==> AllAnswered(seen, ls, list[..i], synced, old(now), now)
        invariant !allUp ==> SomeSilent(net, ls, list, old(now), now)
        invariant (forall s | s in list :: AlwaysSynced(net, ls, s, scn, old(now))) ==> ok
        invariant (forall s | s in list :: AlwaysUp(net, ls, s, old(now))) ==> allUp
        invariant (forall s | s in list :: AlwaysShort(net, ls, s, scn, old(now)) && s !in synced) ==> short == i
      {
        var s := list[i];
        assert list[..i + 1] == list[..i] + [s];
        ghost var h := seen;
        if s in synced' {
          SyncedAnswered(seen, ls, s, scn, old(now), now);
        } else {
          var st := AskServer(ls, s);
          assert AlwaysSynced(net, ls, s, scn, old(now)) ==> SyncedAt(net, ls, s, scn, now - 1);
          assert AlwaysShort(net, ls, s, scn, old(now)) ==> ShortAt(net, ls, s, scn, now - 1);
          assert AlwaysUp(net, ls, s, old(now)) ==> UpAt(net, ls, s, now - 1);
          SyncedLater(h, seen, ls, scn, old(now), old(now), now - 1, now);
          AnsweredLater(h, seen, ls, list[..i], synced, old(now), now - 1, now);
          if st.Some? {
            assert ServerAns(now - 1, s, ls, st.value) in seen;
          }
          if st.None? {
            assert !UpAt(net, ls, list[i], now - 1);
            ok, allUp := false, false;
          } else if st.value.endScn < st.value.maxScn {
            ok := false;
          } else if st.value.endScn < scn {
            ok, short := false, short + 1;
          } else {
            synced' := synced' + {s};
          }
        }
      }
      assert list[..|list|] == list;
    }

    method AskServer(ls: nat, s: nat) returns (st: Option<Stat>)
      requires Truthful(net, seen, now)
      modifies `now, `seen
      ensures now == old(now) + 1 && st == net.stat(old(now), s, ls) && Truthful(net, seen, now)
      ensures seen == old(seen) + if st.Some? then {ServerAns(old(now), s, ls, st.value)} else {}
    {
      st := net.stat(now, s, ls);
      seen := seen + if st.Some? then {ServerAns(now, s, ls, st.value)} else {};
      now := now + 1;
    }

    /** The two lists of operator number i, with the rule that learners do not count
        while no member has reached the point. */
    method CheckLists(ghost i: nat, op: CheckOp, scn: nat, ghost from: nat) returns (r: CheckOp, ok: bool)
      requires Truthful(net, seen, now) && from <= now && op.hasList && CheckInv(seen, i, op, scn, from, now)
      modifies `now, `seen
      ensures Truthful(net, seen, now) && now >= old(now) && NoLeaderAsked(old(seen), seen, old(now))
      ensures r == op.(hasList := r.hasList, syncMembers := r.syncMembers, syncLearners := r.syncLearners)
      ensures CheckInv(seen, i, r, scn, from, now)
      ensures r.hasList ==> && AllAnswered(seen, op.ls, op.members, op.syncMembers, old(now), now)
                            && AllAnswered(seen, op.ls, op.learners, op.syncLearners, old(now), now)
      ensures !r.hasList ==> SomeSilent(net, op.ls, op.members + op.learners, old(now), now)
      ensures ok ==> CheckPassed(seen, i, r, scn, from, old(now), now)
      ensures (forall s | s in op.members || s in op.learners :: AlwaysSynced(net, op.ls, s, scn, old(now))) ==> ok
      ensures (forall s | s in op.members :: AlwaysShort(net, op.ls, s, scn, old(now)) && s !in op.syncMembers) ==> ok
      ensures (forall s | s in op.members || s in op.learners :: AlwaysUp(net, op.ls, s, old(now))) ==> r.hasList
    {
      ghost var h := seen;
      var syncMembers, short, up1, ok1 := CheckList(op.ls, scn, op.members, op.syncMembers);
      ghost var mid, h1 := now, seen;
      AlwaysLater(net, op.ls, scn, old(now), mid);
      var syncLearners, _, up2, ok2 := CheckList(op.ls, scn, op.learners, op.syncLearners);
      CurrentLater(h, seen, i, op.ls, op.members, op.learners, from, old(now), now);
      SyncedLater(h, seen, op.ls, scn, from, from, old(now), now);
      SyncedLater(h1, seen, op.ls, scn, from, old(now), mid, now);
      SyncedLater(seen, seen, op.ls, scn, from, mid, now, now);
      SyncedLater(h1, seen, op.ls, scn, old(now), old(now), mid, now);
      AnsweredLater(h1, seen, op.ls, op.members, op.syncMembers, old(now), mid, now);
      AnsweredEarlier(seen, op.ls, op.learners, op.syncLearners, old(now), mid, now);
      SilentJoin(net, op.ls, op.members, op.learners, old(now), mid, now);
      r := op.(hasList := up1 && up2, syncMembers := syncMembers, syncLearners := syncLearners);
      ok := (ok1 && ok2) || short == |op.members|;
    }

    /** The first half of switch_state: the leader and, where they are not known,
        the lists. `done` says that the leader is already in FLASHBACK mode, and
        `found` that the lists are known and are to be checked. */
    method FetchLists(ghost i: nat, op: CheckOp, scn: nat, ghost from: nat)
      returns (r: CheckOp, done: bool, found: bool)
      requires Truthful(net, seen, now) && from <= now && CheckInv(seen, i, op, scn, from, now)
      modifies `now, `seen
      ensures Truthful(net, seen, now) && now >= old(now) && After(old(seen), seen, old(now)) && r.ls == op.ls
      ensures forall o | o in seen && o !in old(seen) && o.LeaderAns? :: o.asker == i
      ensures CheckInv(seen, i, r, scn, from, now) && (found ==> r.hasList && !done)
      ensures done ==> AlreadyFlashback(seen, i, r.ls, old(now), now)
      ensures op.hasList ==> seen == old(seen) && (op.leader.Some? ==> found && r == op)
      ensures !op.hasList ==>
                var s := if op.leader.Some? then op.leader else net.leader(old(now), op.ls);
                var t := if op.leader.Some? then old(now) else old(now) + 1;
                if s.Some? && net.leaderStat(t, s.value, op.ls).Some?
                then var st := net.leaderStat(t, s.value, op.ls).value;
                     && seen == old(seen) + {LeaderAns(t, i, s.value, op.ls, st)} && r.leader == s
                     && (done <==> st.mode == FLASHBACK) && found == !done
                     && (found ==> r.members == st.members && r.learners == st.learners)
                else !done && !found && r.leader.None? && seen == old(seen)
      ensures forall l | Stable(net, op.ls, l, old(now)) ::
                FreshCheck(r, l) && (FreshCheck(op, l) ==> found || done)
    {
      r, done, found := op, false, false;
      ghost var h := seen;
      CheckInvLater(h, h, i, op, scn, from, now, now + 1);
      var leader := FindLeader(op.ls, op.leader);
      r := r.(leader := leader);
      if leader.None? { return; }
      if op.hasList {
        found := true;
        return;
      }
      var st := LeaderStat(i, op.ls, leader.value);
      SyncedLater(h, seen, op.ls, scn, from, from, old(now), now);
      if st.None? {
        r := r.(leader := None);
        return;
      }
      assert LeaderAns(now - 1, i, leader.value, op.ls, st.value) in seen;
      done := st.value.mode == FLASHBACK;
      if !done {
        r := r.(hasList := true, members := st.value.members, learners := st.value.learners);
        found := true;
        assert LastAsked(seen, i, from, now, now - 1);
      }
    }

    /** CheckLSLogSyncOperator::switch_state of operator number i. The lists are
        fetched again after a server did not answer; servers already seen in sync
        are remembered. */
    method SwitchCheck(ghost i: nat, op: CheckOp, scn: nat, ghost from: nat) returns (r: CheckOp, ok: bool)
      requires Truthful(net, seen, now) && from <= now && CheckInv(seen, i, op, scn, from, now)
      modifies `now, `seen
      ensures Truthful(net, seen, now) && now >= old(now) && After(old(seen), seen, old(now)) && r.ls == op.ls
      ensures forall o | o in seen && o !in old(seen) && o.LeaderAns? :: o.asker == i
      ensures CheckInv(seen, i, r, scn, from, now)
      ensures ok ==> CheckPassed(seen, i, r, scn, from, old(now), now)
      ensures forall o | o in seen && o !in old(seen) && o.LeaderAns? && o.st.mode == FLASHBACK :: ok
      ensures forall l | ReadyOn(net, op.ls, l, scn, from, old(now)) ::
                FreshCheck(r, l) && (FreshCheck(op, l) ==> ok)
    {
      var found;
      r, ok, found := FetchLists(i, op, scn, from);
      if !found { return; }
      ghost var start, h, op1 := now, seen, r;
      r, ok := CheckLists(i, r, scn, from);
      if ok {
        PassedLater(seen, seen, i, r, scn, from, old(now), start, now, now);
      }
      CheckReadyLists(net, h, i, op1, scn, from, old(now), start);
    }

    method MotivateCheck(ops: seq<CheckOp>, scn: nat, ghost from: nat) returns (rs: seq<CheckOp>, ok: bool)
      requires Truthful(net, seen, now) && from <= now && CheckInvs(seen, ops, scn, from, now)
      modifies `now, `seen
      ensures Truthful(net, seen, now) && now >= old(now) && After(old(seen), seen, old(now)) && |rs| == |ops|
      ensures CheckInvs(seen, rs, scn, from, now) && forall i | 0 <= i < |ops| :: rs[i].ls == ops[i].ls
      ensures ok ==> forall i | 0 <= i < |ops| :: CheckPassed(seen, i, rs[i], scn, from, old(now), now)
      ensures forall i | 0 <= i < |ops| && Ready(net, ops[i].ls, scn, from, old(now)) ::
                CheckReady(net, rs[i], scn, from, old(now))
      ensures ChecksReady(net, ops, scn, from, old(now)) ==> ok
    {
      rs, ok := ops, true;
      for i := 0 to |ops|
        invariant Truthful(net, seen, now) && now >= old(now) && After(old(seen), seen, old(now)) && |rs| == |ops|
        invariant CheckInvs(seen, rs, scn, from, now) && forall k | 0 <= k < |ops| :: rs[k].ls == ops[k].ls
        invariant forall k | i <= k < |ops| :: rs[k] == ops[k]
        invariant ok ==> forall k | 0 <= k < i :: CheckPassed(seen, k, rs[k], scn, from, old(now), now)
        invariant forall k | 0 <= k < i && Ready(net, ops[k].ls, scn, from, old(now)) ::
            CheckReady(net, rs[k], scn, from, old(now))
        invariant ChecksReady(net, ops, scn, from, old(now)) ==> ok
      {
        ghost var before, h := now, seen;
        assert rs[i] == ops[i] && ops[i] in ops;
        var r, good := SwitchCheck(i, rs[i], scn, from);
        forall l | ReadyOn(net, ops[i].ls, l, scn, from, old(now))
          ensures FreshCheck(r, l) && (FreshCheck(ops[i], l) ==> good)
        {
          ReadyLater(net, ops[i].ls, l, scn, from, old(now), before);
        }
        assert ChecksReady(net, ops, scn, from, old(now)) ==> CheckReady(net, ops[i], scn, from, old(now));
        forall k | 0 <= k < |ops| && k != i
          ensures CheckInv(seen, k, rs[k], scn, from, now)
          ensures k < i && ok ==> CheckPassed(seen, k, rs[k], scn, from, old(now), now)
        {
          CheckInvLater(h, seen, k, rs[k], scn, from, before, now);
          if k < i && ok {
            PassedLater(h, seen, k, rs[k], scn, from, old(now), old(now), before, now);
          }
        }
        if good {
          PassedLater(seen, seen, i, r, scn, from, old(now), before, now, now);
        }
        rs := rs[i := r];
        ok := ok && good;
      }
    }

    /** wait_all_ls_replicas_log_sync_. Whatever earlier passes met, it is enough
        that some pass but the last begins with all log streams ready. */
    method CheckStage(lsArray: seq<nat>, scn: nat, passes: nat)
      returns (ops: seq<CheckOp>, ret: Ret, ghost last: nat, ghost starts: seq<nat>)
      requires Truthful(net, seen, now)
      modifies `now, `seen
      ensures Truthful(net, seen, now) && After(old(seen), seen, old(now)) && old(now) <= last <= now && ret != Timeout
      ensures ret == Success ==> AllPassed(seen, lsArray, ops, scn, old(now), last, now)
      ensures forall t | t in starts :: old(now) <= t <= now
      ensures ret != Success ==> SyncStuck(net, lsArray, scn, old(now), passes, starts)
    {
      ops := seq(|lsArray|, i requires 0 <= i < |lsArray| => CheckOp(lsArray[i], None, false, [], [], {}, {}));
      ret, last, starts := OpNotAllow, now, [];
      var pass := 0;
      while pass < passes && ret == OpNotAllow
        invariant Truthful(net, seen, now) && After(old(seen), seen, old(now))
        invariant |starts| == pass <= passes && old(now) <= last <= now && ret != Timeout && |ops| == |lsArray|
        invariant CheckInvs(seen, ops, scn, old(now), now) && forall i | 0 <= i < |ops| :: ops[i].ls == lsArray[i]
        invariant ret == Success ==> AllPassed(seen, lsArray, ops, scn, old(now), last, now)
        invariant starts != [] ==> starts[|starts| - 1] == last
        invariant forall t | t in starts :: old(now) <= t <= now
        invariant ret == OpNotAllow ==>
            forall p: nat | p + 1 < |starts| :: !AllReady(net, lsArray, scn, old(now), starts[p])
        invariant ret == OpNotAllow && starts != [] && AllReady(net, lsArray, scn, old(now), last) ==>
            ChecksReady(net, ops, scn, old(now), last)
      {
        if starts != [] && AllReady(net, lsArray, scn, old(now), last) {
          ChecksLater(net, ops, scn, old(now), last, now);
        }
        last, starts, pass := now, starts + [now], pass + 1;
        var ok;
        ops, ok := MotivateCheck(ops, scn, old(now));
        if ok {
          ret := Success;
        }
      }
    }

    // Stage 4: have every replica truncate and acknowledge.

    /** ObLogFlashbackService::handle_flashback_resp: the first operator of the
        log stream and version takes the acknowledgement. */
    method HandleResp(ack: Ack)
      modifies `execOps
      ensures Took(old(execOps), execOps, ack)
    {
      var i := 0;
      while i < |execOps|
        invariant 0 <= i <= |execOps| && execOps == old(execOps)
        invariant forall j | 0 <= j < i :: !Matches(execOps[j], ack)
      {
        if Matches(execOps[i], ack) {
          execOps := execOps[i := Accept(execOps[i], ack)];
          return;
        }
        i := i + 1;
      }
    }

    /** The acknowledgements that arrived at time `heard`. */
    method Hear(ghost from: nat)
      requires from <= heard < now && Truthful(net, seen, now) && ExecInvs(seen, execOps, from, now)
      modifies `heard, `execOps, `seen
      ensures heard == old(heard) + 1 && AllGrew(old(execOps), execOps)
      ensures Truthful(net, seen, now) && NoLeaderAsked(old(seen), seen, old(heard))
      ensures ExecInvs(seen, execOps, from, now)
      ensures CountedSince(net, execOps, old(heard), heard)
    {
      var arrived := net.acks(heard);
      seen := seen + set ack | ack in arrived :: AckIn(heard, ack);
      ExecInvsLater(old(seen), seen, execOps, from, now, now);
      ghost var h := seen;
      for i := 0 to |arrived|
        invariant seen == h && heard == old(heard) && AllGrew(old(execOps), execOps)
        invariant ExecInvs(seen, execOps, from, now)
        invariant CountedFirst(execOps, arrived, i)
      {
        ghost var before := execOps;
        HandleResp(arrived[i]);
        assert AckIn(heard, arrived[i]) in seen;
        TookKeeps(h, before, execOps, arrived[i], from, heard, now);
        AllGrewStep(old(execOps), before, execOps);
        TookStep(before, execOps, arrived, i);
      }
      HeardAll(net, execOps, heard);
      heard := heard + 1;
    }

    /** All acknowledgements that have arrived by now. */
    method Deliver(ghost from: nat)
      requires Valid() && from <= heard && ExecInvs(seen, execOps, from, now)
      modifies `now, `heard, `execOps, `seen
      ensures Valid() && heard == now == old(now) + 1 && AllGrew(old(execOps), execOps)
      ensures NoLeaderAsked(old(seen), seen, old(heard)) && ExecInvs(seen, execOps, from, now)
      ensures CountedSince(net, execOps, old(heard), heard)
    {
      ExecInvsLater(seen, seen, execOps, from, now, now + 1);
      now := now + 1;
      while heard < now
        invariant old(heard) <= heard <= now == old(now) + 1 && AllGrew(old(execOps), execOps)
        invariant Truthful(net, seen, now) && NoLeaderAsked(old(seen), seen, old(heard))
        invariant ExecInvs(seen, execOps, from, now)
        invariant CountedSince(net, execOps, old(heard), heard)
      {
        ghost var before, mid := execOps, heard;
        Hear(from);
        CountedGrew(net, before, execOps, old(heard), mid, heard);
      }
    }

    /** flashback_list_: asks every server that has not acknowledged. */
    method TruncateList(op: ExecOp, scn: nat, list: seq<nat>, done: set<nat>) returns (ok: bool)
      requires Valid()
      modifies `now, `sent
      ensures Valid() && now >= old(now) && old(sent) <= sent && (ok <==> forall s | s in list :: s in done)
      ensures forall c | c in sent && c !in old(sent) ::
                Asks(c, op, scn) && c.to in list && c.to !in done && old(now) <= c.time
      ensures forall s | s in list && s !in done :: Told(sent - old(sent), op, s, scn)
    {
      ok := true;
      for i := 0 to |list|
        invariant now >= old(now) && old(sent) <= sent && (ok <==> forall k | 0 <= k < i :: list[k] in done)
        invariant forall c | c in sent && c !in old(sent) ::
                Asks(c, op, scn) && c.to in list && c.to !in done && old(now) <= c.time
        invariant forall k | 0 <= k < i && list[k] !in done :: Told(sent - old(sent), op, list[k], scn)
        invariant Valid()
      {
        if list[i] !in done {
          ok := false;
          ghost var before := sent;
          TellsLater(sent - old(sent), sent - old(sent) + {Truncate(now, list[i], op.ls, op.version, scn)}, op, scn);
          var c := Truncate(now, list[i], op.ls, op.version, scn);
          sent := sent + {c};
          now := now + 1;
          assert sent - old(sent) == before - old(sent) + {c} && c in sent - old(sent);
        }
      }
    }

    method TruncateLists(op: ExecOp, scn: nat) returns (ok: bool)
      requires Valid()
      modifies `now, `sent
      ensures Valid() && now >= old(now) && (op.hasList ==> (ok <==> Complete(op)))
      ensures old(sent) <= sent && forall c | c in sent && c !in old(sent) :: Asks(c, op, scn) && old(now) <= c.time
      ensures Requested(sent - old(sent), op, scn)
    {
      var ok1 := TruncateList(op, scn, op.members, op.doneMembers);
      ghost var mid := sent;
      var ok2 := TruncateList(op, scn, op.learners, op.doneLearners);
      TellsLater(mid - old(sent), sent - old(sent), op, scn);
      TellsLater(sent - mid, sent - old(sent), op, scn);
      ok := ok1 && ok2;
    }

    /** ExecuteFlashbackOperator::switch_state of operator number i. */
    method SwitchExec(ghost i: nat, op: ExecOp, scn: nat, ghost from: nat) returns (r: ExecOp, ok: bool)
      requires Valid() && from <= now && ExecInv(seen, i, op, from, now)
      modifies `now, `sent, `seen
      ensures Valid() && now >= old(now) && After(old(seen), seen, old(now)) && ExecInv(seen, i, r, from, now)
      ensures forall o | o in seen && o !in old(seen) && o.LeaderAns? :: o.asker == i
      ensures r.ls == op.ls && r.version == op.version
      ensures r.doneMembers == op.doneMembers && r.doneLearners == op.doneLearners
      ensures ok ==> Complete(r)
      ensures old(sent) <= sent && forall c | c in sent && c !in old(sent) :: Asks(c, op, scn) && old(now) <= c.time
      ensures op.hasList ==> r == op && (ok <==> Complete(op))
      ensures !op.hasList ==>
                var s := net.leader(old(now), op.ls);
                r.hasList <==> s.Some? && net.leaderStat(old(now) + 1, s.value, op.ls).Some?
      ensures Led(net, op.ls, old(now)) ==> r.hasList
      ensures Requested(sent - old(sent), r, scn)
    {
      r, ok := op, false;
      ghost var h := seen;
      ExecInvLater(h, h, i, op, from, now, now + 1);
      ExecInvLater(h, h, i, op, from, now, now + 2);
      var leader := FindLeader(op.ls, op.leader);
      r := r.(leader := leader);
      if leader.None? { return; }
      if !op.hasList {
        var st := LeaderStat(i, op.ls, leader.value);
        if st.None? {
          r := r.(leader := None);
          return;
        }
        assert LeaderAns(now - 1, i, leader.value, op.ls, st.value) in seen && LastAsked(seen, i, from, now, now - 1);
        r := r.(hasList := true, members := st.value.members, learners := st.value.learners);
      }
      ghost var start := now;
      ok := TruncateLists(r, scn);
      ExecInvLater(seen, seen, i, r, from, start, now);
    }

    /** The acknowledgements that have arrived, then one operator's turn. */
    method ExecTurn(i: nat, scn: nat, ghost from: nat, ghost since: nat, ghost hi: nat) returns (ok: bool)
      requires i < |execOps| && hi <= now
      requires Valid() && from <= heard && ExecInvs(seen, execOps, from, now) && AllRequested(sent, execOps, scn)
      modifies `now, `heard, `sent, `execOps, `seen
      ensures Valid() && now > old(now) && heard >= old(heard) && |execOps| == |old(execOps)|
      ensures After(old(seen), seen, old(heard)) && ExecInvs(seen, execOps, from, now)
      ensures forall k | 0 <= k < |execOps| && k != i :: Grew(old(execOps)[k], execOps[k])
      ensures SameTarget(old(execOps)[i], execOps[i]) && (ok ==> Complete(execOps[i]))
      ensures old(sent) <= sent && forall c | c in sent && c !in old(sent) ::
                Asks(c, old(execOps)[i], scn) && old(now) <= c.time
      ensures AllRequested(sent, execOps, scn)
      ensures old(execOps)[i].hasList || Led(net, old(execOps)[i].ls, old(now)) ==> execOps[i].hasList
      ensures Armed(net, old(execOps), since, old(heard)) ==>
                Armed(net, execOps, since, heard) && (Due(net, old(execOps), from, since, hi) ==> ok)
    {
      Deliver(from);
      ghost var start, h, delivered := now, seen, execOps;
      assert Grew(old(execOps)[i], execOps[i]);
      if Armed(net, old(execOps), since, old(heard)) {
        TurnDue(net, h, old(execOps), execOps, i, from, since, hi, old(heard), heard, now);
      }
      LedLater(net, execOps[i].ls, old(now), now);
      var r;
      r, ok := SwitchExec(i, execOps[i], scn, from);
      OthersKept(h, seen, delivered, i, from, start, now);
      RequestedLater(old(sent), sent, old(execOps), delivered, scn);
      execOps := execOps[i := r];
      assert old(execOps)[i].hasList ==> execOps == delivered;
    }

    method MotivateExec(scn: nat, ghost from: nat, ghost since: nat) returns (ok: bool)
      requires Valid() && from <= heard && ExecInvs(seen, execOps, from, now) && AllRequested(sent, execOps, scn)
      modifies `now, `heard, `sent, `execOps, `seen
      ensures Valid() && now >= old(now) && heard >= old(heard) && SameTargets(old(execOps), execOps)
      ensures old(execOps) != [] ==> now > old(now)
      ensures After(old(seen), seen, old(heard)) && ExecInvs(seen, execOps, from, now)
      ensures AllRequested(sent, execOps, scn)
      ensures ok ==> forall op | op in execOps :: Complete(op)
      ensures old(sent) <= sent && forall c | c in sent && c !in old(sent) ::
                AskedFor(c, old(execOps), scn) && old(now) <= c.time
      ensures (forall op | op in old(execOps) :: op.hasList || Led(net, op.ls, old(now))) ==> AllListed(execOps)
      ensures Armed(net, old(execOps), since, old(heard)) ==>
                Armed(net, execOps, since, heard) && (Due(net, old(execOps), from, since, old(now)) ==> ok)
    {
      ok := true;
      for i := 0 to |execOps|
        invariant Valid() && now >= old(now) && heard >= old(heard) && (i > 0 ==> now > old(now))
        invariant After(old(seen), seen, old(heard)) && ExecInvs(seen, execOps, from, now)
        invariant AllRequested(sent, execOps, scn)
        invariant Turned(net, old(execOps), execOps, i, old(now)) && (ok ==> FirstComplete(execOps, i))
        invariant old(sent) <= sent && forall c | c in sent && c !in old(sent) ::
                AskedFor(c, old(execOps), scn) && old(now) <= c.time
        invariant Armed(net, old(execOps), since, old(heard)) ==>
            Armed(net, execOps, since, heard) && (Due(net, old(execOps), from, since, old(now)) ==> ok)
      {
        assert old(execOps)[i] in old(execOps) && Grew(old(execOps)[i], execOps[i]);
        if Due(net, old(execOps), from, since, old(now)) {
          DueSame(net, old(execOps), execOps, from, since, old(now));
        }
        LedLater(net, execOps[i].ls, old(now), now);
        ghost var before := execOps;
        var good := ExecTurn(i, scn, from, since, old(now));
        TurnKeeps(net, old(execOps), before, execOps, i, old(now));
        ok := ok && good;
      }
    }

    /** A pass of the last stage. */
    method ExecPass(ghost ops: seq<ModeOp>, scn: nat, ghost from: nat, ghost past: seq<nat>, ghost since0: Option<nat>)
      returns (ok: bool, ghost since: Option<nat>)
      requires Valid() && from <= heard && Casts(ops, execOps) && ExecInvs(seen, execOps, from, now)
      requires AllRequested(sent, execOps, scn)
      requires Logged(net, ops, execOps, past, since0, from, heard, now) && AckStuck(net, ops, from, |past|, past)
      modifies `now, `heard, `sent, `execOps, `seen
      ensures Valid() && now >= old(now) && heard >= old(heard) && Casts(ops, execOps)
      ensures After(old(seen), seen, old(heard)) && ExecInvs(seen, execOps, from, now)
      ensures AllRequested(sent, execOps, scn)
      ensures ok ==> forall op | op in execOps :: Complete(op)
      ensures old(sent) <= sent && forall c | c in sent && c !in old(sent) ::
                AskedForMode(c, ops, scn) && old(now) <= c.time
      ensures Logged(net, ops, execOps, past + [old(now)], since, from, heard, now)
      ensures !ok ==> AckStuck(net, ops, from, |past| + 1, past + [old(now)])
    {
      RisingStep(past, from, now);
      since := if since0.None? && AllListed(execOps) then Some(|past|) else since0;
      ghost var starts := past + [now];
      ok := MotivateExec(scn, from, if since.Some? then starts[since.value] else 0);
      PassStep(net, ops, old(execOps), execOps, past, starts, since0, since, old(heard), heard, from, now, ok);
      AskedForSame(ops, old(execOps), scn);
    }

    /** do_flashback_: the operators take over the versions of the last mode pass. */
    method ExecStage(ops: seq<ModeOp>, scn: nat, passes: nat) returns (ret: Ret, ghost starts: seq<nat>)
      requires Valid()
      modifies `now, `heard, `sent, `execOps, `seen
      ensures Valid() && now >= old(now) && ret != Timeout && After(old(seen), seen, old(now))
      ensures Casts(ops, execOps) && AllRequested(sent, execOps, scn)
      ensures ret == Success ==> forall i | 0 <= i < |execOps| :: AllAcked(seen, i, execOps[i], old(now), now)
      ensures old(sent) <= sent && forall c | c in sent && c !in old(sent) ::
                AskedForMode(c, ops, scn) && old(now) <= c.time
      ensures Rising(starts, old(now), now) && (ops != [] ==> Paced(starts))
      ensures ret != Success ==> AckStuck(net, ops, old(now), passes, starts)
    {
      execOps, heard := Cast(ops), now;
      ret, starts := OpNotAllow, [];
      ghost var since: Option<nat> := None; // the pass by which all lists were known
      var pass := 0;
      while pass < passes && ret == OpNotAllow
        invariant Valid() && |starts| == pass <= passes && old(now) <= heard && ret != Timeout && Casts(ops, execOps)
        invariant After(old(seen), seen, old(now)) && ExecInvs(seen, execOps, old(now), now)
        invariant AllRequested(sent, execOps, scn)
        invariant ret == Success ==> forall op | op in execOps :: Complete(op)
        invariant old(sent) <= sent && forall c | c in sent && c !in old(sent) ::
                AskedForMode(c, ops, scn) && old(now) <= c.time
        invariant Logged(net, ops, execOps, starts, since, old(now), heard, now)
        invariant ret == OpNotAllow ==> AckStuck(net, ops, old(now), |starts|, starts)
      {
        ghost var begun := now;
        var ok;
        ok, since := ExecPass(ops, scn, old(now), starts, since);
        starts, pass := starts + [begun], pass + 1;
        if ok {
          ret := Success;
        }
      }
      CompleteIsAcked(seen, execOps, old(now), now);
      PacedPrefix(starts, now);
    }

    /** Stages 1 and 2. */
    method StopAndSync(lsArray: seq<nat>, scn: nat, passes: seq<nat>)
      returns (ret: Ret, ghost tl: Timeline, ghost made: Operators, ghost begun: Passes)
      requires Valid() && |passes| == 4
      modifies `now, `sent, `seen
      ensures Valid() && old(now) == tl.start && Ordered(tl) && tl.t2 == tl.l3 == tl.t3 == now
      ensures After(old(seen), seen, old(now)) && PassesOk(lsArray, begun, tl, now) && old(sent) <= sent
      ensures ret == Success ==> Stopped(seen, lsArray, scn, tl, made)
      ensures forall c | c in sent && c !in old(sent) :: Justified(seen, c, PREPARE_FLASHBACK)
      ensures Drove(net, seen, sent, lsArray, scn, tl, made, begun)
      ensures ret != Success ==> Stuck(net, seen, lsArray, scn, passes, tl, made, begun)
    {
      ghost var start := now;
      var ops;
      ghost var last, starts;
      ops, ret, last, starts := ChangeModeStage(lsArray, PREPARE_FLASHBACK, passes[0]);
      tl := Timeline(start, last, now, now, now, now, now);
      made, begun := Operators(ops, [], [], []), Passes(starts, [], [], []);
      if ret != Success { return; }
      ghost var h, sent1 := seen, sent;
      var checks;
      checks, ret, last, starts := CheckStage(lsArray, scn, passes[1]);
      DroveLater(net, h, seen, sent1, sent, lsArray, scn, tl, made, begun);
      tl := tl.(l2 := last, t2 := now, l3 := now, t3 := now);
      made, begun := made.(check := checks), begun.(check := starts);
      AllInModeLater(h, seen, lsArray, ops, PREPARE_FLASHBACK, tl.l1, tl.t1);
      SendsLater(h, seen, old(sent), sent, PREPARE_FLASHBACK, tl.start, tl.t1);
    }

    /** Stages 3 and 4. */
    method SwitchAndTruncate(lsArray: seq<nat>, scn: nat, passes: seq<nat>, ghost tl0: Timeline,
                             ghost made0: Operators, ghost begun0: Passes)
      returns (ret: Ret, ghost tl: Timeline, ghost made: Operators, ghost begun: Passes)
      requires Valid() && |passes| == 4 && Ordered(tl0) && tl0.t2 == tl0.l3 == tl0.t3 == now
      requires Stopped(seen, lsArray, scn, tl0, made0) && PassesOk(lsArray, begun0, tl0, now)
      requires Drove(net, seen, sent, lsArray, scn, tl0, made0, begun0)
      modifies this
      ensures Valid() && Ordered(tl) && tl == tl0.(l3 := tl.l3, t3 := tl.t3) && tl.t3 <= now
      ensures After(old(seen), seen, old(now)) && PassesOk(lsArray, begun, tl, now) && old(sent) <= sent
      ensures ret == Success ==> AllDone(seen, lsArray, scn, tl, made, now)
      ensures forall c | c in sent && c !in old(sent) :: CmdSafe(seen, c, lsArray, scn, tl, made)
      ensures Drove(net, seen, sent, lsArray, scn, tl, made, begun)
      ensures ret != Success ==> Stuck(net, seen, lsArray, scn, passes, tl, made, begun)
    {
      var ops;
      ghost var last, starts;
      ops, ret, last, starts := ChangeModeStage(lsArray, FLASHBACK, passes[2]);
      DroveLater(net, old(seen), seen, old(sent), sent, lsArray, scn, tl0, made0, begun0);
      tl := tl0.(l3 := last, t3 := now);
      made, begun := made0.(flash := ops, exec := []), begun0.(flash := starts, exec := []);
      StoppedLater(old(seen), seen, lsArray, scn, tl0, made0);
      if ret != Success { return; }
      ghost var h, sent3 := seen, sent;
      ret, starts := ExecStage(ops, scn, passes[3]);
      DroveLater(net, h, seen, sent3, sent, lsArray, scn, tl, made, begun);
      made, begun := made.(exec := execOps), begun.(exec := starts);
      StoppedLater(h, seen, lsArray, scn, tl, made);
      AllInModeLater(h, seen, lsArray, ops, FLASHBACK, tl.l3, tl.t3);
      SendsLater(h, seen, old(sent), sent3, FLASHBACK, tl.t2, tl.t3);
    }

    /** flashback, from the list of log streams on; `passes` gives how many
        passes each stage has before its time is up. If it fails, one stage made
        all its passes without meeting what it waits for. */
    method Run(lsArray: seq<nat>, scn: nat, passes: seq<nat>)
      returns (ret: Ret, ghost tl: Timeline, ghost made: Operators, ghost begun: Passes)
      requires Valid() && |passes| == 4
      modifies this
      ensures Valid() && old(now) == tl.start && Ordered(tl) && tl.t3 <= now && PassesOk(lsArray, begun, tl, now)
      ensures After(old(seen), seen, old(now))
      ensures ret == Success ==> AllDone(seen, lsArray, scn, tl, made, now)
      ensures forall c | c in sent && c !in old(sent) :: CmdSafe(seen, c, lsArray, scn, tl, made)
      ensures Drove(net, seen, sent, lsArray, scn, tl, made, begun)
      ensures ret != Success ==> Stuck(net, seen, lsArray, scn, passes, tl, made, begun)
    {
      ret, tl, made, begun := StopAndSync(lsArray, scn, passes);
      if ret != Success { return; }
      ghost var h, sent2 := seen, sent;
      ret, tl, made, begun := SwitchAndTruncate(lsArray, scn, passes, tl, made, begun);
      forall c | c in sent2 && c !in old(sent)
        ensures Justified(seen, c, PREPARE_FLASHBACK)
      {
        JustifiedLater(h, seen, c, PREPARE_FLASHBACK);
      }
    }
  }

  /** The point of an acknowledgement is not looked at: with every server up and in
      FLASHBACK mode, the flashback to `scn` succeeds whatever points the servers
      acknowledge, and a server has acknowledged `scn` just when its point is `scn`. */
  method ForeignPointsSuffice(ls: nat, version: nat, leader: nat, members: seq<nat>, learners: seq<nat>, scn: nat,
                              point: nat -> nat)
    returns (d: Service, ret: Ret, ghost tl: Timeline, ghost made: Operators)
    requires forall s | s in members :: s !in learners
    ensures ret == Success && AllDone(d.seen, [ls], scn, tl, made, d.now)
    ensures made.exec[0].version == version && made.exec[0].members == members && made.exec[0].learners == learners
    ensures forall s | s in members || s in learners ::
              AckedPoint(d.seen, ls, version, s, scn, tl.t3, d.now) <==> point(s) == scn
  {
    var st := Stat(FLASHBACK, version, members, learners, scn, scn);
    var all := members + learners;
    var acks := seq(|all|, i requires 0 <= i < |all| => Ack(all[i], ls, version, point(all[i]), true));
    var net := Net((_, _) => Some(leader), (_, s, _) => if s == leader then Some(st) else None, (_, _, _) => Some(st),
                   _ => acks);
    d := new Service(net);
    ghost var begun;
    ret, tl, made, begun := d.Run([ls], scn, [2, 2, 2, 3]);
    forall s | s in members || s in learners
      ensures Has(acks, s, ls, version)
    {
      assert s in all;
      var k :| 0 <= k < |all| && all[k] == s;
      assert acks[k].from == s;
    }
    assert Quiet(net, ls, leader, st, acks);
    QuietNotStuck(net, d.seen, ls, leader, st, acks, scn, tl, made, begun, d.now);
    QuietDone(net, d.seen, ls, leader, st, acks, scn, tl, made, d.now);
    forall s | s in members || s in learners
      ensures AckedPoint(d.seen, ls, version, s, scn, tl.t3, d.now) <==> point(s) == scn
    {
      assert AckedBy(d.seen, ls, version, s, tl.t3, d.now);
    }
  }

  /** Learners are not looked at while no member has reached the point: the check
      passes although every learner lags behind all along. */
  method LearnersAreSkipped(ls: nat, leader: nat, members: seq<nat>, learners: seq<nat>, scn: nat, end: nat, lag: nat)
    returns (d: Service, ops: seq<CheckOp>, ret: Ret)
    requires end < scn && forall s | s in members :: s !in learners
    ensures ret == Success && |ops| == 1 && ops[0].learners == learners
    ensures forall s | s in learners :: !Synced(d.seen, ls, s, scn, 0, d.now) && !Short(d.seen, ls, s, scn, 0, d.now)
  {
    var st := Stat(PREPARE_FLASHBACK, 0, members, learners, end, end);
    var net := Net((_, _) => Some(leader), (_, s, _) => if s == leader then Some(st) else None,
                   (_, s, _) => Some(if s in learners then st.(endScn := lag, maxScn := lag + 1) else st), _ => []);
    d := new Service(net);
    ghost var last, starts;
    ops, ret, last, starts := d.CheckStage([ls], scn, 2);
    assert Behind(net, ls, leader, st, scn);
    BehindNotStuck(net, ls, leader, st, scn, starts);
    BehindPassed(net, d.seen, ls, leader, st, scn, ops, last, d.now);
  }
}
