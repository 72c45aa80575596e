/** One replica's side of log stream garbage collection: the persisted GC state
    and the decisions taken on it. */
module GcHandler {
  import opened Common

  datatype GcState = NORMAL | LS_BLOCKED | WAIT_OFFLINE | LS_OFFLINE | WAIT_GC

  function Rank(s: GcState): nat {
    match s
    case NORMAL => 1
    case LS_BLOCKED => 2
    case WAIT_OFFLINE => 3
    case LS_OFFLINE => 4
    case WAIT_GC => 5
  }

  predicate BlockedFinished(s: GcState) {
    Rank(LS_BLOCKED) <= Rank(s)
  }

  predicate OfflineFinished(s: GcState) {
    Rank(LS_OFFLINE) <= Rank(s)
  }

  /** The GC part of the log stream meta. An absent SCN is an invalid one. */
  datatype LsMeta = LsMeta(state: GcState, offlineScn: Option<nat>)

  datatype LogKind = BLOCK_TABLET_TRANSFER_IN | OFFLINE_LS

  datatype Log = Log(kind: LogKind, scn: nat)

  /** Applying a log, by callback on the leader or by replay elsewhere. `ok` is
      false when blocking the stream or writing the new meta fails; the failure
      is logged and otherwise ignored. */
  function ApplyLog(m: LsMeta, log: Log, ok: bool): LsMeta {
    match log.kind
    case BLOCK_TABLET_TRANSFER_IN => if BlockedFinished(m.state) || !ok then m else LsMeta(LS_BLOCKED, None)
    case OFFLINE_LS => if OfflineFinished(m.state) || !ok then m else LsMeta(LS_OFFLINE, Some(log.scn))
  }

  datatype TenantRole = PRIMARY | STANDBY | RESTORE | CLONE

  datatype Progress = Progress(scn: nat, ignore: bool)

  /** What the other services answer during one check; an absent value is a
      failed query. */
  datatype Env = Env(readable: Option<nat>, delayRecycle: bool, inArchive: Option<bool>,
                     progress: Option<Progress>, dropping: Option<bool>, role: TenantRole,
                     delay: Option<int>, now: int, slogOk: bool)

  function ScnToTs(scn: nat): int {
    scn / 1000
  }

  /** The stream's last log is readable, and one of the archive, dropping,
      restore or delay conditions allows its status entry to go. */
  predicate MayDelete(offline: nat, env: Env) {
    && env.readable.Some? && offline <= env.readable.value
    && !env.delayRecycle
    && (|| (&& env.inArchive == Some(false)
            && (|| env.dropping == Some(true)
                || (env.dropping == Some(false) && (env.role == RESTORE || env.role == CLONE))
                || (env.dropping == Some(false) && env.delay.Some? && env.now - ScnToTs(offline) >= env.delay.value)))
        || (&& env.inArchive == Some(true)
            && env.progress.Some? && (env.progress.value.ignore || env.progress.value.scn >= offline)))
  }

  /** The meta after the check: `WAIT_GC` carries no offline SCN. */
  function AfterCheck(m: LsMeta, env: Env): LsMeta {
    if m.offlineScn.Some? && MayDelete(m.offlineScn.value, env) && env.slogOk then LsMeta(WAIT_GC, None) else m
  }

  class Handler {
    var state: GcState
    var offlineScn: Option<nat>

    constructor (m: LsMeta)
      ensures Meta() == m
    {
      state, offlineScn := m.state, m.offlineScn;
    }

    function Meta(): LsMeta
      reads this
    {
      LsMeta(state, offlineScn)
    }

    /** Only LS_OFFLINE may, and must, come with a valid SCN; the SCN stored
        before is replaced in every case. */
    method SetGcState(s: GcState, scn: Option<nat>, slogOk: bool) returns (ok: bool)
      modifies this
      ensures ok <==> (s == LS_OFFLINE <==> scn.Some?) && slogOk
      ensures Meta() == if ok then LsMeta(s, scn) else old(Meta())
    {
      if (s == LS_OFFLINE && scn.None?) || (s != LS_OFFLINE && scn.Some?) {
        return false;
      }
      if !slogOk {
        return false;
      }
      state, offlineScn := s, scn;
      return true;
    }

    method UpdateAfterLog(log: Log, blockAllOk: bool, slogOk: bool)
      modifies this
      ensures Meta() == ApplyLog(old(Meta()), log, slogOk && (log.kind == OFFLINE_LS || blockAllOk))
      ensures Meta() == if log.kind == BLOCK_TABLET_TRANSFER_IN && old(state) == NORMAL && blockAllOk && slogOk
                        then LsMeta(LS_BLOCKED, None)
                        else if log.kind == OFFLINE_LS && old(state) in {NORMAL, LS_BLOCKED, WAIT_OFFLINE} && slogOk
                        then LsMeta(LS_OFFLINE, Some(log.scn))
                        else old(Meta())
    {
      if log.kind == BLOCK_TABLET_TRANSFER_IN {
        if !BlockedFinished(state) && blockAllOk {
          var _ := SetGcState(LS_BLOCKED, None, slogOk);
        }
      } else if !OfflineFinished(state) {
        var _ := SetGcState(LS_OFFLINE, Some(log.scn), slogOk);
      }
    }

    /** A BLOCK_TABLET_TRANSFER_IN log waits on a standby until the tenant's
        readable SCN has passed the stream's decided SCN. */
    method Replay(log: Log, onStandby: bool, readablePassed: bool, blockAllOk: bool, slogOk: bool) returns (done: bool)
      modifies this
      ensures done <==> !(log.kind == BLOCK_TABLET_TRANSFER_IN && onStandby && !readablePassed)
      ensures Meta() == if done
                        then ApplyLog(old(Meta()), log, slogOk && (log.kind == OFFLINE_LS || blockAllOk))
                        else old(Meta())
    {
      if log.kind == BLOCK_TABLET_TRANSFER_IN && onStandby && !readablePassed {
        return false;
      }
      UpdateAfterLog(log, blockAllOk, slogOk);
      return true;
    }

    method SetWaitGc(slogOk: bool) returns (needDelete: bool)
      modifies this
      ensures needDelete
      ensures Meta() == if slogOk then LsMeta(WAIT_GC, None) else old(Meta())
    {
      var _ := SetGcState(WAIT_GC, None, slogOk);
      return true;
    }

    method CheckWhenArchiveIsOff(offline: nat, env: Env) returns (needDelete: bool)
      requires env.inArchive == Some(false) && env.readable.Some? && offline <= env.readable.value && !env.delayRecycle
      modifies this
      ensures needDelete <==> MayDelete(offline, env)
      ensures needDelete <==> && env.dropping.Some?
                              && (|| env.dropping.value
                                  || env.role == RESTORE || env.role == CLONE
                                  || (env.delay.Some? && env.now - offline / 1000 >= env.delay.value))
      ensures Meta() == if needDelete && env.slogOk then LsMeta(WAIT_GC, None) else old(Meta())
    {
      needDelete := false;
      if env.dropping.None? {
      } else if env.dropping.value {
        needDelete := SetWaitGc(env.slogOk);
      } else if env.role == RESTORE || env.role == CLONE {
        needDelete := SetWaitGc(env.slogOk);
      } else if env.delay.None? {
      } else if env.now - ScnToTs(offline) >= env.delay.value {
        needDelete := SetWaitGc(env.slogOk);
      }
    }

    /** Deletion needs the offline SCN readable and recycling not delayed, and then
        the archive to have passed the SCN or, without archive, a tenant that is
        being dropped, restored or cloned, or the delay to be over. */
    method TryCheckAndSetWaitGc(env: Env) returns (needDelete: bool)
      modifies this
      ensures needDelete <==> old(offlineScn).Some? && MayDelete(old(offlineScn).value, env)
      ensures needDelete ==>
                && old(offlineScn).Some? && env.readable.Some? && old(offlineScn).value <= env.readable.value
                && !env.delayRecycle && env.inArchive.Some?
      ensures needDelete && env.inArchive == Some(true) ==>
                env.progress.Some? && (env.progress.value.ignore || env.progress.value.scn >= old(offlineScn).value)
      ensures needDelete && env.inArchive == Some(false) ==>
                && env.dropping.Some?
                && (|| env.dropping.value || env.role == RESTORE || env.role == CLONE
                    || (env.delay.Some? && env.now - old(offlineScn).value / 1000 >= env.delay.value))
      ensures old(offlineScn).Some? && env.readable.Some? && old(offlineScn).value <= env.readable.value ==>
                (!env.delayRecycle ==>
                   && (env.inArchive == Some(true) ==>
                         (env.progress.Some? ==>
                            (env.progress.value.ignore || env.progress.value.scn >= old(offlineScn).value ==>
                               needDelete)))
                   && (env.inArchive == Some(false) ==>
                         && (env.dropping == Some(true) ==> needDelete)
                         && (env.dropping == Some(false) ==>
                               && (env.role == RESTORE || env.role == CLONE ==> needDelete)
                               && (env.delay.Some? ==>
                                     env.now - old(offlineScn).value / 1000 >= env.delay.value ==> needDelete))))
      ensures Meta() == AfterCheck(old(Meta()), env)
      ensures Meta() == if needDelete && env.slogOk then LsMeta(WAIT_GC, None) else old(Meta())
    {
      needDelete := false;
      if env.readable.None? || offlineScn.None? {
      } else if env.readable.value < offlineScn.value {
      } else if env.delayRecycle {
      } else if env.inArchive.None? {
      } else if !env.inArchive.value {
        needDelete := CheckWhenArchiveIsOff(offlineScn.value, env);
      } else if env.progress.None? {
      } else if env.progress.value.ignore {
        needDelete := SetWaitGc(env.slogOk);
      } else if env.progress.value.scn >= offlineScn.value {
        needDelete := SetWaitGc(env.slogOk);
      }
    }

    /** One GC round in status LS_WAIT_OFFLINE; `append` is the log the leader
        wrote, if its callback succeeded, and `storeOk` says whether the callback
        could store LS_OFFLINE. Storing WAIT_GC later in the round fails or not on
        its own, by `env.slogOk`. */
    method HandleGcLsOffline(palfLeader: bool, append: Option<Log>, storeOk: bool, env: Env)
      returns (submits: bool, needDelete: bool)
      requires append.Some? ==> append.value.kind == OFFLINE_LS
      modifies this
      ensures submits <==> palfLeader && old(state) in {LS_BLOCKED, WAIT_OFFLINE}
      ensures var m := if submits && append.Some? then ApplyLog(old(Meta()), append.value, storeOk) else old(Meta());
              && (needDelete <==> && palfLeader
                                  && (m.state == WAIT_GC
                                      || ((m.state == LS_OFFLINE || (submits && append.Some?))
                                          && m.offlineScn.Some? && MayDelete(m.offlineScn.value, env))))
              && Meta() == if palfLeader && (m.state == LS_OFFLINE || (submits && append.Some?))
                           then AfterCheck(m, env) else m
    {
      submits, needDelete := false, false;
      if !palfLeader {
      } else if !BlockedFinished(state) {
      } else if state == WAIT_GC {
        needDelete := true;
      } else if state == LS_OFFLINE {
        needDelete := TryCheckAndSetWaitGc(env);
      } else {
        submits := true;
        if append.Some? {
          UpdateAfterLog(append.value, true, storeOk);
          needDelete := TryCheckAndSetWaitGc(env);
        }
      }
    }
  }
}
