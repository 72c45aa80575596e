/** The replicas as objects: every step of the replicated protocol is what the
    handlers' own methods do. */
module GcCluster {
  import opened Common
  import opened GcHandler
  import opened GcReplication

  /** A replica after it has written a log as number `index` and made a round. */
  function AfterWriting(x: Replica, log: Log, index: nat, ok: bool, env: Env): Replica {
    var y := x.(meta := ApplyLog(x.meta, log, ok), applied := Max(x.applied, index + 1), pending := None);
    if OfflineFinished(y.meta.state) then AfterRound(y, env) else y
  }

  lemma WritingSteps(s: System, r: nat, scn: nat, ok: bool, env: Env)
    requires Enabled(s, Append(r, OFFLINE_LS, scn))
    ensures var log := Log(OFFLINE_LS, scn);
            var t := Do(Do(s, Append(r, OFFLINE_LS, scn)), CallbackSuccess(r, ok));
            (if OfflineFinished(t.replicas[r].meta.state) then Do(t, Check(r, env)) else t) ==
            System(s.stream + [log], s.leader, s.replicas[r := AfterWriting(s.replicas[r], log, |s.stream|, ok, env)])
  {
    var s1 := Do(s, Append(r, OFFLINE_LS, scn));
    var t := Do(s1, CallbackSuccess(r, ok));
    assert t.replicas == s.replicas[r := t.replicas[r]];
  }

  class Node {
    const handler: Handler
    var applied: nat
    var pending: Option<nat>
    var gate: Option<Gate>
    var deletes: bool

    constructor ()
      ensures View() == Replica(LsMeta(NORMAL, None), 0, None, None, false) && fresh(handler)
    {
      handler := new Handler(LsMeta(NORMAL, None));
      applied, pending, gate, deletes := 0, None, None, false;
    }

    function View(): Replica
      reads this, handler
    {
      Replica(handler.Meta(), applied, pending, gate, deletes)
    }

    /** The commit callback of the node's own log. */
    method OnSuccess(log: Log, ok: bool)
      requires pending.Some?
      modifies this, handler
      ensures View() == var x := old(View());
                        x.(meta := ApplyLog(x.meta, log, ok), applied := Max(x.applied, x.pending.value + 1),
                           pending := None)
    {
      handler.UpdateAfterLog(log, ok, ok);
      applied, pending := Max(applied, pending.value + 1), None;
    }

    /** A log held back on a standby is not applied and will come again. */
    method OnReplay(log: Log, index: nat, onStandby: bool, readablePassed: bool, ok: bool) returns (done: bool)
      modifies this, handler
      ensures done <==> !(log.kind == BLOCK_TABLET_TRANSFER_IN && onStandby && !readablePassed)
      ensures View() == var x := old(View());
                        if done then x.(meta := ApplyLog(x.meta, log, ok), applied := Max(x.applied, index + 1)) else x
    {
      done := handler.Replay(log, onStandby, readablePassed, ok, ok);
      if done {
        applied := Max(applied, index + 1);
      }
    }

    /** The meta survives a restart; what was applied after the checkpoint comes again. */
    method OnRestart(checkpoint: nat)
      modifies this
      ensures View() == old(View()).(applied := checkpoint, pending := None, deletes := false)
    {
      applied, pending, deletes := checkpoint, None, false;
    }

    /** A round in status LS_WAIT_OFFLINE of a replica that need not write a log. */
    method Round(env: Env)
      requires OfflineFinished(handler.state)
      modifies this, handler
      ensures View() == AfterRound(old(View()), env)
    {
      var x := View();
      var _, needDelete := handler.HandleGcLsOffline(true, None, true, env);
      if needDelete {
        deletes := true;
        if x.meta.state != WAIT_GC {
          gate := Some(Gate(x.meta.offlineScn.value, env));
        }
      }
    }

    /** A round in which the leader writes its OFFLINE_LS log as number `index`. */
    method WritingRound(log: Log, index: nat, ok: bool, env: Env)
      requires log.kind == OFFLINE_LS && Submits(handler.state, OFFLINE_LS) && MetaOk(handler.Meta())
      modifies this, handler
      ensures View() == AfterWriting(old(View()), log, index, ok, env)
    {
      var _, needDelete := handler.HandleGcLsOffline(true, Some(log), ok, env);
      applied, pending := Max(applied, index + 1), None;
      if needDelete {
        deletes, gate := true, Some(Gate(log.scn, env));
      }
    }
  }

  class Cluster {
    const nodes: map<nat, Node>
    var stream: seq<Log>
    var leader: Option<nat>

    ghost predicate Valid()
    {
      forall q, r | q in nodes && r in nodes && q != r :: nodes[q] != nodes[r] && nodes[q].handler != nodes[r].handler
    }

    ghost function Handlers(): set<Handler> {
      set r | r in nodes :: nodes[r].handler
    }

    constructor (nodes: map<nat, Node>)
      requires forall r | r in nodes :: nodes[r].View() == Replica(LsMeta(NORMAL, None), 0, None, None, false)
      requires forall q, r | q in nodes && r in nodes && q != r ::
                 nodes[q] != nodes[r] && nodes[q].handler != nodes[r].handler
      ensures Valid() && Init(View()) && this.nodes == nodes
    {
      this.nodes, stream, leader := nodes, [], None;
    }

    function View(): System
      reads this, nodes.Values, Handlers()
    {
      System(stream, leader, map r | r in nodes :: nodes[r].View())
    }

    /** Only node r has changed since the cluster looked like s. */
    ghost predicate Only(r: nat, s: System)
      requires r in nodes
      reads this, nodes.Values, Handlers()
    {
      s.replicas.Keys == nodes.Keys && forall q | q in nodes && q != r :: nodes[q].View() == s.replicas[q]
    }

    lemma Assemble(r: nat, s: System)
      requires r in nodes && Only(r, s)
      ensures View().replicas == s.replicas[r := nodes[r].View()]
    {
    }

    method Append(r: nat, kind: LogKind, scn: nat)
      requires Valid() && Enabled(View(), Action.Append(r, kind, scn))
      modifies this, nodes.Values, Handlers()
      ensures View() == Do(old(View()), Action.Append(r, kind, scn))
    {
      ghost var s := View();
      nodes[r].pending := Some(|stream|);
      stream := stream + [Log(kind, scn)];
      Assemble(r, s);
    }

    method CallbackSuccess(r: nat, ok: bool)
      requires Valid() && Enabled(View(), Action.CallbackSuccess(r, ok))
      modifies this, nodes.Values, Handlers()
      ensures View() == Do(old(View()), Action.CallbackSuccess(r, ok))
    {
      ghost var s := View();
      nodes[r].OnSuccess(stream[nodes[r].pending.value], ok);
      Assemble(r, s);
      assert View().replicas == Do(s, Action.CallbackSuccess(r, ok)).replicas;
    }

    method Replay(r: nat, index: nat, ok: bool)
      requires Valid() && Enabled(View(), Action.Replay(r, index, ok))
      modifies this, nodes.Values, Handlers()
      ensures View() == Do(old(View()), Action.Replay(r, index, ok))
    {
      ghost var s := View();
      var _ := nodes[r].OnReplay(stream[index], index, false, true, ok);
      Assemble(r, s);
      assert View().replicas == Do(s, Action.Replay(r, index, ok)).replicas;
    }

    method CallbackFailure(r: nat)
      requires Valid() && Enabled(View(), Action.CallbackFailure(r))
      modifies this, nodes.Values, Handlers()
      ensures View() == Do(old(View()), Action.CallbackFailure(r))
    {
      ghost var s := View();
      leader := Without(leader, r);
      nodes[r].pending := None;
      Assemble(r, s);
    }

    method Restart(r: nat, checkpoint: nat)
      requires Valid() && Enabled(View(), Action.Restart(r, checkpoint))
      modifies this, nodes.Values, Handlers()
      ensures View() == Do(old(View()), Action.Restart(r, checkpoint))
    {
      ghost var s := View();
      leader := Without(leader, r);
      nodes[r].OnRestart(checkpoint);
      Assemble(r, s);
    }

    method Check(r: nat, env: Env)
      requires Valid() && Enabled(View(), Action.Check(r, env))
      modifies this, nodes.Values, Handlers()
      ensures View() == Do(old(View()), Action.Check(r, env))
    {
      ghost var s := View();
      nodes[r].Round(env);
      Assemble(r, s);
    }

    method DeleteEntry(r: nat)
      requires Valid() && Enabled(View(), Action.DeleteEntry(r))
      modifies this, nodes.Values, Handlers()
      ensures View() == Do(old(View()), Action.DeleteEntry(r))
    {
      ghost var s := View();
      nodes[r].deletes := false;
      Assemble(r, s);
    }

    /** Every enabled step, carried out by the handlers, is a step of the protocol. */
    method Step(a: Action)
      requires Valid() && Enabled(View(), a)
      modifies this, nodes.Values, Handlers()
      ensures View() == Do(old(View()), a)
    {
      match a
      case LoseLeader => leader := None;
      case BecomeLeader(r) => leader := Some(r);
      case Append(r, kind, scn) => Append(r, kind, scn);
      case CallbackSuccess(r, ok) => CallbackSuccess(r, ok);
      case Replay(r, index, ok) => Replay(r, index, ok);
      case Check(r, env) => Check(r, env);
      case DeleteEntry(r) => DeleteEntry(r);
      case CallbackFailure(r) => CallbackFailure(r);
      case Restart(r, checkpoint) => Restart(r, checkpoint);
    }

    method Write(r: nat, log: Log, ok: bool, env: Env)
      requires Valid() && r in nodes && log.kind == OFFLINE_LS
      requires Submits(nodes[r].handler.state, OFFLINE_LS) && MetaOk(nodes[r].handler.Meta())
      modifies this, nodes.Values, Handlers()
      ensures View() == var s := old(View());
                        var x := AfterWriting(s.replicas[r], log, |s.stream|, ok, env);
                        System(s.stream + [log], s.leader, s.replicas[r := x])
    {
      ghost var s := View();
      nodes[r].WritingRound(log, |stream|, ok, env);
      stream := stream + [log];
      Assemble(r, s);
    }

    /** One round of the code in which the leader writes its OFFLINE_LS log is the
        steps append, callback and, once offline, check. */
    method WritingRound(r: nat, scn: nat, ok: bool, env: Env)
      requires Valid() && Enabled(View(), Action.Append(r, OFFLINE_LS, scn)) && MetaOk(nodes[r].handler.Meta())
      modifies this, nodes.Values, Handlers()
      ensures var s := Do(old(View()), Action.Append(r, OFFLINE_LS, scn));
              var t := Do(s, Action.CallbackSuccess(r, ok));
              View() == if OfflineFinished(t.replicas[r].meta.state) then Do(t, Action.Check(r, env)) else t
    {
      WritingSteps(View(), r, scn, ok, env);
      Write(r, Log(OFFLINE_LS, scn), ok, env);
    }

    /** A schedule, of which the steps that are not enabled are skipped, is a run of
        the protocol, so all that holds of runs holds of the handlers. */
    method Drive(schedule: seq<Action>) returns (ghost states: seq<System>, ghost actions: seq<Action>)
      requires Valid() && Init(View())
      modifies this, nodes.Values, Handlers()
      ensures Run(states, actions) && states[|actions|] == View()
    {
      states, actions := [View()], [];
      for i := 0 to |schedule|
        invariant Run(states, actions) && states[|actions|] == View()
      {
        var a := schedule[i];
        if Enabled(View(), a) {
          RunExtends(states, actions, a);
          Step(a);
          states, actions := states + [View()], actions + [a];
        }
      }
    }
  }
}
