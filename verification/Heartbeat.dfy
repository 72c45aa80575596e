/** The root service epoch kept by a server: concurrent heartbeat handlers load
    it, compare, and install a newer one by compare-and-swap. */
module Heartbeat {
  import opened Common

  /** A handler that has loaded the stored epoch for a request of `epoch`. */
  datatype Handler = Handler(epoch: int, seen: int)

  datatype State = State(stored: int, handlers: map<nat, Handler>)

  datatype Action =
    | Load(t: nat, epoch: int)
    | Decide(t: nat)

  datatype Ret = Success | NeedRetry | RsNotMaster

  predicate ValidEpoch(epoch: int) {
    epoch < INVALID_PROPOSAL_ID
  }

  predicate Enabled(s: State, a: Action) {
    match a
    case Load(t, epoch) => t !in s.handlers && ValidEpoch(epoch)
    case Decide(t) => t in s.handlers
  }

  predicate Newer(h: Handler) {
    h.seen < h.epoch || h.seen == INVALID_PROPOSAL_ID
  }

  function Verdict(s: State, t: nat): Ret
    requires t in s.handlers
  {
    var h := s.handlers[t];
    if Newer(h) then if s.stored == h.seen then Success else NeedRetry
    else if h.seen > h.epoch then RsNotMaster
    else Success
  }

  function Do(s: State, a: Action): State
    requires Enabled(s, a)
  {
    match a
    case Load(t, epoch) => s.(handlers := s.handlers[t := Handler(epoch, s.stored)])
    case Decide(t) =>
      var h := s.handlers[t];
      State(if Newer(h) && s.stored == h.seen then h.epoch else s.stored, s.handlers - {t})
  }

  ghost predicate Run(states: seq<State>, actions: seq<Action>) {
    && |states| == |actions| + 1
    && states[0] == State(INVALID_PROPOSAL_ID, map[])
    && forall i: nat | i < |actions| :: Taken(states, actions, i)
  }

  ghost predicate Taken(states: seq<State>, actions: seq<Action>, i: nat)
    requires i < |actions| && |states| == |actions| + 1
  {
    Enabled(states[i], actions[i]) && states[i + 1] == Do(states[i], actions[i])
  }

  /** The epoch stored when handler t loaded it, at some moment before n. */
  ghost predicate LoadedAt(states: seq<State>, n: nat, t: nat, m: nat)
    requires m <= n < |states| && t in states[n].handlers
  {
    && states[m].stored == states[n].handlers[t].seen
    && forall k | m < k <= n :: t in states[k].handlers && states[k].handlers[t] == states[n].handlers[t]
  }

  lemma {:induction false} HandlersOk(states: seq<State>, actions: seq<Action>, n: nat)
    requires Run(states, actions) && n < |states|
    ensures states[n].stored == INVALID_PROPOSAL_ID || ValidEpoch(states[n].stored)
    ensures forall t | t in states[n].handlers :: ValidEpoch(states[n].handlers[t].epoch)
  {
    if n > 0 {
      HandlersOk(states, actions, n - 1);
      assert Taken(states, actions, n - 1);
    }
  }

  lemma {:induction false} WasLoaded(states: seq<State>, actions: seq<Action>, n: nat, t: nat) returns (m: nat)
    requires Run(states, actions) && n < |states| && t in states[n].handlers
    ensures m < n && LoadedAt(states, n, t, m)
  {
    assert n > 0;
    assert Taken(states, actions, n - 1);
    if actions[n - 1].Load? && actions[n - 1].t == t {
      m := n - 1;
    } else {
      m := WasLoaded(states, actions, n - 1, t);
    }
  }

  /** Once valid, the stored epoch never decreases and stays valid. */
  lemma {:induction false} EpochNeverDecreases(states: seq<State>, actions: seq<Action>, i: nat, j: nat)
    requires Run(states, actions) && i <= j < |states| && states[i].stored != INVALID_PROPOSAL_ID
    ensures states[i].stored <= states[j].stored && states[j].stored != INVALID_PROPOSAL_ID
    decreases j
  {
    if i < j {
      EpochNeverDecreases(states, actions, i, j - 1);
      HandlersOk(states, actions, j - 1);
      assert Taken(states, actions, j - 1);
    }
  }

  /** What a heartbeat gets depends on the epoch stored when it loaded it, at m, and
      on whether that is still the one stored: older is turned away, equal passes,
      and newer passes and is stored unless another one was stored in between. */
  lemma VerdictIsExact(states: seq<State>, actions: seq<Action>, n: nat) returns (m: nat)
    requires Run(states, actions) && n < |actions| && actions[n].Decide? && actions[n].t in states[n].handlers
    ensures m < n && LoadedAt(states, n, actions[n].t, m)
    ensures var e, was, verdict := states[n].handlers[actions[n].t].epoch, states[m].stored,
                                   Verdict(states[n], actions[n].t);
            if was == INVALID_PROPOSAL_ID || was < e
            then if states[n].stored == was
                 then verdict == Success && states[n + 1].stored == e
                 else verdict == NeedRetry && states[n + 1].stored == states[n].stored
            else && verdict == (if e < was then RsNotMaster else Success)
                 && states[n + 1].stored == states[n].stored
  {
    m := WasLoaded(states, actions, n, actions[n].t);
    assert Taken(states, actions, n);
  }

  /** A heartbeat that passes carried the epoch stored at some moment between
      its load and its end. */
  lemma PassedWithStoredEpoch(states: seq<State>, actions: seq<Action>, n: nat) returns (m: nat)
    requires Run(states, actions) && n < |actions| && actions[n].Decide?
    requires actions[n].t in states[n].handlers && Verdict(states[n], actions[n].t) == Success
    ensures m <= n + 1 && states[m].stored == states[n].handlers[actions[n].t].epoch
    ensures m <= n ==> LoadedAt(states, n, actions[n].t, m)
  {
    var t := actions[n].t;
    assert Taken(states, actions, n);
    if Newer(states[n].handlers[t]) {
      m := n + 1;
    } else {
      m := WasLoaded(states, actions, n, t);
    }
  }

  /** A heartbeat turned away as coming from an old leader is older than the
      stored epoch, then and ever after. */
  lemma RejectedIsStale(states: seq<State>, actions: seq<Action>, n: nat, j: nat)
    requires Run(states, actions) && n < |actions| && n <= j < |states| && actions[n].Decide?
    requires actions[n].t in states[n].handlers && Verdict(states[n], actions[n].t) == RsNotMaster
    ensures states[n].handlers[actions[n].t].epoch < states[j].stored != INVALID_PROPOSAL_ID
  {
    var m := WasLoaded(states, actions, n, actions[n].t);
    EpochNeverDecreases(states, actions, m, j);
  }
}
