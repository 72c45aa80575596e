/** Appending through the log handler while its role changes and it goes
    offline, online and down. An append loads the proposal id before it takes
    the handler's lock. */
module LogHandler {
  import opened Common

  datatype Role = LEADER | FOLLOWER

  datatype Handler = Handler(role: Role, proposalId: int, isOffline: bool, isInStopState: bool)

  datatype Palf = Palf(isLeader: bool, proposalId: int)

  /** An append: about to load the proposal id, or to try with the one loaded. */
  datatype Append = Start(nonblock: bool) | Loaded(proposalId: int, nonblock: bool)

  /** `reported`: the proposal id of the last role change. */
  datatype State = State(handler: Handler, palf: Palf, reported: int, appends: map<nat, Append>)

  datatype Ret = Success | NotRunning | NotMaster | Again | Failed

  datatype Action =
    | Begin(t: nat, nonblock: bool)
    | Load(t: nat)
    | Attempt(t: nat, palfRet: Ret) // palfRet: what palf answers to a leader's append
    | SwitchRole(role: Role, proposalId: int)
    | Offline
    | Online
    | Stop
    | PalfChanges(isLeader: bool, proposalId: int)

  predicate Enabled(s: State, a: Action) {
    match a
    case Begin(t, _) => t !in s.appends
    case Load(t) => t in s.appends && s.appends[t].Start?
    case Attempt(t, _) => t in s.appends && s.appends[t].Loaded?
    // palf's ids only grow, and a role change brings one palf had, perhaps has no more
    case SwitchRole(_, id) => s.reported <= id <= s.palf.proposalId
    case PalfChanges(_, id) => s.palf.proposalId <= id < INVALID_PROPOSAL_ID
    case _ => true
  }

  /** What one attempt of append t returns. */
  function Outcome(s: State, t: nat, palfRet: Ret): Ret
    requires t in s.appends && s.appends[t].Loaded?
  {
    if s.handler.isInStopState || s.handler.isOffline then NotRunning
    else if s.handler.role != LEADER then NotMaster
    else if !s.palf.isLeader || s.palf.proposalId != s.appends[t].proposalId then NotMaster
    else palfRet
  }

  function Do(s: State, a: Action): State
    requires Enabled(s, a)
  {
    match a
    case Begin(t, nonblock) => s.(appends := s.appends[t := Start(nonblock)])
    case Load(t) => s.(appends := s.appends[t := Loaded(s.handler.proposalId, s.appends[t].nonblock)])
    case Attempt(t, palfRet) =>
      if !s.appends[t].nonblock && Outcome(s, t, palfRet) == Again
      then s.(appends := s.appends[t := Start(false)])
      else s.(appends := s.appends - {t})
    case SwitchRole(role, id) => s.(handler := s.handler.(role := role, proposalId := id), reported := id)
    case Offline => s.(handler := s.handler.(proposalId := INVALID_PROPOSAL_ID, isOffline := true))
    // the stop flag is tested before the lock is taken, so a stop may come first
    case Online => s.(handler := s.handler.(proposalId := INVALID_PROPOSAL_ID, isOffline := false, role := FOLLOWER))
    case Stop => s.(handler := s.handler.(isInStopState := true))
    case PalfChanges(isLeader, id) => s.(palf := Palf(isLeader, id))
  }

  ghost predicate Init(s: State) {
    && s.handler == Handler(FOLLOWER, INVALID_PROPOSAL_ID, true, false)
    && s.appends == map[] && s.reported <= s.palf.proposalId < INVALID_PROPOSAL_ID
  }

  ghost predicate Run(states: seq<State>, actions: seq<Action>) {
    && |states| == |actions| + 1
    && Init(states[0])
    && forall i: nat | i < |actions| :: Taken(states, actions, i)
  }

  ghost predicate Taken(states: seq<State>, actions: seq<Action>, i: nat)
    requires i < |actions| && |states| == |actions| + 1
  {
    Enabled(states[i], actions[i]) && states[i + 1] == Do(states[i], actions[i])
  }

  ghost predicate Succeeds(states: seq<State>, actions: seq<Action>, n: nat)
    requires n < |actions| && |states| == |actions| + 1
  {
    && actions[n].Attempt? && Enabled(states[n], actions[n])
    && Outcome(states[n], actions[n].t, actions[n].palfRet) == Success
  }

  /** The handler's id, unless invalid, is the last one reported, and no id loaded
      by an append is newer. */
  ghost predicate Inv(s: State) {
    && s.reported <= s.palf.proposalId < INVALID_PROPOSAL_ID
    && (s.handler.proposalId == INVALID_PROPOSAL_ID || s.handler.proposalId == s.reported)
    && (s.handler.role == LEADER && !s.handler.isOffline ==> s.handler.proposalId == s.reported)
    && forall t | t in s.appends && s.appends[t].Loaded? ::
         s.appends[t].proposalId == INVALID_PROPOSAL_ID || s.appends[t].proposalId <= s.reported
  }

  lemma {:induction false} RunKeepsInv(states: seq<State>, actions: seq<Action>, n: nat)
    requires Run(states, actions) && n < |states|
    ensures Inv(states[n])
  {
    if n > 0 {
      RunKeepsInv(states, actions, n - 1);
      assert Taken(states, actions, n - 1);
    }
  }

  /** A successful append used the proposal id that palf and the handler both
      have at that moment, however long ago it loaded it, and the handler was
      then leader, online and running. */
  lemma AppendIsCurrent(states: seq<State>, actions: seq<Action>, n: nat)
    requires Run(states, actions) && n < |actions| && Succeeds(states, actions, n)
    ensures var s := states[n];
            && s.appends[actions[n].t].proposalId == s.palf.proposalId == s.handler.proposalId
            && s.palf.isLeader && s.handler.role == LEADER && !s.handler.isOffline && !s.handler.isInStopState
  {
    RunKeepsInv(states, actions, n);
  }

  /** The converse, and every refusal: an attempt of a running, online leader with the
      id palf has gets palf's answer, and ends the append unless it blocks and is to
      try again; any other attempt is refused. */
  lemma AttemptIsExact(states: seq<State>, actions: seq<Action>, n: nat)
    requires Run(states, actions) && n < |actions| && actions[n].Attempt?
    ensures var s, t, palfRet := states[n], actions[n].t, actions[n].palfRet;
            && t in s.appends && s.appends[t].Loaded?
            && var ret := Outcome(s, t, palfRet);
               var up := !s.handler.isInStopState && !s.handler.isOffline;
               var current := s.palf.isLeader && s.palf.proposalId == s.appends[t].proposalId;
            && (!up ==> ret == NotRunning)
            && (up && !(s.handler.role == LEADER && current) ==> ret == NotMaster)
            && (up && s.handler.role == LEADER && current ==> ret == palfRet)
            && (if ret == Again && !s.appends[t].nonblock
                then t in states[n + 1].appends && states[n + 1].appends[t] == Start(false)
                else t !in states[n + 1].appends)
  {
    assert Taken(states, actions, n);
  }

  /** After going offline at step i: online again at j and made leader at m, in
      this order, before state n. */
  ghost predicate BackAsLeader(actions: seq<Action>, i: nat, j: nat, m: nat, n: nat)
    requires n <= |actions|
  {
    i < j < m < n && actions[j].Online? && actions[m].SwitchRole? && actions[m].role == LEADER
  }

  ghost predicate BackOnline(actions: seq<Action>, i: nat, j: nat, n: nat)
    requires n <= |actions|
  {
    i < j < n && actions[j].Online?
  }

  lemma {:induction false} OnlineAgain(states: seq<State>, actions: seq<Action>, i: nat, n: nat)
    requires Run(states, actions) && i < n < |states| && actions[i].Offline? && !states[n].handler.isOffline
    ensures exists j: nat :: BackOnline(actions, i, j, n)
  {
    assert Taken(states, actions, n - 1);
    if actions[n - 1].Online? {
      assert Taken(states, actions, i);
      assert i != n - 1;
      assert BackOnline(actions, i, n - 1, n);
    } else {
      assert i < n - 1;
      OnlineAgain(states, actions, i, n - 1);
      var j: nat :| BackOnline(actions, i, j, n - 1);
      assert BackOnline(actions, i, j, n);
    }
  }

  lemma {:induction false} LeaderAgain(states: seq<State>, actions: seq<Action>, i: nat, n: nat)
    requires Run(states, actions) && i < n < |states| && actions[i].Offline?
    requires !states[n].handler.isOffline && states[n].handler.role == LEADER
    ensures exists j: nat, m: nat :: BackAsLeader(actions, i, j, m, n)
  {
    assert Taken(states, actions, n - 1) && Taken(states, actions, i);
    assert i < n - 1;
    if actions[n - 1].SwitchRole? {
      OnlineAgain(states, actions, i, n - 1);
      var j: nat :| BackOnline(actions, i, j, n - 1);
      assert BackAsLeader(actions, i, j, n - 1, n);
    } else {
      LeaderAgain(states, actions, i, n - 1);
      var j: nat, m: nat :| BackAsLeader(actions, i, j, m, n - 1);
      assert BackAsLeader(actions, i, j, m, n);
    }
  }

  /** After an offline, no append succeeds before the handler is online again
      and has then been made leader again. */
  lemma NoAppendWhileOut(states: seq<State>, actions: seq<Action>, i: nat, n: nat)
    requires Run(states, actions) && i < n < |actions| && actions[i].Offline? && Succeeds(states, actions, n)
    ensures exists j: nat, m: nat :: BackAsLeader(actions, i, j, m, n)
  {
    LeaderAgain(states, actions, i, n);
  }

  lemma {:induction false} IdStaysInvalid(states: seq<State>, actions: seq<Action>, i: nat, k: nat)
    requires Run(states, actions) && i < k < |states| && (actions[i].Offline? || actions[i].Online?)
    requires forall l | i < l < k :: !actions[l].SwitchRole?
    ensures states[k].handler.proposalId == INVALID_PROPOSAL_ID
  {
    assert Taken(states, actions, k - 1);
    if i < k - 1 {
      IdStaysInvalid(states, actions, i, k - 1);
    }
  }

  lemma {:induction false} LoadedStays(states: seq<State>, actions: seq<Action>, k: nat, n: nat, t: nat, id: int)
    requires Run(states, actions) && k <= n < |states| && t in states[k].appends && states[k].appends[t].Loaded?
    requires states[k].appends[t].proposalId == id
    requires forall l | k <= l < n :: !(actions[l].Attempt? && actions[l].t == t)
    ensures t in states[n].appends && states[n].appends[t].Loaded? && states[n].appends[t].proposalId == id
    decreases n
  {
    if k < n {
      LoadedStays(states, actions, k, n - 1, t, id);
      assert Taken(states, actions, n - 1);
    }
  }

  /** Append t loads its id at step k and makes its next attempt at step n. */
  ghost predicate Tries(actions: seq<Action>, t: nat, k: nat, n: nat) {
    && k < n < |actions| && actions[k] == Load(t) && actions[n].Attempt? && actions[n].t == t
    && forall l | k < l < n :: !(actions[l].Attempt? && actions[l].t == t)
  }

  /** An append that loads its id after an offline or an online and before the next
      role change cannot succeed with it, even if the handler is leader by then. */
  lemma LoadedWhileOut(states: seq<State>, actions: seq<Action>, i: nat, t: nat, k: nat, n: nat)
    requires Run(states, actions) && i < k && Tries(actions, t, k, n) && (actions[i].Offline? || actions[i].Online?)
    requires forall l | i < l < k :: !actions[l].SwitchRole?
    ensures !Succeeds(states, actions, n)
  {
    assert Taken(states, actions, k);
    IdStaysInvalid(states, actions, i, k);
    LoadedStays(states, actions, k + 1, n, t, INVALID_PROPOSAL_ID);
    RunKeepsInv(states, actions, n);
  }

  lemma {:induction false} NotStopped(states: seq<State>, actions: seq<Action>, n: nat)
    requires Run(states, actions) && n < |states| && forall l | 0 <= l < n :: !actions[l].Stop?
    ensures !states[n].handler.isInStopState
  {
    if n > 0 {
      NotStopped(states, actions, n - 1);
      assert Taken(states, actions, n - 1);
    }
  }

  lemma {:induction false} StaysOnline(states: seq<State>, actions: seq<Action>, j: nat, n: nat)
    requires Run(states, actions) && j < n < |states| && actions[j].Online?
    requires forall l | j < l < n :: !actions[l].Offline?
    ensures !states[n].handler.isOffline
  {
    assert Taken(states, actions, n - 1);
    if j < n - 1 {
      StaysOnline(states, actions, j, n - 1);
    }
  }

  lemma {:induction false} StaysLeader(states: seq<State>, actions: seq<Action>, m: nat, n: nat, id: int)
    requires Run(states, actions) && m < n < |states| && actions[m] == SwitchRole(LEADER, id)
    requires forall l | m < l < n :: !actions[l].SwitchRole? && !actions[l].Offline? && !actions[l].Online?
    ensures states[n].handler.role == LEADER && states[n].handler.proposalId == id
  {
    assert Taken(states, actions, n - 1);
    if m < n - 1 {
      StaysLeader(states, actions, m, n - 1, id);
    }
  }

  /** Online at j and made leader at m, with nothing to the contrary since and no stop:
      an append that loads its id from then on succeeds if palf is leader with that id
      and accepts it. */
  lemma LeaderServes(states: seq<State>, actions: seq<Action>, j: nat, m: nat, t: nat, k: nat, n: nat, id: int)
    requires Run(states, actions) && j < m < k && Tries(actions, t, k, n)
    requires actions[j].Online? && actions[m] == SwitchRole(LEADER, id)
    requires forall l | j < l < n :: !actions[l].Offline?
    requires forall l | m < l < n :: !actions[l].SwitchRole? && !actions[l].Online?
    requires forall l | 0 <= l < n :: !actions[l].Stop?
    requires states[n].palf == Palf(true, id) && actions[n].palfRet == Success
    ensures Succeeds(states, actions, n)
  {
    assert Taken(states, actions, k) && Taken(states, actions, n);
    NotStopped(states, actions, n);
    StaysOnline(states, actions, j, n);
    StaysLeader(states, actions, m, k, id);
    StaysLeader(states, actions, m, n, id);
    LoadedStays(states, actions, k + 1, n, t, id);
  }

  /** Nor ever after a stop. */
  lemma {:induction false} NoAppendAfterStop(states: seq<State>, actions: seq<Action>, i: nat, n: nat)
    requires Run(states, actions) && i < n < |states| && actions[i].Stop?
    ensures states[n].handler.isInStopState && (n < |actions| ==> !Succeeds(states, actions, n))
  {
    assert Taken(states, actions, n - 1);
    if i < n - 1 {
      NoAppendAfterStop(states, actions, i, n - 1);
    }
  }
}
