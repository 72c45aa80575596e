/** The garbage collector's member-list rounds: which replicas a round removes
    because their leader no longer lists them. */
module GcRounds {
  const MAX_LS_CNT := 100

  datatype Allow = Allowed | Dependent | CheckFailed

  /** One entry of a leader's answer; `local` says the log stream is still here. */
  datatype Report = Report(ls: nat, remoteOk: bool, local: bool, validMember: bool, allow: Allow)

  datatype Answer = RpcFailed | CountMismatch | Reply(reports: seq<Report>)

  /** A request sent to the leader and whether its answer was handled. */
  datatype Sent = Sent(request: seq<nat>, handled: bool)

  function Answered(sent: seq<Sent>): seq<nat> {
    if sent == [] then []
    else Answered(sent[..|sent| - 1]) + if sent[|sent| - 1].handled then sent[|sent| - 1].request else []
  }

  ghost predicate Asked(sent: seq<Sent>, ls: nat) {
    exists i: nat | i < |sent| :: ls in sent[i].request
  }

  /** (ls, life, g) for every report, in round g, that ls is not a member. A log
      stream that is removed and created again starts a new life, with a new
      handler. */
  type Reports = set<(nat, nat, int)>

  /** A report received in round g, about the given life of its log stream;
      `handled` says whether its answer was handled to the end. */
  datatype Heard = Heard(g: int, life: nat, report: Report, handled: bool)

  ghost function FromReply(g: int, lives: map<nat, nat>, answer: Answer, handled: bool): set<Heard> {
    if answer.Reply? then set r | r in answer.reports :: Heard(g, Life(lives, r.ls), r, handled) else {}
  }

  /** What the leader's answers to these requests said. */
  ghost function FromRequests(g: int, lives: map<nat, nat>, leader: seq<nat> -> Answer, sent: seq<Sent>): set<Heard> {
    if sent == [] then {} else
      var last := sent[|sent| - 1];
      FromRequests(g, lives, leader, sent[..|sent| - 1]) + FromReply(g, lives, leader(last.request), last.handled)
  }

  ghost function FromServers(g: int, lives: map<nat, nat>, servers: Servers,
                             sents: seq<seq<Sent>>): set<Heard>
    requires |sents| <= |servers|
  {
    if sents == [] then {} else
      var k := |sents| - 1;
      FromServers(g, lives, servers, sents[..k]) + FromRequests(g, lives, servers[k].1, sents[k])
  }

  /** In round g a leader said that this replica, which is still here, is not a
      member; and with what result the dependency check ended. */
  ghost predicate SaidGone(heard: set<Heard>, ls: nat, life: nat, g: int) {
    exists h | h in heard :: h.g == g && h.life == life && h.report.ls == ls
                             && h.report.remoteOk && h.report.local && !h.report.validMember
  }

  ghost predicate SaidAllowed(heard: set<Heard>, ls: nat, life: nat, g: int, allowed: bool) {
    exists h | h in heard :: h.g == g && h.life == life && h.report.ls == ls
                             && h.report.remoteOk && h.report.local && !h.report.validMember
                             && (h.report.allow == Allowed <==> allowed)
  }

  /** The same, in an answer that was handled to the end. */
  ghost predicate HandledGone(heard: set<Heard>, ls: nat, life: nat, g: int) {
    exists h | h in heard :: h.g == g && h.life == life && h.report.ls == ls && h.handled
                             && h.report.remoteOk && h.report.local && !h.report.validMember
  }

  /** What is recorded was said, and what was said and handled is recorded. */
  ghost predicate Grounded(heard: set<Heard>, reported: Reports) {
    && (forall p | p in reported :: SaidGone(heard, p.0, p.1, p.2))
    && (forall ls: nat, life: nat, g: int | HandledGone(heard, ls, life, g) :: (ls, life, g) in reported)
  }

  ghost predicate Cleared(heard: set<Heard>, lives: map<nat, nat>, g: int, candidates: seq<nat>, denied: set<nat>) {
    && (forall ls | ls in candidates :: SaidAllowed(heard, ls, Life(lives, ls), g, true))
    && (forall ls | ls in denied :: SaidAllowed(heard, ls, Life(lives, ls), g, false))
  }

  /** The decisions of round g, against what was said: only a replica said to be gone
      in that round and in the one before, in the same life, is removed, or kept for
      the dependency check; and every replica said to be so in answers handled to the
      end is. */
  ghost predicate DecidedBy(heard: set<Heard>, lives: map<nat, nat>, g: int, removed: seq<nat>, kept: set<nat>) {
    forall ls: nat :: DecidedOn(heard, Life(lives, ls), g, ls, ls in removed, ls in kept)
  }

  ghost predicate DecidedOn(heard: set<Heard>, life: nat, g: int, ls: nat, removed: bool, kept: bool) {
    && (removed || kept ==> SaidGone(heard, ls, life, g - 1) && SaidAllowed(heard, ls, life, g, removed))
    && (HandledGone(heard, ls, life, g - 1) && HandledGone(heard, ls, life, g) ==> removed || kept)
    && !(removed && kept)
  }

  lemma SaidLater(heard: set<Heard>, more: set<Heard>)
    requires heard <= more
    ensures forall ls: nat, life: nat, g: int | SaidGone(heard, ls, life, g) :: SaidGone(more, ls, life, g)
    ensures forall ls: nat, life: nat, g: int, allowed: bool | SaidAllowed(heard, ls, life, g, allowed) ::
              SaidAllowed(more, ls, life, g, allowed)
  {
  }

  ghost function GoneIn(r: Report, lives: map<nat, nat>, g: int): Reports {
    if r.remoteOk && r.local && !r.validMember then {(r.ls, Life(lives, r.ls), g)} else {}
  }

  /** The replicas the first n entries say are gone. */
  ghost function Gone(reports: seq<Report>, n: nat, lives: map<nat, nat>, g: int): Reports
    requires n <= |reports|
  {
    if n == 0 then {} else Gone(reports, n - 1, lives, g) + GoneIn(reports[n - 1], lives, g)
  }

  lemma {:induction false} GoneMeans(reports: seq<Report>, n: nat, lives: map<nat, nat>, g: int)
    requires n <= |reports|
    ensures forall p | p in Gone(reports, n, lives, g) :: exists k: nat | k < n :: p in GoneIn(reports[k], lives, g)
    ensures forall k: nat | k < n :: GoneIn(reports[k], lives, g) <= Gone(reports, n, lives, g)
  {
    if n > 0 {
      GoneMeans(reports, n - 1, lives, g);
    }
  }

  /** One answer, of which at least the entries up to the first failing one, and all
      of them if it is handled, were recorded. */
  lemma GroundStep(heard: set<Heard>, before: Reports, after: Reports, g: int, lives: map<nat, nat>,
                   reports: seq<Report>, n: nat, handled: bool)
    requires Grounded(heard, before) && n <= |reports| && after == before + Gone(reports, n, lives, g)
    requires handled ==> n == |reports|
    ensures Grounded(heard + FromReply(g, lives, Reply(reports), handled), after)
  {
    var more := heard + FromReply(g, lives, Reply(reports), handled);
    SaidLater(heard, more);
    GoneMeans(reports, n, lives, g);
    forall p | p in after
      ensures SaidGone(more, p.0, p.1, p.2)
    {
      if p !in before {
        var k: nat :| k < n && p in GoneIn(reports[k], lives, g);
        assert Heard(g, Life(lives, reports[k].ls), reports[k], handled) in more;
      }
    }
    forall ls: nat, life: nat, k: int | HandledGone(more, ls, life, k)
      ensures (ls, life, k) in after
    {
      var h :| h in more && h.g == k && h.life == life && h.report.ls == ls && h.handled
               && h.report.remoteOk && h.report.local && !h.report.validMember;
      if h in heard {
        assert HandledGone(heard, ls, life, k);
      } else {
        var i: nat :| i < |reports| && reports[i] == h.report;
        assert GoneIn(reports[i], lives, g) <= Gone(reports, n, lives, g);
      }
    }
  }

  /** The answer says that the replica is gone, and whether it may be removed. */
  ghost predicate Names(reports: seq<Report>, ls: nat, allowed: bool) {
    exists r | r in reports ::
      r.ls == ls && r.remoteOk && r.local && !r.validMember && (r.allow == Allowed <==> allowed)
  }

  ghost predicate NewlyNamed(reports: seq<Report>, candidates: seq<nat>, denied: set<nat>, candidates': seq<nat>,
                             denied': set<nat>)
  {
    && (forall ls | ls in candidates' && ls !in candidates :: Names(reports, ls, true))
    && (forall ls | ls in denied' && ls !in denied :: Names(reports, ls, false))
  }

  lemma NamedStep(reports: seq<Report>, i: nat, candidates: seq<nat>, denied: set<nat>, candidates0: seq<nat>,
                  denied0: set<nat>, candidates': seq<nat>, denied': set<nat>)
    requires i < |reports| && NewlyNamed(reports, candidates, denied, candidates0, denied0)
    requires var r := reports[i];
             && (|| candidates' == candidates0
                 || (&& r.remoteOk && r.local && !r.validMember && r.allow == Allowed
                     && candidates' == candidates0 + [r.ls]))
             && (|| denied' == denied0
                 || (&& r.remoteOk && r.local && !r.validMember && r.allow != Allowed
                     && denied' == denied0 + {r.ls}))
    ensures NewlyNamed(reports, candidates, denied, candidates', denied')
  {
    assert reports[i] in reports;
  }

  lemma ClearStep(heard: set<Heard>, lives: map<nat, nat>, g: int, candidates: seq<nat>, denied: set<nat>,
                  candidates': seq<nat>, denied': set<nat>, reports: seq<Report>, handled: bool)
    requires Cleared(heard, lives, g, candidates, denied)
    requires NewlyNamed(reports, candidates, denied, candidates', denied')
    ensures Cleared(heard + FromReply(g, lives, Reply(reports), handled), lives, g, candidates', denied')
  {
    var more := heard + FromReply(g, lives, Reply(reports), handled);
    SaidLater(heard, more);
    forall ls, allowed | Names(reports, ls, allowed)
      ensures SaidAllowed(more, ls, Life(lives, ls), g, allowed)
    {
      var r :| r in reports && r.ls == ls && r.remoteOk && r.local && !r.validMember
               && (r.allow == Allowed <==> allowed);
      assert Heard(g, Life(lives, r.ls), r, handled) in more;
    }
  }

  lemma FromRequestsStep(g: int, lives: map<nat, nat>, leader: seq<nat> -> Answer, sent: seq<Sent>, more: Sent)
    ensures FromRequests(g, lives, leader, sent + [more]) ==
            FromRequests(g, lives, leader, sent) + FromReply(g, lives, leader(more.request), more.handled)
  {
    assert (sent + [more])[..|sent|] == sent;
  }

  lemma {:induction false} FromRequestsRound(g: int, lives: map<nat, nat>, leader: seq<nat> -> Answer, sent: seq<Sent>)
    ensures forall h | h in FromRequests(g, lives, leader, sent) :: h.g == g
  {
    if sent != [] {
      FromRequestsRound(g, lives, leader, sent[..|sent| - 1]);
    }
  }

  lemma {:induction false} FromServersRound(g: int, lives: map<nat, nat>,
                                            servers: Servers, sents: seq<seq<Sent>>)
    requires |sents| <= |servers|
    ensures forall h | h in FromServers(g, lives, servers, sents) :: h.g == g
  {
    if sents != [] {
      var k := |sents| - 1;
      FromServersRound(g, lives, servers, sents[..k]);
      FromRequestsRound(g, lives, servers[k].1, sents[k]);
    }
  }

  /** What is said in later rounds does not bear on an earlier decision. */
  lemma DecidedLater(heard: set<Heard>, more: set<Heard>, life: nat, g: int, next: int, ls: nat, removed: bool,
                     kept: bool)
    requires DecidedOn(heard, life, g, ls, removed, kept) && g < next && heard <= more
    requires forall h | h in more && h !in heard :: h.g == next
    ensures DecidedOn(more, life, g, ls, removed, kept)
  {
    SaidLater(heard, more);
  }

  ghost predicate AsksAll(sent: seq<Sent>, lsArray: seq<nat>) {
    forall ls :: Asked(sent, ls) <==> ls in lsArray
  }

  lemma DecisionIsGrounded(heard: set<Heard>, reported: Reports, lives: map<nat, nat>, g: int,
                           removed: seq<nat>, kept: set<nat>)
    requires Grounded(heard, reported) && Cleared(heard, lives, g, removed, kept)
    requires AllPlaced(reported, lives, g, removed, kept)
    ensures DecidedBy(heard, lives, g, removed, kept)
  {
    forall ls: nat
      ensures DecidedOn(heard, Life(lives, ls), g, ls, ls in removed, ls in kept)
    {
      assert Placed(reported, lives, g, removed, kept, ls);
      if ls in removed || ls in kept {
        assert (ls, Life(lives, ls), g - 1) in reported;
      }
    }
  }

  function Life(lives: map<nat, nat>, ls: nat): nat {
    if ls in lives then lives[ls] else 0
  }

  function LastOf(lastInvalid: map<nat, int>, ls: nat): int {
    if ls in lastInvalid then lastInvalid[ls] else -1
  }

  ghost predicate LastOk(lastInvalid: map<nat, int>, reported: Reports, life: nat, ls: nat) {
    var last := LastOf(lastInvalid, ls);
    && (last == -1 || (ls, life, last) in reported)
    && forall g | (ls, life, g) in reported :: g <= last
  }

  /** Reported invalid in round g and in the round before, in the same life. */
  ghost predicate TwoInARow(reported: Reports, life: nat, g: int, ls: nat) {
    (ls, life, g - 1) in reported && (ls, life, g) in reported
  }

  ghost predicate Placed(reported: Reports, lives: map<nat, nat>, g: int, candidates: seq<nat>, denied: set<nat>,
                         ls: nat)
  {
    && (TwoInARow(reported, Life(lives, ls), g, ls) <==> ls in candidates || ls in denied)
    && !(ls in candidates && ls in denied)
  }

  ghost predicate AllPlaced(reported: Reports, lives: map<nat, nat>, g: int, candidates: seq<nat>, denied: set<nat>) {
    forall ls: nat :: Placed(reported, lives, g, candidates, denied, ls)
  }

  /** The decisions of one round, with the lives the log streams then had and the
      requests sent to each server. */
  datatype Decision = Decision(lives: map<nat, nat>, removed: seq<nat>, kept: set<nat>, sents: seq<seq<Sent>>)

  type Servers = seq<(seq<nat>, seq<nat> -> Answer)>

  /** What was said in the rounds of a run. */
  ghost function FromRun(first: int, rounds: seq<(seq<nat>, Servers)>, decisions: seq<Decision>): set<Heard>
    requires AllSent(rounds, decisions)
  {
    if decisions == [] then {} else
      var n := |decisions| - 1;
      assert SentTo(rounds[n].1, decisions[n]);
      FromRun(first, rounds, decisions[..n]) +
      FromServers(first + n, decisions[n].lives, rounds[n].1, decisions[n].sents)
  }

  ghost predicate AllSent(rounds: seq<(seq<nat>, Servers)>, decisions: seq<Decision>) {
    |decisions| <= |rounds| && forall i: nat | i < |decisions| :: SentTo(rounds[i].1, decisions[i])
  }

  /** Every server is asked about all its log streams. */
  ghost predicate SentTo(servers: Servers, decision: Decision) {
    && |decision.sents| == |servers|
    && forall k: nat | k < |servers| :: AsksAll(decision.sents[k], servers[k].0)
  }

  ghost predicate RoundExact(reported: Reports, first: int, decisions: seq<Decision>, i: nat, ls: nat)
    requires i < |decisions|
  {
    Placed(reported, decisions[i].lives, first + i, decisions[i].removed, decisions[i].kept, ls)
  }

  ghost predicate NoRepeats(candidates: seq<nat>) {
    forall i, j | 0 <= i < j < |candidates| :: candidates[i] != candidates[j]
  }

  class Collector {
    var seqNo: int                 // seq_, the round number
    var lastInvalid: map<nat, int> // gc_seq_invalid_member_ of each handler, -1 when absent
    var candidates: seq<nat>       // of the current round
    ghost var reported: Reports
    ghost var denied: set<nat>     // needed GC in this round but were not allowed to be removed
    ghost var lives: map<nat, nat>
    ghost var heard: set<Heard>    // every report received

    constructor ()
      ensures RoundStart() && seqNo == 1 && reported == {} && heard == {} && lives == map[]
    {
      seqNo, lastInvalid, candidates, reported, denied, lives, heard := 1, map[], [], {}, {}, map[], {};
    }

    ghost predicate SeqOk()
      reads this
    {
      && seqNo >= 1
      && (forall p | p in reported :: 1 <= p.2 <= seqNo && p.1 <= Life(lives, p.0))
      && (forall ls :: LastOk(lastInvalid, reported, Life(lives, ls), ls))
    }

    ghost predicate Valid()
      reads this
    {
      SeqOk() && NoRepeats(candidates) && AllPlaced(reported, lives, seqNo, candidates, denied)
    }

    /** gc_check_invalid_member_seq: true exactly on the first report of this
        round for a log stream that was reported in the round before. */
    method CheckInvalidMemberSeq(ls: nat) returns (needGc: bool)
      requires SeqOk()
      modifies `lastInvalid, `reported
      ensures var life := Life(lives, ls);
              needGc <==> old((ls, life, seqNo - 1) in reported && (ls, life, seqNo) !in reported)
      ensures reported == old(reported) + {(ls, Life(lives, ls), seqNo)}
      ensures SeqOk()
    {
      assert LastOk(lastInvalid, reported, Life(lives, ls), ls);
      needGc := seqNo == LastOf(lastInvalid, ls) + 1;
      lastInvalid := lastInvalid[ls := seqNo];
      reported := reported + {(ls, Life(lives, ls), seqNo)};
      forall k
        ensures LastOk(lastInvalid, reported, Life(lives, k), k)
      {
        assert old(LastOk(lastInvalid, reported, Life(lives, k), k));
      }
    }

    /** One entry of the answer; fails only when the dependency check fails. */
    method HandleReport(r: Report) returns (ok: bool)
      requires Valid()
      modifies `lastInvalid, `candidates, `reported, `denied
      ensures Valid() && (!ok <==> r.allow == CheckFailed && r.ls in denied && r.ls !in old(denied))
      ensures reported == old(reported) + if r.remoteOk && r.local && !r.validMember
                                          then {(r.ls, Life(lives, r.ls), seqNo)} else {}
      ensures || candidates == old(candidates)
              || (&& r.remoteOk && r.local && !r.validMember && r.allow == Allowed
                  && candidates == old(candidates) + [r.ls])
      ensures || denied == old(denied)
              || (&& r.remoteOk && r.local && !r.validMember && r.allow != Allowed
                  && denied == old(denied) + {r.ls})
    {
      ok := true;
      if !r.remoteOk || !r.local || r.validMember { return; }
      var needGc := CheckInvalidMemberSeq(r.ls);
      if needGc {
        assert old(Placed(reported, lives, seqNo, candidates, denied, r.ls));
        if r.allow == Allowed {
          candidates := candidates + [r.ls];
        } else {
          denied := denied + {r.ls};
          ok := r.allow != CheckFailed;
        }
      }
      forall ls: nat
        ensures Placed(reported, lives, seqNo, candidates, denied, ls)
      {
        assert old(Placed(reported, lives, seqNo, candidates, denied, ls));
      }
    }

    /** handle_rpc_response_: handles the first n entries, all of them or up to one
        whose dependency check fails. */
    method HandleResponse(reports: seq<Report>) returns (ok: bool, ghost n: nat)
      requires Valid()
      modifies `lastInvalid, `candidates, `reported, `denied
      ensures Valid() && n <= |reports| && reported == old(reported) + Gone(reports, n, lives, seqNo)
      ensures forall p | p in reported && p !in old(reported) :: p.2 == seqNo
      ensures if ok then n == |reports| else n > 0 && reports[n - 1].allow == CheckFailed
      ensures NewlyNamed(reports, old(candidates), old(denied), candidates, denied)
    {
      ok, n := true, 0;
      var i := 0;
      while ok && i < |reports|
        invariant 0 <= i == n <= |reports| && Valid() && reported == old(reported) + Gone(reports, n, lives, seqNo)
        invariant forall p | p in reported && p !in old(reported) :: p.2 == seqNo
        invariant !ok ==> n > 0 && reports[n - 1].allow == CheckFailed
        invariant NewlyNamed(reports, old(candidates), old(denied), candidates, denied)
        decreases |reports| - i
      {
        assert reports[i] in reports;
        ghost var candidates0, denied0 := candidates, denied;
        ok := HandleReport(reports[i]);
        NamedStep(reports, i, old(candidates), old(denied), candidates0, denied0, candidates, denied);
        i, n := i + 1, n + 1;
      }
    }

    /** Everything recorded and decided in this round goes back to what was said. */
    ghost predicate Heeded()
      reads this
    {
      Valid() && Grounded(heard, reported) && Cleared(heard, lives, seqNo, candidates, denied)
    }

    /** One query: the answer is handled completely or the query counts as failed. */
    method Query(request: seq<nat>, leader: seq<nat> -> Answer) returns (handled: bool)
      requires Heeded()
      modifies `lastInvalid, `candidates, `reported, `denied, `heard
      ensures Heeded() && old(reported) <= reported
      ensures heard == old(heard) + FromReply(seqNo, lives, leader(request), handled)
      ensures forall p | p in reported && p !in old(reported) :: p.2 == seqNo
      ensures handled ==> leader(request).Reply?
      ensures leader(request).Reply? && (forall r | r in leader(request).reports :: r.allow != CheckFailed) ==> handled
    {
      handled := false;
      match leader(request)
      case Reply(reports) =>
        ghost var n;
        handled, n := HandleResponse(reports);
        heard := heard + FromReply(seqNo, lives, Reply(reports), handled);
        GroundStep(old(heard), old(reported), reported, seqNo, lives, reports, n, handled);
        ClearStep(old(heard), lives, seqNo, old(candidates), old(denied), candidates, denied, reports, handled);
      case _ =>
    }

    /** One batch, of the log streams not answered yet. */
    method Ask(request: seq<nat>, leader: seq<nat> -> Answer, ghost sent: seq<Sent>, ghost lsArray: seq<nat>,
               ghost done: nat, ghost asked: nat, ghost next: nat)
      returns (handled: bool)
      requires Heeded() && Progress(sent, lsArray, done, asked)
      requires asked < next <= |lsArray| && next - asked <= MAX_LS_CNT && request == lsArray[done..next]
      modifies `lastInvalid, `candidates, `reported, `denied, `heard
      ensures Heeded() && old(reported) <= reported
      ensures forall p | p in reported && p !in old(reported) :: p.2 == seqNo
      ensures Progress(sent + [Sent(request, handled)], lsArray, if handled then next else done, next)
      ensures forall before | old(heard) == before + FromRequests(seqNo, lives, leader, sent) ::
                heard == before + FromRequests(seqNo, lives, leader, sent + [Sent(request, handled)])
    {
      handled := Query(request, leader);
      ProgressStep(sent, Sent(request, handled), lsArray, done, asked, next);
      FromRequestsStep(seqNo, lives, leader, sent, Sent(request, handled));
    }

    /** handle_ls_array_: asks the leader in batches; a request that fails is
        not cleared, so its log streams go out again with the next batch. */
    method HandleLsArray(lsArray: seq<nat>, leader: seq<nat> -> Answer) returns (ghost sent: seq<Sent>)
      requires Heeded()
      modifies `lastInvalid, `candidates, `reported, `denied, `heard
      ensures Heeded() && old(reported) <= reported
      ensures heard == old(heard) + FromRequests(seqNo, lives, leader, sent)
      ensures forall p | p in reported && p !in old(reported) :: p.2 == seqNo
      ensures Answered(sent) <= lsArray && forall ls :: Asked(sent, ls) <==> ls in lsArray
      ensures |sent| > 0 ==> (Answered(sent) == lsArray <==> sent[|sent| - 1].handled)
      ensures (forall x | x in sent :: x.handled) ==> forall x | x in sent :: |x.request| <= MAX_LS_CNT
    {
      var request: seq<nat> := [];
      sent := [];
      ghost var done, asked := 0, 0;
      for index := 0 to |lsArray|
        invariant Heeded() && old(reported) <= reported
        invariant heard == old(heard) + FromRequests(seqNo, lives, leader, sent)
        invariant forall p | p in reported && p !in old(reported) :: p.2 == seqNo
        invariant asked == BatchStart(index, |lsArray|)
        invariant Progress(sent, lsArray, done, asked) && request == lsArray[done..index]
      {
        request := request + [lsArray[index]];
        assert request == lsArray[done..index + 1];
        BatchStep(index, |lsArray|);
        if (index + 1) % MAX_LS_CNT == 0 || index == |lsArray| - 1 {
          var handled := Ask(request, leader, sent, lsArray, done, asked, index + 1);
          sent := sent + [Sent(request, handled)];
          asked := index + 1;
          if handled {
            request := [];
            done := index + 1;
          }
        }
      }
    }

    ghost predicate RoundStart()
      reads this
    {
      && SeqOk() && candidates == [] && denied == {} && Grounded(heard, reported)
      && (forall p | p in reported :: p.2 < seqNo) && forall h | h in heard :: h.g < seqNo
    }

    /** A removed log stream is created again: its new handler remembers nothing. */
    method Recreate(ls: nat)
      requires RoundStart()
      modifies `lastInvalid, `lives
      ensures RoundStart() && lives == old(lives)[ls := Life(old(lives), ls) + 1]
    {
      lastInvalid := lastInvalid - {ls};
      lives := lives[ls := Life(lives, ls) + 1];
      forall k
        ensures LastOk(lastInvalid, reported, Life(lives, k), k)
      {
        assert old(LastOk(lastInvalid, reported, Life(lives, k), k));
      }
    }

    method RecreateAll(recreated: seq<nat>)
      requires RoundStart()
      modifies `lastInvalid, `lives
      ensures RoundStart() && forall ls | ls !in recreated :: Life(lives, ls) == old(Life(lives, ls))
    {
      for k := 0 to |recreated|
        invariant RoundStart() && forall ls | ls !in recreated :: Life(lives, ls) == old(Life(lives, ls))
      {
        Recreate(recreated[k]);
      }
    }

    /** Every server's log streams are asked about. */
    method AskServers(servers: Servers) returns (ghost sents: seq<seq<Sent>>)
      requires Heeded()
      modifies `lastInvalid, `candidates, `reported, `denied, `heard
      ensures Heeded() && old(reported) <= reported
      ensures forall p | p in reported && p !in old(reported) :: p.2 == seqNo
      ensures |sents| == |servers| && heard == old(heard) + FromServers(seqNo, lives, servers, sents)
      ensures forall k: nat | k < |servers| :: AsksAll(sents[k], servers[k].0)
    {
      sents := [];
      for k := 0 to |servers|
        invariant Heeded() && old(reported) <= reported
        invariant forall p | p in reported && p !in old(reported) :: p.2 == seqNo
        invariant |sents| == k && heard == old(heard) + FromServers(seqNo, lives, servers, sents)
        invariant forall j: nat | j < k :: AsksAll(sents[j], servers[j].0)
      {
        ghost var sent := HandleLsArray(servers[k].0, servers[k].1);
        assert (sents + [sent])[..k] == sents;
        sents := sents + [sent];
      }
    }

    /** A round over the leaders' log streams, some of which were created again
        since the last. Every one of them is asked about, and the decisions are those
        the answers of this round and the one before call for. */
    method Round(recreated: seq<nat>, servers: Servers)
      returns (removed: seq<nat>, ghost decision: Decision)
      requires RoundStart()
      modifies this
      ensures RoundStart() && seqNo == old(seqNo) + 1 && old(reported) <= reported && old(heard) <= heard
      ensures forall p | p in reported && p !in old(reported) :: p.2 == old(seqNo)
      ensures forall h | h in heard && h !in old(heard) :: h.g == old(seqNo)
      ensures NoRepeats(removed) && decision.removed == removed && decision.lives == lives
      ensures forall ls | ls !in recreated :: Life(lives, ls) == old(Life(lives, ls))
      ensures AllPlaced(reported, decision.lives, old(seqNo), removed, decision.kept)
      ensures SentTo(servers, decision)
      ensures heard == old(heard) + FromServers(old(seqNo), lives, servers, decision.sents)
      ensures DecidedBy(heard, lives, old(seqNo), removed, decision.kept)
    {
      RecreateAll(recreated);
      ghost var sents := AskServers(servers);
      removed, decision := candidates, Decision(lives, candidates, denied, sents);
      DecisionIsGrounded(heard, reported, lives, seqNo, candidates, denied);
      FromServersRound(seqNo, lives, servers, sents);
      candidates, denied := [], {};
      seqNo := seqNo + 1;
    }

    /** One more round of a run that began with round `first`. */
    method NextRound(ghost first: int, rounds: seq<(seq<nat>, Servers)>, n: nat, ghost decisions: seq<Decision>,
                     ghost before: set<Heard>)
      returns (removed: seq<nat>, ghost decision: Decision)
      requires RoundStart() && n == |decisions| < |rounds| && seqNo == first + n
      requires Told(first, rounds, decisions, reported, before, heard)
      modifies this
      ensures RoundStart() && seqNo == old(seqNo) + 1 && decision.removed == removed
      ensures Told(first, rounds, decisions + [decision], reported, before, heard)
    {
      removed, decision := Round(rounds[n].0, rounds[n].1);
      ToldStep(first, rounds, decisions, decision, old(reported), reported, before, old(heard), heard);
    }

    /** run1 over any number of rounds, seen from the end of the run: round i's
        decisions are exact with respect to everything ever reported, and to
        everything ever said. */
    method Run(rounds: seq<(seq<nat>, Servers)>) returns (removed: seq<seq<nat>>, ghost decisions: seq<Decision>)
      requires RoundStart()
      modifies this
      ensures RoundStart() && seqNo == old(seqNo) + |rounds| && |removed| == |decisions| == |rounds|
      ensures forall i: nat | i < |rounds| :: decisions[i].removed == removed[i]
      ensures Told(old(seqNo), rounds, decisions, reported, old(heard), heard)
    {
      removed, decisions := [], [];
      for n := 0 to |rounds|
        invariant RoundStart() && seqNo == old(seqNo) + n && |removed| == |decisions| == n
        invariant forall i: nat | i < n :: decisions[i].removed == removed[i]
        invariant Told(old(seqNo), rounds, decisions, reported, old(heard), heard)
      {
        var out, decision := NextRound(old(seqNo), rounds, n, decisions, old(heard));
        removed, decisions := removed + [out], decisions + [decision];
      }
    }
  }

  lemma FromRunStep(first: int, rounds: seq<(seq<nat>, Servers)>, decisions: seq<Decision>, d: Decision)
    requires AllSent(rounds, decisions) && |decisions| < |rounds| && SentTo(rounds[|decisions|].1, d)
    ensures AllSent(rounds, decisions + [d])
    ensures FromRun(first, rounds, decisions + [d]) ==
            FromRun(first, rounds, decisions) +
            FromServers(first + |decisions|, d.lives, rounds[|decisions|].1, d.sents)
  {
    assert (decisions + [d])[..|decisions|] == decisions;
  }

  /** The decisions of a run that began with round `first`: every server was asked
      about all its log streams in every round, what was heard is what the answers
      said, and the decisions are those that calls for. */
  ghost predicate Told(first: int, rounds: seq<(seq<nat>, Servers)>, decisions: seq<Decision>, reported: Reports,
                       before: set<Heard>, heard: set<Heard>)
  {
    && AllExact(reported, first, decisions) && AllDecided(heard, first, decisions)
    && AllSent(rounds, decisions) && heard == before + FromRun(first, rounds, decisions)
  }

  lemma ToldStep(first: int, rounds: seq<(seq<nat>, Servers)>, decisions: seq<Decision>, d: Decision,
                 reported: Reports, reported': Reports, before: set<Heard>, heard: set<Heard>, heard': set<Heard>)
    requires Told(first, rounds, decisions, reported, before, heard) && |decisions| < |rounds|
    requires reported <= reported' && forall p | p in reported' && p !in reported :: p.2 == first + |decisions|
    requires AllPlaced(reported', d.lives, first + |decisions|, d.removed, d.kept)
    requires DecidedBy(heard', d.lives, first + |decisions|, d.removed, d.kept)
    requires SentTo(rounds[|decisions|].1, d)
    requires heard' == heard + FromServers(first + |decisions|, d.lives, rounds[|decisions|].1, d.sents)
    ensures Told(first, rounds, decisions + [d], reported', before, heard')
  {
    FromServersRound(first + |decisions|, d.lives, rounds[|decisions|].1, d.sents);
    ExactStep(reported, reported', first, decisions, d);
    DecidedStep(heard, heard', first, decisions, d);
    FromRunStep(first, rounds, decisions, d);
  }

  /** Round i's decisions, against everything reported in the whole run. */
  ghost predicate AllExact(reported: Reports, first: int, decisions: seq<Decision>) {
    forall i: nat, ls: nat | i < |decisions| :: RoundExact(reported, first, decisions, i, ls)
  }

  lemma ExactStep(before: Reports, after: Reports, first: int, decisions: seq<Decision>, d: Decision)
    requires AllExact(before, first, decisions) && before <= after
    requires forall p | p in after && p !in before :: p.2 == first + |decisions|
    requires AllPlaced(after, d.lives, first + |decisions|, d.removed, d.kept)
    ensures AllExact(after, first, decisions + [d])
  {
    var more := decisions + [d];
    forall i: nat, ls: nat | i < |more|
      ensures RoundExact(after, first, more, i, ls)
    {
      if i < |decisions| {
        assert RoundExact(before, first, decisions, i, ls);
      } else {
        assert Placed(after, d.lives, first + |decisions|, d.removed, d.kept, ls);
      }
    }
  }

  /** And against everything said in the whole run. */
  ghost predicate AllDecided(heard: set<Heard>, first: int, decisions: seq<Decision>) {
    forall i: nat | i < |decisions| :: RoundDecided(heard, first, decisions, i)
  }

  ghost predicate RoundDecided(heard: set<Heard>, first: int, decisions: seq<Decision>, i: nat)
    requires i < |decisions|
  {
    DecidedBy(heard, decisions[i].lives, first + i, decisions[i].removed, decisions[i].kept)
  }

  lemma DecidedStep(heard: set<Heard>, more: set<Heard>, first: int, decisions: seq<Decision>, d: Decision)
    requires AllDecided(heard, first, decisions) && heard <= more
    requires forall h | h in more && h !in heard :: h.g == first + |decisions|
    requires DecidedBy(more, d.lives, first + |decisions|, d.removed, d.kept)
    ensures AllDecided(more, first, decisions + [d])
  {
    forall i: nat | i < |decisions|
      ensures RoundDecided(more, first, decisions + [d], i)
    {
      assert RoundDecided(heard, first, decisions, i);
      var x := decisions[i];
      forall ls: nat
        ensures DecidedOn(more, Life(x.lives, ls), first + i, ls, ls in x.removed, ls in x.kept)
      {
        DecidedLater(heard, more, Life(x.lives, ls), first + i, first + |decisions|, ls, ls in x.removed, ls in x.kept);
      }
    }
  }

  /** How many of the first `index` of n log streams have been sent. */
  function BatchStart(index: nat, n: nat): int {
    if index == n then index else index - index % MAX_LS_CNT
  }

  lemma BatchStep(index: nat, n: nat)
    requires index < n
    ensures 0 <= BatchStart(index, n) <= index < BatchStart(index, n) + MAX_LS_CNT
    ensures BatchStart(index + 1, n) ==
            if (index + 1) % MAX_LS_CNT == 0 || index == n - 1 then index + 1 else BatchStart(index, n)
  {
  }

  /** After `asked` log streams have gone out, the first `done` are answered. */
  ghost predicate Progress(sent: seq<Sent>, lsArray: seq<nat>, done: nat, asked: nat) {
    && done <= asked <= |lsArray| && Answered(sent) == lsArray[..done]
    && (forall ls :: Asked(sent, ls) <==> ls in lsArray[..asked])
    && (|sent| > 0 ==> (done == asked <==> sent[|sent| - 1].handled))
    && ((forall x | x in sent :: x.handled) ==> done == asked && forall x | x in sent :: |x.request| <= MAX_LS_CNT)
  }

  lemma AskedStep(sent: seq<Sent>, more: Sent, ls: nat)
    ensures Asked(sent + [more], ls) <==> Asked(sent, ls) || ls in more.request
  {
    var after := sent + [more];
    if Asked(sent, ls) {
      var i: nat :| i < |sent| && ls in sent[i].request;
      assert ls in after[i].request;
    } else if ls in more.request {
      assert ls in after[|sent|].request;
    }
  }

  lemma ProgressStep(sent: seq<Sent>, more: Sent, lsArray: seq<nat>, done: nat, asked: nat, next: nat)
    requires Progress(sent, lsArray, done, asked) && asked < next <= |lsArray| && next - asked <= MAX_LS_CNT
    requires more.request == lsArray[done..next]
    ensures Progress(sent + [more], lsArray, if more.handled then next else done, next)
  {
    var after := sent + [more];
    assert after[..|sent|] == sent;
    assert lsArray[..done] + lsArray[done..next] == lsArray[..next];
    forall ls
      ensures Asked(after, ls) <==> ls in lsArray[..next]
    {
      AskedStep(sent, more, ls);
      assert ls in lsArray[..next] <==> ls in lsArray[..asked] || ls in lsArray[done..next];
    }
    if forall x | x in after :: x.handled {
      assert forall x | x in sent :: x in after;
    }
  }
}
