/** A handler's whole call to the Authority, from its arrival to the answer, as one run of the protocol. */
module HandlerRuns {
  import opened Protocol
  import opened ProtocolInvariant
  import opened ProtocolSafety
  import opened ProtocolTheorems
  import opened ProtocolWitness
  import Authority = ApprovalAuthority

  lemma ReachableNext(s: System, a: Action)
    requires Reachable(s) && Enabled(s, a)
    ensures Reachable(Next(s, a)) && Leads(s, Next(s, a))
  {
    hide Reachable, Enabled, Next;
    LeadsNowhere(s);
    LeadsStep(s, s, a, Next(s, a));
    LeadsFromReachable(s, Next(s, a));
  }

  // ----- Consumption -----

  /** The state with handler h's call in a new phase and the Authority's part moved on. */
  function Consumed(s: System, h: HandlerId, phase: ConsumePhase, nonces: Authority.NonceState,
                    accepted: map<HandlerId, Acceptance>, n: nat): System
    requires h in s.consumes
  {
    s.(consumes := s.consumes[h := s.consumes[h].(phase := phase)], nonces := nonces,
       history := s.history.(accepted := accepted), ticks := s.ticks + n)
  }

  /** What the Authority makes of the call: as in its own consumption, but for a token that opens to nothing. */
  function Consumption(s: System, h: HandlerId, append: Authority.Append): (Authority.NonceState, Authority.Verdict)
    requires h in s.consumes
  {
    var call := s.consumes[h];
    if s.nonces.failed then (s.nonces, Authority.Unavailable)
    else if call.token.Opens? && Authority.Matches(call.token.claims, call.binding, s.clock)
    then Authority.Commit(s.nonces, call.token.claims.nonce, append)
    else (s.nonces, Authority.Refused)
  }

  lemma ArriveRun(s: System, h: HandlerId)
    requires Reachable(s) && InPhase(s, h, Sent)
    ensures Leads(s, Consumed(s, h, if s.nonces.failed then Replied(Authority.Unavailable) else Admitted, s.nonces,
                              s.history.accepted, 1))
  {
    hide Reachable, Leads;
    ReachableNext(s, ConsumeArrives(h));
  }

  lemma CheckRun(s: System, h: HandlerId, t: System)
    requires Leads(s, t) && h in s.consumes && t == Consumed(s, h, Admitted, s.nonces, s.history.accepted, 1)
    requires s.consumes[h].token.Opens? ==> Genuine(s.history, s.consumes[h].token)
    ensures var call := s.consumes[h];
      Leads(s, Consumed(s, h, if call.token.Opens? && Authority.Matches(call.token.claims, call.binding, s.clock)
                              then Checked(s.clock) else Replied(Authority.Refused), s.nonces, s.history.accepted, 2))
  {
    hide Leads, Authority.Matches;
    LeadsStep(s, t, ConsumeChecked(h), Next(t, ConsumeChecked(h)));
    Overwritten(s.consumes, h, t.consumes[h], Next(t, ConsumeChecked(h)).consumes[h]);
  }

  lemma CommitAction(t: System, h: HandlerId, append: Authority.Append)
    requires h in t.consumes && t.consumes[h].phase.Checked? && t.consumes[h].token.Opens?
    ensures Enabled(t, ConsumeCommits(h, append))
    ensures Next(t, ConsumeCommits(h, append)) == AfterCommit(t, h, append).(ticks := t.ticks + 1)
  {
    hide AfterCommit;
  }

  lemma CommitResult(s: System, h: HandlerId, t: System, append: Authority.Append)
    requires h in s.consumes && t == Consumed(s, h, Checked(s.clock), s.nonces, s.history.accepted, 2)
    requires s.consumes[h].token.Opens?
    ensures h in t.consumes && t.consumes[h] == s.consumes[h].(phase := Checked(s.clock))
    ensures var (nonces, verdict) := Authority.Commit(s.nonces, s.consumes[h].token.claims.nonce, append);
      var u := AfterCommit(t, h, append).(ticks := t.ticks + 1);
      u == Consumed(s, h, Replied(verdict), nonces, u.history.accepted, 3)
  {
    hide Authority.Commit;
    var (nonces, verdict) := Authority.Commit(s.nonces, s.consumes[h].token.claims.nonce, append);
    Overwritten(s.consumes, h, t.consumes[h], s.consumes[h].(phase := Replied(verdict)));
  }

  lemma CommitRun(s: System, h: HandlerId, t: System, append: Authority.Append) returns (u: System)
    requires Leads(s, t) && h in s.consumes && t == Consumed(s, h, Checked(s.clock), s.nonces, s.history.accepted, 2)
    requires s.consumes[h].token.Opens?
    ensures var (nonces, verdict) := Authority.Commit(s.nonces, s.consumes[h].token.claims.nonce, append);
      Leads(s, u) && u == Consumed(s, h, Replied(verdict), nonces, u.history.accepted, 3)
  {
    hide Leads, Authority.Commit, Enabled, Next, Consumed, AfterCommit;
    CommitResult(s, h, t, append);
    CommitAction(t, h, append);
    u := Next(t, ConsumeCommits(h, append));
    LeadsStep(s, t, ConsumeCommits(h, append), u);
  }

  lemma ConsumedTicks(s: System, h: HandlerId, phase: ConsumePhase, nonces: Authority.NonceState,
                      accepted: map<HandlerId, Acceptance>, n: nat)
    requires h in s.consumes
    ensures var t := Consumed(s, h, phase, nonces, accepted, n);
      t.ticks == s.ticks + n && t.history.accepted == accepted
  {
  }

  /** The Authority serves the call from arrival to answer. */
  lemma ConsumeRun(s: System, h: HandlerId, append: Authority.Append) returns (t: System)
    requires Reachable(s) && InPhase(s, h, Sent)
    requires s.consumes[h].token.Opens? ==> Genuine(s.history, s.consumes[h].token)
    ensures Leads(s, t) && t.ticks > s.ticks
    ensures t == Consumed(s, h, Replied(Consumption(s, h, append).1), Consumption(s, h, append).0, t.history.accepted,
                          t.ticks - s.ticks)
  {
    hide Reachable, Leads, Authority.Matches, Authority.Commit, Genuine, Consumed;
    ArriveRun(s, h);
    var call := s.consumes[h];
    if s.nonces.failed {
      t := Consumed(s, h, Replied(Authority.Unavailable), s.nonces, s.history.accepted, 1);
      ConsumedTicks(s, h, Replied(Authority.Unavailable), s.nonces, s.history.accepted, 1);
    } else {
      CheckRun(s, h, Consumed(s, h, Admitted, s.nonces, s.history.accepted, 1));
      if call.token.Opens? && Authority.Matches(call.token.claims, call.binding, s.clock) {
        t := CommitRun(s, h, Consumed(s, h, Checked(s.clock), s.nonces, s.history.accepted, 2), append);
        ConsumedTicks(s, h, Replied(Consumption(s, h, append).1), Consumption(s, h, append).0, t.history.accepted, 3);
      } else {
        t := Consumed(s, h, Replied(Authority.Refused), s.nonces, s.history.accepted, 2);
        ConsumedTicks(s, h, Replied(Authority.Refused), s.nonces, s.history.accepted, 2);
      }
    }
  }

  /** The handler's stage, the Authority's nonces and its acceptances have moved, and nothing else a caller sees. */
  predicate OnlyConsumed(s: System, t: System, h: HandlerId, stage: Stage) {
    t.store == s.store && t.events == s.events && t.lock == s.lock && t.collector == s.collector
    && t.settings == s.settings && t.clock == s.clock && t.creates == s.creates && t.unlocks == s.unlocks
    && t.history.issued == s.history.issued
    && t.history.effects == s.history.effects && t.history.evidence == s.history.evidence
    && h in s.handlers && t.handlers == s.handlers[h := s.handlers[h].(stage := stage)]
  }

  lemma AnswerStep(t: System, h: HandlerId, replied: bool) returns (a: Action)
    requires At(t, h, Consuming) && h in t.consumes && t.consumes[h].phase.Replied?
    requires t.consumes[h].phase.verdict == Authority.Accepted ==>
      t.consumes[h].token.Opens? && t.consumes[h].token.claims.traceId != ""
    ensures var stage := if t.consumes[h].phase.verdict == Authority.Accepted && replied
        then AfterConsumed(t.handlers[h].request) else Finished(ApprovalRefused);
      Enabled(t, a) && Next(t, a) == Move(t, h, stage).(ticks := t.ticks + 1)
  {
    hide AfterConsumed, Move;
    if t.consumes[h].phase.verdict == Authority.Accepted && replied {
      a := ConsumeReturns(h);
    } else {
      a := ConsumeFails(h);
    }
  }

  lemma AnswerRun(s: System, h: HandlerId, t: System, nonces: Authority.NonceState, verdict: Authority.Verdict,
                  replied: bool)
    returns (u: System)
    requires Leads(s, t) && At(s, h, Consuming) && h in s.consumes && t.ticks >= s.ticks
    requires t == Consumed(s, h, Replied(verdict), nonces, t.history.accepted, t.ticks - s.ticks)
    requires verdict == Authority.Accepted ==> s.consumes[h].token.Opens? && s.consumes[h].token.claims.traceId != ""
    ensures var stage := if verdict == Authority.Accepted
      && replied then AfterConsumed(s.handlers[h].request) else Finished(ApprovalRefused);
      Leads(s, u) && OnlyConsumed(s, u, h, stage) && u.nonces == nonces && u.history.accepted == t.history.accepted
  {
    hide Leads, Enabled, Next, AfterConsumed;
    var a := AnswerStep(t, h, replied);
    u := Next(t, a);
    LeadsStep(s, t, a, u);
  }

  lemma TraceOfGenuine(s: System, token: Token)
    requires Reachable(s) && token.Opens? && Genuine(s.history, token)
    ensures token.claims.traceId != ""
  {
    hide Reachable, Inv, Authority.ValidToolBinding;
    ReachableInv(s);
    IssueKnown(s, token.claims.nonce);
  }

  lemma AcceptedOpens(s: System, h: HandlerId, append: Authority.Append)
    requires h in s.consumes && Consumption(s, h, append).1 == Authority.Accepted
    ensures s.consumes[h].token.Opens?
  {
  }

  /** A handler's whole call to the Authority: served there, and answered if the reply gets through. */
  lemma ConsumeExactRun(s: System, h: HandlerId, append: Authority.Append, replied: bool) returns (t: System)
    requires Reachable(s) && At(s, h, Consuming) && InPhase(s, h, Sent)
    requires s.consumes[h].token.Opens? ==> Genuine(s.history, s.consumes[h].token)
    ensures var (nonces, verdict) := Consumption(s, h, append);
      var stage :=
        if verdict == Authority.Accepted && replied then AfterConsumed(s.handlers[h].request)
        else Finished(ApprovalRefused);
      Leads(s, t) && OnlyConsumed(s, t, h, stage) && t.nonces == nonces
  {
    hide Reachable, Leads, Authority.Matches, Authority.Commit, Genuine, Consumed, OnlyConsumed, AfterConsumed;
    var served := ConsumeRun(s, h, append);
    var (nonces, verdict) := Consumption(s, h, append);
    if s.consumes[h].token.Opens? { TraceOfGenuine(s, s.consumes[h].token); }
    if verdict == Authority.Accepted { AcceptedOpens(s, h, append); }
    t := AnswerRun(s, h, served, nonces, verdict, replied);
  }

}
