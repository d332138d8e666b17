/** Every action of the protocol keeps the invariant. */
module ProtocolSteps {
  import opened Protocol
  import opened ProtocolInvariant
  import Policy
  import Files = NonceFile
  import Expiry = ApprovalToken
  import Authority = ApprovalAuthority
  import Store = MeetingStore
  import CalendarGateway

  lemma TimesGrow(s: System)
    requires Inv(s)
    ensures TimesOk(s.history.issued, s.history.accepted, s.history.effects, s.history.evidence, s.ticks + 1)
  {
    hide Store.Valid, IssuesOk, NoncesOk, AcceptedOk, SingleUse, ConsumesOk, StagesOk, EffectsOk, HoldersOk, EventsOk,
      RepliesOk, AbandonedOk, CreatedOnce, LockOk;
  }

  lemma QuietKeeps(s: System, t: System)
    requires Inv(s) && t == s.(clock := t.clock, collector := t.collector, ticks := s.ticks + 1)
    ensures Inv(t)
  {
    hide Store.Valid, IssuesOk, NoncesOk, AcceptedOk, SingleUse, ConsumesOk, StagesOk, EffectsOk, HoldersOk, EventsOk,
      RepliesOk, AbandonedOk, CreatedOnce, LockOk, TimesOk;
    TimesGrow(s);
  }

  /** How a moved handler relates to its earlier self. */
  predicate Moves(handlers: Handlers, h: HandlerId, moved: Handler) {
    if h in handlers then
      moved.context == handlers[h].context && moved.request == handlers[h].request
      && Holding(moved) == Holding(handlers[h]) && (Retrying(moved) ==> Retrying(handlers[h]))
    else !Holding(moved) && !Retrying(moved)
  }

  lemma MoveIsLocal(states: States, handlers: Handlers, h: HandlerId, moved: Handler)
    requires Moves(handlers, h, moved)
    ensures SameRequests(handlers, handlers[h := moved])
    ensures HoldingKept(states, handlers, states, handlers[h := moved])
  {
    hide Holding, Retrying;
  }

  /** A step that only moves one handler, and not across the boundary of holding or retrying. */
  lemma MoveKeeps(s: System, h: HandlerId, moved: Handler, t: System)
    requires Inv(s) && t == s.(handlers := s.handlers[h := moved], collector := t.collector, ticks := s.ticks + 1)
    requires Moves(s.handlers, h, moved)
    requires StageOk(moved, h, s.consumes, s.creates, s.unlocks, s.history.accepted, s.history.effects,
                     s.history.evidence)
    ensures Inv(t)
  {
    hide Moves, SameRequests, HoldingKept, StageOk;
    hide Store.Valid, IssuesOk, NoncesOk, AcceptedOk, SingleUse, ConsumesOk, StagesOk, EffectsOk, HoldersOk, EventsOk,
      RepliesOk, AbandonedOk, CreatedOnce, LockOk, TimesOk;
    var y := s.history;
    TimesGrow(s);
    MoveIsLocal(s.store.states, s.handlers, h, moved);
    ConsumesGrow(s.store.proposals, s.handlers, s.consumes, y.issued, y.accepted, s.store.proposals, t.handlers,
                 y.issued);
    StagesStep(h, s.handlers, s.consumes, s.creates, s.unlocks, y.accepted, y.effects, y.evidence,
               t.handlers, s.consumes, s.creates, s.unlocks, y.accepted, y.effects, y.evidence);
    EffectsGrow(s.store.proposals, s.handlers, s.creates, s.unlocks, y.accepted, y.effects, y.evidence,
                s.store.proposals, t.handlers, y.accepted);
    HoldersKept(s.store.states, s.handlers, y.holder, s.store.states, t.handlers);
  }

  lemma SubmitEffects(s: Store.StoreState, t: Store.StoreState, requester: string, input: Store.ProposalInput)
    requires Store.Valid(s) && s.next + 1 < Store.COUNTER_RANGE && t == Store.Submitted(s, requester, input)
    ensures Store.Valid(t) && ProposalsGrow(s.proposals, t.proposals)
    ensures forall id :: id in s.states ==> id in t.states && t.states[id] == s.states[id]
    ensures forall id :: id in t.states && id !in s.states ==> t.states[id] == Store.Pending
    ensures CommitmentKept(s.states, t.states)
  {
    hide Store.ProposalId, Store.NewProposal;
    Store.SubmitFresh(s, requester, input);
  }

  lemma SubmitHolding(states: States, handlers: Handlers, states': States)
    requires forall id :: id in states ==> id in states' && states'[id] == states[id]
    requires forall id :: id in states' && id !in states ==> states'[id] == Store.Pending
    ensures HoldingKept(states, handlers, states', handlers)
  {
    hide Holding, Retrying;
  }

  lemma SubmitKeeps(s: System, context: Policy.SecurityContext, input: Store.ProposalInput, t: System)
    requires Inv(s) && s.store.next + 1 < Store.COUNTER_RANGE
      && t == AfterSubmit(s, context, input).(ticks := s.ticks + 1)
    ensures Inv(t)
  {
    hide Store.Submitted, CalendarGateway.Trimmed, ProposalsGrow, CommitmentKept, HoldingKept;
    hide Store.Valid, IssuesOk, NoncesOk, AcceptedOk, SingleUse, ConsumesOk, StagesOk, EffectsOk, HoldersOk, EventsOk,
      RepliesOk, AbandonedOk, CreatedOnce, LockOk, TimesOk;
    var y := s.history;
    TimesGrow(s);
    SubmitEffects(s.store, t.store, context.subject, CalendarGateway.Trimmed(input));
    SubmitHolding(s.store.states, s.handlers, t.store.states);
    ConsumesGrow(s.store.proposals, s.handlers, s.consumes, y.issued, y.accepted, t.store.proposals, s.handlers,
                 y.issued);
    EffectsGrow(s.store.proposals, s.handlers, s.creates, s.unlocks, y.accepted, y.effects, y.evidence,
                t.store.proposals, s.handlers, y.accepted);
    HoldersKept(s.store.states, s.handlers, y.holder, t.store.states, s.handlers);
    EventsKept(s.store.proposals, s.store.states, s.events, y.abandoned, t.store.proposals, t.store.states);
    RepliesKeptBy(s.store.states, y.holder, s.events, y.abandoned, s.creates, t.store.states);
  }

  lemma IssuesAdd(settings: Settings, issued: Issued, nonce: string, issue: Issue)
    requires IssuesOk(settings, issued) && IssueOk(settings, nonce, issue)
    ensures IssuesOk(settings, issued[nonce := issue])
  {
    hide IssueOk;
  }

  lemma IssuedTimes(issued: Issued, accepted: Acceptances, effects: Effects, evidence: Evidences, ticks: nat,
                    nonce: string, issue: Issue)
    requires TimesOk(issued, accepted, effects, evidence, ticks) && issue.when < ticks
    ensures TimesOk(issued[nonce := issue], accepted, effects, evidence, ticks)
  {
  }

  lemma IssueKeeps(s: System, binding: Authority.Binding, nonce: string, t: System)
    requires Inv(s) && Files.IsNonce(nonce) && nonce !in s.history.issued
    requires Authority.ValidBinding(s.settings.keyLength, s.settings.owner, binding)
    requires t == AfterIssue(s, binding, nonce).(ticks := s.ticks + 1)
    ensures Inv(t)
  {
    hide Authority.ValidBinding, Authority.ClaimsFor, Files.IsNonce;
    hide Store.Valid, IssuesOk, NoncesOk, AcceptedOk, SingleUse, ConsumesOk, StagesOk, EffectsOk, HoldersOk, EventsOk,
      RepliesOk, AbandonedOk, CreatedOnce, LockOk, TimesOk;
    var y, issue := s.history, t.history.issued[nonce];
    TimesGrow(s);
    IssuesAdd(s.settings, y.issued, nonce, issue);
    IssuedTimes(y.issued, y.accepted, y.effects, y.evidence, t.ticks, nonce, issue);
    AcceptedKept(s.consumes, y.issued, y.accepted, s.consumes, t.history.issued);
    ConsumesGrow(s.store.proposals, s.handlers, s.consumes, y.issued, y.accepted, s.store.proposals, s.handlers,
                 t.history.issued);
  }

  // ----- Calls to the Authority -----

  lemma ConsumesPut(proposals: Proposals, handlers: Handlers, consumes: Consumes, issued: Issued,
                    accepted: Acceptances, h: HandlerId, call: ConsumeCall)
    requires ConsumesOk(proposals, handlers, consumes, issued, accepted)
    requires ConsumeOk(proposals, handlers, issued, accepted, h, call)
    ensures ConsumesOk(proposals, handlers, consumes[h := call], issued, accepted)
  {
    hide ConsumeOk;
  }

  /** A handler sends its call. */
  lemma SendKeeps(s: System, h: HandlerId, moved: Handler, call: ConsumeCall, t: System)
    requires Inv(s) && t == s.(handlers := s.handlers[h := moved], consumes := s.consumes[h := call],
                               ticks := s.ticks + 1)
    requires Moves(s.handlers, h, moved) && h !in s.consumes
    requires ConsumeOk(s.store.proposals, t.handlers, s.history.issued, s.history.accepted, h, call)
    requires StageOk(moved, h, t.consumes, s.creates, s.unlocks, s.history.accepted, s.history.effects,
                     s.history.evidence)
    ensures Inv(t)
  {
    hide Moves, SameRequests, HoldingKept, StageOk, ConsumeOk;
    hide Store.Valid, IssuesOk, NoncesOk, AcceptedOk, SingleUse, ConsumesOk, StagesOk, EffectsOk, HoldersOk, EventsOk,
      RepliesOk, AbandonedOk, CreatedOnce, LockOk, TimesOk;
    var y := s.history;
    TimesGrow(s);
    MoveIsLocal(s.store.states, s.handlers, h, moved);
    ConsumesGrow(s.store.proposals, s.handlers, s.consumes, y.issued, y.accepted, s.store.proposals, t.handlers,
                 y.issued);
    ConsumesPut(s.store.proposals, t.handlers, s.consumes, y.issued, y.accepted, h, call);
    AcceptedKept(s.consumes, y.issued, y.accepted, t.consumes, y.issued);
    StagesStep(h, s.handlers, s.consumes, s.creates, s.unlocks, y.accepted, y.effects, y.evidence,
               t.handlers, t.consumes, s.creates, s.unlocks, y.accepted, y.effects, y.evidence);
    EffectsGrow(s.store.proposals, s.handlers, s.creates, s.unlocks, y.accepted, y.effects, y.evidence,
                s.store.proposals, t.handlers, y.accepted);
    HoldersKept(s.store.states, s.handlers, y.holder, s.store.states, t.handlers);
  }

  /** A call advances without being accepted. */
  lemma PhaseKeeps(s: System, h: HandlerId, phase: ConsumePhase, t: System)
    requires Inv(s) && h in s.consumes && t == Phase(s, h, phase).(ticks := s.ticks + 1)
    requires ConsumeOk(s.store.proposals, s.handlers, s.history.issued, s.history.accepted, h, t.consumes[h])
    ensures Inv(t)
  {
    hide ConsumeOk;
    hide Store.Valid, IssuesOk, NoncesOk, AcceptedOk, SingleUse, ConsumesOk, StagesOk, EffectsOk, HoldersOk, EventsOk,
      RepliesOk, AbandonedOk, CreatedOnce, LockOk, TimesOk;
    var y := s.history;
    TimesGrow(s);
    ConsumesPut(s.store.proposals, s.handlers, s.consumes, y.issued, y.accepted, h, t.consumes[h]);
    AcceptedKept(s.consumes, y.issued, y.accepted, t.consumes, y.issued);
    StagesSame(s.handlers, s.consumes, s.creates, s.unlocks, y.accepted, y.effects, y.evidence,
               t.consumes, s.creates, s.unlocks, y.accepted);
  }

  lemma CallKnown(s: System, h: HandlerId)
    requires Inv(s) && h in s.consumes
    ensures ConsumeOk(s.store.proposals, s.handlers, s.history.issued, s.history.accepted, h, s.consumes[h])
  {
    hide Store.Valid, IssuesOk, NoncesOk, AcceptedOk, SingleUse, StagesOk, EffectsOk, HoldersOk, EventsOk, RepliesOk,
      AbandonedOk, CreatedOnce, LockOk, TimesOk, ConsumeOk;
  }

  lemma ArriveKeeps(s: System, h: HandlerId, t: System)
    requires Inv(s) && InPhase(s, h, Sent) && t == AfterArrive(s, h).(ticks := s.ticks + 1)
    ensures Inv(t)
  {
    hide Inv, Granted, Fits;
    CallKnown(s, h);
    PhaseKeeps(s, h, t.consumes[h].phase, t);
  }

  lemma CheckKeeps(s: System, h: HandlerId, t: System)
    requires Inv(s) && InPhase(s, h, Admitted) && t == AfterCheck(s, h).(ticks := s.ticks + 1)
    ensures Inv(t)
  {
    hide Inv, Granted, Fits, Authority.SameBinding, Expiry.Unexpired;
    CallKnown(s, h);
    PhaseKeeps(s, h, t.consumes[h].phase, t);
  }

  function Lost(call: ConsumeCall): ConsumeCall {
    if call.phase.Admitted? || call.phase.Checked? then call.(phase := Dropped) else call
  }

  lemma ConsumesLost(proposals: Proposals, handlers: Handlers, consumes: Consumes, issued: Issued,
                     accepted: Acceptances, consumes': Consumes)
    requires ConsumesOk(proposals, handlers, consumes, issued, accepted)
    requires consumes'.Keys == consumes.Keys && forall h :: h in consumes ==> consumes'[h] == Lost(consumes[h])
    ensures ConsumesOk(proposals, handlers, consumes', issued, accepted)
  {
    hide Granted, Fits, Authority.SameBinding, Expiry.Unexpired;
    forall h | h in consumes' ensures ConsumeOk(proposals, handlers, issued, accepted, h, consumes'[h]) {
      assert h in consumes.Keys;
      assert ConsumeOk(proposals, handlers, issued, accepted, h, consumes[h]);
    }
  }

  lemma NoncesRestarted(nonces: Authority.NonceState, accepted: Acceptances, readable: bool)
    requires NoncesOk(nonces, accepted)
    ensures NoncesOk(Authority.Restart(nonces.text, readable), accepted)
  {
    hide Files.Load, Files.Complete;
  }

  lemma RestartKeeps(s: System, readable: bool, t: System)
    requires Inv(s) && t == AfterRestart(s, readable).(ticks := s.ticks + 1)
    ensures Inv(t)
  {
    hide Authority.Restart;
    hide Store.Valid, IssuesOk, NoncesOk, AcceptedOk, SingleUse, ConsumesOk, StagesOk, EffectsOk, HoldersOk, EventsOk,
      RepliesOk, AbandonedOk, CreatedOnce, LockOk, TimesOk;
    var y := s.history;
    TimesGrow(s);
    NoncesRestarted(s.nonces, y.accepted, readable);
    ConsumesLost(s.store.proposals, s.handlers, s.consumes, y.issued, y.accepted, t.consumes);
    AcceptedKept(s.consumes, y.issued, y.accepted, t.consumes, y.issued);
    StagesSame(s.handlers, s.consumes, s.creates, s.unlocks, y.accepted, y.effects, y.evidence,
               t.consumes, s.creates, s.unlocks, y.accepted);
  }

  // ----- The critical section of the Authority -----

  lemma NonceWritable(settings: Settings, issued: Issued, token: Token)
    requires IssuesOk(settings, issued) && IsIssued(issued, token)
    ensures Files.Writable(token.claims.nonce)
  {
    hide Authority.ValidBinding, Authority.ClaimsFor;
    assert IssueOk(settings, token.claims.nonce, issued[token.claims.nonce]);
    Files.NonceWritable(token.claims.nonce);
  }

  lemma NoncesCommitted(nonces: Authority.NonceState, accepted: Acceptances, nonce: string, append: Authority.Append)
    requires NoncesOk(nonces, accepted) && Files.Writable(nonce)
    ensures var (next, verdict) := Authority.Commit(nonces, nonce, append);
      NoncesOk(next, accepted)
      && (verdict == Authority.Accepted ==>
        nonce in Authority.OnFile(next) && forall h :: h in accepted ==> accepted[h].claims.nonce != nonce)
  {
    Authority.CommitKeepsValid(nonces, nonce, append);
    hide Files.Load, Authority.Commit, Authority.StateValid;
  }

  lemma NoncesAdd(nonces: Authority.NonceState, accepted: Acceptances, h: HandlerId, a: Acceptance)
    requires NoncesOk(nonces, accepted) && a.claims.nonce in Authority.OnFile(nonces)
    ensures NoncesOk(nonces, accepted[h := a])
  {
    hide Authority.StateValid, Authority.OnFile;
  }

  lemma AcceptedAdd(consumes: Consumes, issued: Issued, accepted: Acceptances, h: HandlerId, a: Acceptance)
    requires AcceptedOk(consumes, issued, accepted) && AcceptanceOk(consumes, issued, h, a)
    ensures AcceptedOk(consumes, issued, accepted[h := a])
  {
    hide AcceptanceOk;
  }

  lemma SingleUseAdd(accepted: Acceptances, h: HandlerId, a: Acceptance)
    requires SingleUse(accepted) && forall k :: k in accepted ==> accepted[k].claims.nonce != a.claims.nonce
    ensures SingleUse(accepted[h := a])
  {
  }

  lemma ConsumesAccept(proposals: Proposals, handlers: Handlers, consumes: Consumes, issued: Issued,
                       accepted: Acceptances, h: HandlerId, a: Acceptance, call: ConsumeCall)
    requires ConsumesOk(proposals, handlers, consumes, issued, accepted) && h in consumes
    requires call == consumes[h].(phase := Replied(Authority.Accepted))
    ensures ConsumesOk(proposals, handlers, consumes[h := call], issued, accepted[h := a])
  {
    hide Granted, Fits, Authority.SameBinding, Expiry.Unexpired;
    var consumes', accepted' := consumes[h := call], accepted[h := a];
    forall k | k in consumes' ensures ConsumeOk(proposals, handlers, issued, accepted', k, consumes'[k]) {
      assert ConsumeOk(proposals, handlers, issued, accepted, k, consumes[k]);
    }
  }

  lemma AcceptedTimes(issued: Issued, accepted: Acceptances, effects: Effects, evidence: Evidences, ticks: nat,
                      h: HandlerId, a: Acceptance)
    requires TimesOk(issued, accepted, effects, evidence, ticks) && a.when < ticks
    ensures TimesOk(issued, accepted[h := a], effects, evidence, ticks)
  {
  }

  lemma IssuedBefore(s: System, nonce: string)
    requires Inv(s) && nonce in s.history.issued
    ensures s.history.issued[nonce].when < s.ticks
  {
    hide Store.Valid, IssuesOk, NoncesOk, AcceptedOk, SingleUse, ConsumesOk, StagesOk, EffectsOk, HoldersOk, EventsOk,
      RepliesOk, AbandonedOk, CreatedOnce, LockOk;
  }

  /** Not accepted: only the nonce state and the phase move. */
  lemma CommitRefusedKeeps(s: System, h: HandlerId, append: Authority.Append, t: System)
    requires Inv(s) && h in s.consumes && s.consumes[h].phase.Checked? && s.consumes[h].token.Opens?
    requires Authority.Commit(s.nonces, s.consumes[h].token.claims.nonce, append).1 != Authority.Accepted
    requires t == AfterCommit(s, h, append).(ticks := s.ticks + 1)
    ensures Inv(t)
  {
    hide Authority.Commit, Granted, Fits, Authority.SameBinding, Expiry.Unexpired;
    hide Store.Valid, IssuesOk, NoncesOk, AcceptedOk, SingleUse, ConsumesOk, StagesOk, EffectsOk, HoldersOk, EventsOk,
      RepliesOk, AbandonedOk, CreatedOnce, LockOk, TimesOk;
    var y, nonce := s.history, s.consumes[h].token.claims.nonce;
    CallKnown(s, h);
    NonceWritable(s.settings, y.issued, s.consumes[h].token);
    NoncesCommitted(s.nonces, y.accepted, nonce, append);
    var u := s.(nonces := t.nonces);
    PhaseKeeps(u, h, t.consumes[h].phase, t);
  }

  lemma AcceptKeeps(s: System, h: HandlerId, a: Acceptance, call: ConsumeCall, t: System)
    requires Inv(s) && h in s.consumes && h !in s.history.accepted && a.when == s.ticks
    requires call == s.consumes[h].(phase := Replied(Authority.Accepted))
    requires t == s.(nonces := t.nonces, consumes := s.consumes[h := call],
                     history := s.history.(accepted := s.history.accepted[h := a]), ticks := s.ticks + 1)
    requires NoncesOk(t.nonces, s.history.accepted) && a.claims.nonce in Authority.OnFile(t.nonces)
    requires forall k :: k in s.history.accepted ==> s.history.accepted[k].claims.nonce != a.claims.nonce
    requires AcceptanceOk(t.consumes, s.history.issued, h, a)
    ensures Inv(t)
  {
    hide AcceptanceOk, Authority.OnFile;
    hide Store.Valid, IssuesOk, NoncesOk, AcceptedOk, SingleUse, ConsumesOk, StagesOk, EffectsOk, HoldersOk, EventsOk,
      RepliesOk, AbandonedOk, CreatedOnce, LockOk, TimesOk;
    var y := s.history;
    TimesGrow(s);
    NoncesAdd(t.nonces, y.accepted, h, a);
    AcceptedKept(s.consumes, y.issued, y.accepted, t.consumes, y.issued);
    AcceptedAdd(t.consumes, y.issued, y.accepted, h, a);
    SingleUseAdd(y.accepted, h, a);
    ConsumesAccept(s.store.proposals, s.handlers, s.consumes, y.issued, y.accepted, h, a, call);
    AcceptedTimes(y.issued, y.accepted, y.effects, y.evidence, t.ticks, h, a);
    StagesSame(s.handlers, s.consumes, s.creates, s.unlocks, y.accepted, y.effects, y.evidence,
               t.consumes, s.creates, s.unlocks, t.history.accepted);
    EffectsGrow(s.store.proposals, s.handlers, s.creates, s.unlocks, y.accepted, y.effects, y.evidence,
                s.store.proposals, s.handlers, t.history.accepted);
  }

  /** Accepted: the nonce was on no earlier acceptance, because it was not on file. */
  lemma CommitAcceptedKeeps(s: System, h: HandlerId, append: Authority.Append, t: System)
    requires Inv(s) && h in s.consumes && s.consumes[h].phase.Checked? && s.consumes[h].token.Opens?
    requires Authority.Commit(s.nonces, s.consumes[h].token.claims.nonce, append).1 == Authority.Accepted
    requires t == AfterCommit(s, h, append).(ticks := s.ticks + 1)
    ensures Inv(t)
  {
    hide Authority.Commit, Granted, Fits, Authority.SameBinding, Expiry.Unexpired;
    hide Store.Valid, IssuesOk, NoncesOk, AcceptedOk, SingleUse, ConsumesOk, StagesOk, EffectsOk, HoldersOk, EventsOk,
      RepliesOk, AbandonedOk, CreatedOnce, LockOk, TimesOk;
    var y, call := s.history, s.consumes[h];
    CallKnown(s, h);
    IssuedBefore(s, call.token.claims.nonce);
    NonceWritable(s.settings, y.issued, call.token);
    NoncesCommitted(s.nonces, y.accepted, call.token.claims.nonce, append);
    var a := Acceptance(call.token.claims, call.phase.at, s.clock, s.ticks);
    AcceptKeeps(s, h, a, t.consumes[h], t);
  }
}
