/** Beginning an approval, which sends the calendar its request, and denying keep the invariant. */
module ProtocolEffects {
  import opened Text
  import opened Protocol
  import opened ProtocolInvariant
  import opened ProtocolSteps
  import Authority = ApprovalAuthority
  import Store = MeetingStore
  import Calendar = CalendarServer

  // ----- Begin -----

  lemma EffectsAddCreate(proposals: Proposals, handlers: Handlers, creates: Creates, unlocks: Unlocks,
                         accepted: Acceptances, effects: Effects, evidence: Evidences, h: HandlerId, call: CreateCall,
                         when: nat)
    requires EffectsOk(proposals, handlers, creates, unlocks, accepted, effects, evidence) && h !in effects
    requires EffectOk(proposals, handlers, creates[h := call], unlocks, accepted, evidence, h,
                      CreateEvent(call.arguments, when))
    ensures EffectsOk(proposals, handlers, creates[h := call], unlocks, accepted,
                      effects[h := CreateEvent(call.arguments, when)], evidence)
  {
    hide Store.OperationFor, EvidenceOk;
  }

  lemma EffectTimes(issued: Issued, accepted: Acceptances, effects: Effects, evidence: Evidences, ticks: nat,
                    h: HandlerId, e: Effect)
    requires TimesOk(issued, accepted, effects, evidence, ticks) && e.when < ticks
    ensures TimesOk(issued, accepted, effects[h := e], evidence, ticks)
  {
  }

  lemma HoldersBegin(states: States, handlers: Handlers, holder: Holders, h: HandlerId, moved: Handler, id: string)
    requires HoldersOk(states, handlers, holder) && id in states && states[id] == Store.Pending
    requires h in handlers && !Holding(handlers[h]) && Holding(moved) && !Retrying(moved)
      && moved.request.proposalId == id
    ensures HoldersOk(states[id := Store.Approving], handlers[h := moved], holder[id := h])
  {
    hide Holding, Retrying;
  }

  lemma HoldersRetry(states: States, handlers: Handlers, holder: Holders, h: HandlerId, moved: Handler, id: string)
    requires HoldersOk(states, handlers, holder) && id in states && states[id] == Store.Approved
    requires h in handlers && !Holding(handlers[h]) && !Holding(moved) && moved.request.Approve?
      && moved.request.proposalId == id
    ensures HoldersOk(states, handlers[h := moved], holder)
  {
    hide Holding;
  }

  lemma RepliesBegin(states: States, holder: Holders, events: Calendar.Events, abandoned: Holders, creates: Creates,
                     h: HandlerId, id: string)
    requires RepliesOk(states, holder, events, abandoned, creates)
    requires id in states && states[id] == Store.Pending && id !in holder
    ensures RepliesOk(states[id := Store.Approving], holder[id := h], events, abandoned, creates)
  {
    hide Calendar.ValidEvent, HasEvent;
  }

  lemma RepliesPut(states: States, holder: Holders, events: Calendar.Events, abandoned: Holders, creates: Creates,
                   h: HandlerId, call: CreateCall)
    requires RepliesOk(states, holder, events, abandoned, creates)
      && ReplyOk(states, holder, events, abandoned, h, call)
    ensures RepliesOk(states, holder, events, abandoned, creates[h := call])
  {
    hide ReplyOk;
  }

  lemma CreatesPut(abandoned: Holders, creates: Creates, h: HandlerId, call: CreateCall)
    requires AbandonedOk(abandoned, creates) && CreatedOnce(creates)
    requires h in creates ==> call.arguments == creates[h].arguments
    requires WasCreated(call) ==> forall k :: k in creates && k != h && WasCreated(creates[k]) ==>
      creates[k].arguments.idempotencyKey != call.arguments.idempotencyKey
    ensures AbandonedOk(abandoned, creates[h := call]) && CreatedOnce(creates[h := call])
  {
    hide WasCreated;
  }

  lemma HolderAbsent(states: States, handlers: Handlers, holder: Holders, id: string)
    requires HoldersOk(states, handlers, holder) && id in states && states[id] != Store.Approving
    ensures id !in holder
  {
    hide Holding, Retrying;
  }

  lemma StatusKeepsValid(store: Store.StoreState, id: string, status: Store.Status)
    requires Store.Valid(store) && id in store.states
    ensures Store.Valid(store.(states := store.states[id := status]))
  {
    hide Store.ProposalId;
    var next := store.(states := store.states[id := status]);
    assert next.states.Keys == store.states.Keys;
    forall p | p in next.proposals ensures Store.Numbered(next, p) {
      assert Store.Numbered(store, p);
      Store.NumberedGrows(store, next, p);
    }
  }

  /** An accepted handler's call is on record and its operation exists. */
  lemma CallOfAccepted(s: System, h: HandlerId)
    requires Inv(s)
    ensures h in s.history.accepted ==>
      h in s.consumes && AcceptanceOk(s.consumes, s.history.issued, h, s.history.accepted[h])
      && ConsumeOk(s.store.proposals, s.handlers, s.history.issued, s.history.accepted, h, s.consumes[h])
  {
    hide Store.Valid, IssuesOk, NoncesOk, SingleUse, StagesOk, EffectsOk, HoldersOk, EventsOk, RepliesOk, AbandonedOk,
      CreatedOnce, LockOk, TimesOk, ConsumeOk, Authority.SameBinding;
  }

  /** What a handler at its begin step knows. */
  lemma BeginningKnown(s: System, h: HandlerId)
    requires Inv(s) && At(s, h, Beginning)
    ensures h in s.history.accepted && h in s.consumes && h !in s.history.effects && h !in s.creates
    ensures s.handlers[h].request.Approve? && s.handlers[h].request.proposalId in s.store.proposals
    ensures s.history.accepted[h].when < s.ticks
  {
    CallOfAccepted(s, h);
    hide Store.Valid, IssuesOk, NoncesOk, AcceptedOk, SingleUse, ConsumesOk, HoldersOk, EventsOk, RepliesOk,
      AbandonedOk, CreatedOnce, LockOk, EffectOk, EvidenceOk, Granted;
    assert StageOk(s.handlers[h], h, s.consumes, s.creates, s.unlocks, s.history.accepted, s.history.effects,
                   s.history.evidence);
  }

  lemma StageMoves(handlers: Handlers, h: HandlerId, stage: Stage)
    requires h in handlers
    ensures SameRequests(handlers, handlers[h := handlers[h].(stage := stage)])
  {
  }

  /** Handler h sends its event request; the proposal is already approving in its name or approved. */
  lemma CreateSent(s: System, h: HandlerId, retry: bool, call: CreateCall, states: States, holder: Holders, t: System)
    requires Inv(s) && At(s, h, Beginning) && h !in s.creates && h !in s.history.effects
    requires t == Move(s, h, Creating(retry)).(
      store := s.store.(states := states), creates := s.creates[h := call],
      history := s.history.(effects := s.history.effects[h := CreateEvent(call.arguments, s.ticks)], holder := holder),
      ticks := s.ticks + 1)
    requires StageOk(t.handlers[h], h, s.consumes, t.creates, s.unlocks, s.history.accepted, t.history.effects,
                     s.history.evidence)
    requires EffectOk(s.store.proposals, t.handlers, t.creates, s.unlocks, s.history.accepted, s.history.evidence, h,
                      t.history.effects[h])
    requires Store.Valid(t.store) && HoldersOk(states, t.handlers, holder) && CommitmentKept(s.store.states, states)
    requires RepliesOk(states, holder, s.events, s.history.abandoned, s.creates)
    requires call.reply == None && ReplyOk(states, holder, s.events, s.history.abandoned, h, call)
    ensures Inv(t)
  {
    hide CommitmentKept, ReplyOk, StageOk, EffectOk, SameRequests;
    hide Store.Valid, IssuesOk, NoncesOk, AcceptedOk, SingleUse, ConsumesOk, StagesOk, EffectsOk, HoldersOk, EventsOk,
      RepliesOk, AbandonedOk, CreatedOnce, LockOk, TimesOk;
    var y := s.history;
    TimesGrow(s);
    StageMoves(s.handlers, h, Creating(retry));
    EffectTimes(y.issued, y.accepted, y.effects, y.evidence, t.ticks, h, t.history.effects[h]);
    ConsumesGrow(s.store.proposals, s.handlers, s.consumes, y.issued, y.accepted, s.store.proposals, t.handlers,
                 y.issued);
    StagesStep(h, s.handlers, s.consumes, s.creates, s.unlocks, y.accepted, y.effects, y.evidence,
               t.handlers, s.consumes, t.creates, s.unlocks, y.accepted, t.history.effects, y.evidence);
    EffectsGrow(s.store.proposals, s.handlers, s.creates, s.unlocks, y.accepted, y.effects, y.evidence,
                s.store.proposals, t.handlers, y.accepted);
    EffectsAddCreate(s.store.proposals, t.handlers, s.creates, s.unlocks, y.accepted, y.effects, y.evidence, h, call,
                     s.ticks);
    EventsKept(s.store.proposals, s.store.states, s.events, y.abandoned, s.store.proposals, states);
    RepliesPut(states, holder, s.events, y.abandoned, s.creates, h, call);
    CreatesPut(y.abandoned, s.creates, h, call);
  }

  lemma OperationArguments(store: Store.StoreState, id: string)
    requires Store.Valid(store) && id in store.proposals
    ensures Store.OperationFor(store.proposals[id]).arguments.proposalId == id
    ensures Store.OperationFor(store.proposals[id]).arguments.idempotencyKey == Store.IdempotencyKey(id)
    ensures id in store.states
  {
    hide Store.Numbered;
    assert id in store.states.Keys;
  }

  /** What the request sent at the begin step is about. */
  lemma SentIsOk(s: System, h: HandlerId, retry: bool, call: CreateCall, effects: Effects)
    requires Inv(s) && At(s, h, Beginning) && s.handlers[h].request.proposalId in s.store.proposals
    requires call == CreateCall(Store.OperationFor(s.store.proposals[s.handlers[h].request.proposalId]).arguments, None)
    ensures s.handlers[h].request.Approve? && h in s.history.accepted
    ensures var handlers := Move(s, h, Creating(retry)).handlers;
      EffectOk(s.store.proposals, handlers, s.creates[h := call], s.unlocks, s.history.accepted, s.history.evidence, h,
               CreateEvent(call.arguments, s.ticks))
      && StageOk(handlers[h], h, s.consumes, s.creates[h := call], s.unlocks, s.history.accepted, effects,
                 s.history.evidence)
  {
    hide Inv, Granted, Store.OperationFor;
    BeginningKnown(s, h);
  }

  lemma BeginPending(s: System, h: HandlerId, t: System)
    requires Inv(s) && At(s, h, Beginning) && s.handlers[h].request.Approve?
      && t == AfterBegin(s, h).(ticks := s.ticks + 1)
    requires var id := s.handlers[h].request.proposalId;
      id in s.store.proposals && id in s.store.states && s.store.states[id] == Store.Pending
    ensures Inv(t)
  {
    hide Granted, Store.OperationFor, EffectOk, StageOk;
    hide Store.Valid, IssuesOk, NoncesOk, AcceptedOk, SingleUse, ConsumesOk, StagesOk, EffectsOk, HoldersOk, EventsOk,
      RepliesOk, AbandonedOk, CreatedOnce, LockOk, TimesOk;
    var y, id := s.history, s.handlers[h].request.proposalId;
    BeginningKnown(s, h);
    OperationArguments(s.store, id);
    var call := CreateCall(Store.OperationFor(s.store.proposals[id]).arguments, None);
    SentIsOk(s, h, false, call, t.history.effects);
    HolderAbsent(s.store.states, s.handlers, y.holder, id);
    StatusKeepsValid(s.store, id, Store.Approving);
    HoldersBegin(s.store.states, s.handlers, y.holder, h, t.handlers[h], id);
    RepliesBegin(s.store.states, y.holder, s.events, y.abandoned, s.creates, h, id);
    CreateSent(s, h, false, call, s.store.states[id := Store.Approving], y.holder[id := h], t);
  }

  lemma BeginRetry(s: System, h: HandlerId, t: System)
    requires Inv(s) && At(s, h, Beginning) && s.handlers[h].request.Approve?
      && t == AfterBegin(s, h).(ticks := s.ticks + 1)
    requires var id := s.handlers[h].request.proposalId;
      id in s.store.proposals && id in s.store.states && s.store.states[id] == Store.Approved
    ensures Inv(t)
  {
    hide Granted, Store.OperationFor, EffectOk, StageOk;
    hide Store.Valid, IssuesOk, NoncesOk, AcceptedOk, SingleUse, ConsumesOk, StagesOk, EffectsOk, HoldersOk, EventsOk,
      RepliesOk, AbandonedOk, CreatedOnce, LockOk, TimesOk;
    var y, id := s.history, s.handlers[h].request.proposalId;
    BeginningKnown(s, h);
    OperationArguments(s.store, id);
    var call := CreateCall(Store.OperationFor(s.store.proposals[id]).arguments, None);
    SentIsOk(s, h, true, call, t.history.effects);
    HoldersRetry(s.store.states, s.handlers, y.holder, h, t.handlers[h], id);
    CreateSent(s, h, true, call, s.store.states, y.holder, t);
  }

  lemma BeginKeeps(s: System, h: HandlerId, t: System)
    requires Inv(s) && At(s, h, Beginning) && s.handlers[h].request.Approve?
      && t == AfterBegin(s, h).(ticks := s.ticks + 1)
    ensures Inv(t)
  {
    hide Inv, Granted, Store.OperationFor;
    var id := s.handlers[h].request.proposalId;
    if id in s.store.proposals && id in s.store.states && s.store.states[id] == Store.Pending {
      BeginPending(s, h, t);
    } else if id in s.store.proposals && id in s.store.states && s.store.states[id] == Store.Approved {
      BeginRetry(s, h, t);
    } else {
      MoveKeeps(s, h, t.handlers[h], t);
    }
  }

  // ----- Deny -----

  lemma FinishedIsOk(handler: Handler, h: HandlerId, consumes: Consumes, creates: Creates, unlocks: Unlocks,
                     accepted: Acceptances, effects: Effects, evidence: Evidences)
    requires handler.stage.Finished?
    ensures StageOk(handler, h, consumes, creates, unlocks, accepted, effects, evidence)
  {
  }

  lemma DenyKeeps(s: System, h: HandlerId, t: System)
    requires Inv(s) && At(s, h, Denying) && s.handlers[h].request.Deny? && t == AfterDeny(s, h).(ticks := s.ticks + 1)
    ensures Inv(t)
  {
    hide Granted, StageOk, SameRequests;
    hide Store.Valid, IssuesOk, NoncesOk, AcceptedOk, SingleUse, ConsumesOk, StagesOk, EffectsOk, HoldersOk, EventsOk,
      RepliesOk, AbandonedOk, CreatedOnce, LockOk, TimesOk;
    var y, id := s.history, s.handlers[h].request.proposalId;
    var (store, error) := Store.Denying(s.store, id);
    assert StageOk(t.handlers[h], h, s.consumes, s.creates, s.unlocks, y.accepted, y.effects, y.evidence) by {
      FinishedIsOk(t.handlers[h], h, s.consumes, s.creates, s.unlocks, y.accepted, y.effects, y.evidence);
    }
    var u := t.(store := s.store);
    MoveKeeps(s, h, t.handlers[h], u);
    if error == None {
      StatusKeepsValid(s.store, id, Store.Denied);
      HoldersKept(s.store.states, u.handlers, y.holder, t.store.states, u.handlers);
      EventsKept(s.store.proposals, s.store.states, s.events, y.abandoned, s.store.proposals, t.store.states);
      RepliesKeptBy(s.store.states, y.holder, s.events, y.abandoned, s.creates, t.store.states);
    }
  }

}
