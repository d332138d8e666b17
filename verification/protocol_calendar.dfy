/** The calendar's side of the protocol keeps the invariant: an event request arrives, its caller hears of it or gives
    up, and the approval is completed or cancelled. */
module ProtocolCalendar {
  import opened Text
  import opened Protocol
  import opened ProtocolInvariant
  import opened ProtocolSteps
  import opened ProtocolEffects
  import Store = MeetingStore
  import Calendar = CalendarServer

  // ----- An event request arrives -----

  /** A request on its way is for the stored operation of its handler's proposal. */
  lemma RequestKnown(s: System, h: HandlerId)
    requires Inv(s) && h in s.creates
    ensures h in s.handlers && s.handlers[h].request.Approve? && h in s.history.accepted
    ensures var id := s.handlers[h].request.proposalId;
      id in s.store.proposals && s.creates[h].arguments == Store.OperationFor(s.store.proposals[id]).arguments
      && s.creates[h].arguments.proposalId == id && s.creates[h].arguments.idempotencyKey == Store.IdempotencyKey(id)
    ensures ReplyOk(s.store.states, s.history.holder, s.events, s.history.abandoned, h, s.creates[h])
  {
    hide IssuesOk, NoncesOk, AcceptedOk, SingleUse, ConsumesOk, StagesOk, HoldersOk, EventsOk, AbandonedOk,
      CreatedOnce, LockOk, TimesOk, ReplyOk, EvidenceOk, Store.Numbered;
    assert EffectOk(s.store.proposals, s.handlers, s.creates, s.unlocks, s.history.accepted, s.history.evidence, h,
                    s.history.effects[h]);
  }

  lemma LiveIsCommitted(states: States, handlers: Handlers, holder: Holders, abandoned: Holders, h: HandlerId,
                        id: string)
    requires HoldersOk(states, handlers, holder) && Live(states, holder, abandoned, h, id)
    ensures Committed(states, abandoned, id)
  {
    hide Holding, Retrying;
  }

  /** The event stored under a proposal's key is that proposal's: requests of one store never conflict. */
  lemma StoredIsTheOperation(store: Store.StoreState, states: States, events: Calendar.Events, abandoned: Holders,
                             id: string)
    requires Store.Valid(store) && EventsOk(store.proposals, states, events, abandoned) && id in store.proposals
    requires Store.IdempotencyKey(id) in events
    ensures events[Store.IdempotencyKey(id)].arguments == Store.OperationFor(store.proposals[id]).arguments
  {
    hide Committed, TrimSpace, Store.Numbered;
    var stored := events[Store.IdempotencyKey(id)].arguments;
    Store.IdempotencyKeyInjective(stored.proposalId, id);
  }

  lemma EventsCreate(proposals: Proposals, states: States, events: Calendar.Events, abandoned: Holders, id: string,
                     a: Store.EventArguments)
    requires EventsOk(proposals, states, events, abandoned) && id in proposals && a.proposalId == id
    requires a == Store.OperationFor(proposals[id]).arguments && Committed(states, abandoned, id)
    ensures EventsOk(proposals, states, Calendar.Creating(events, a).0, abandoned)
    ensures forall key :: key in events ==>
      key in Calendar.Creating(events, a).0 && Calendar.Creating(events, a).0[key] == events[key]
  {
    hide Store.OperationFor, Committed, Calendar.ValidEvent, Calendar.EventId, Calendar.Filed, Store.IdempotencyKey;
    Calendar.CreatingKeepsFiled(events, a);
  }

  lemma RepliesGrow(states: States, holder: Holders, events: Calendar.Events, abandoned: Holders, creates: Creates,
                    events': Calendar.Events)
    requires RepliesOk(states, holder, events, abandoned, creates)
    requires forall key :: key in events ==> key in events' && events'[key] == events[key]
    ensures RepliesOk(states, holder, events', abandoned, creates)
  {
    hide Calendar.ValidEvent, HasEvent, Live;
  }

  lemma EffectsAnswer(proposals: Proposals, handlers: Handlers, creates: Creates, unlocks: Unlocks,
                      accepted: Acceptances, effects: Effects, evidence: Evidences, h: HandlerId, call: CreateCall)
    requires EffectsOk(proposals, handlers, creates, unlocks, accepted, effects, evidence)
    requires h in creates && call.arguments == creates[h].arguments
    ensures EffectsOk(proposals, handlers, creates[h := call], unlocks, accepted, effects, evidence)
  {
    hide Store.OperationFor, EvidenceOk;
  }

  /** The calendar's answer to a request that is still wanted. */
  lemma AnswerOk(states: States, holder: Holders, events: Calendar.Events, abandoned: Holders, h: HandlerId,
                 call: CreateCall)
    requires call.reply == None && Live(states, holder, abandoned, h, call.arguments.proposalId)
    requires call.arguments.idempotencyKey in events ==>
      events[call.arguments.idempotencyKey].arguments == call.arguments
    ensures var (events', reply) := Calendar.Creating(events, call.arguments);
      ReplyOk(states, holder, events', abandoned, h, call.(reply := Some(reply)))
      && (reply.Created? ==> call.arguments.idempotencyKey !in events)
  {
    hide Live, Calendar.ValidEvent, Calendar.EventId;
  }

  /** An event reported as created by an earlier request is stored. */
  lemma CreatedIsStored(states: States, holder: Holders, events: Calendar.Events, abandoned: Holders, creates: Creates,
                        key: string)
    requires RepliesOk(states, holder, events, abandoned, creates) && key !in events
    ensures forall k :: k in creates && WasCreated(creates[k]) ==> creates[k].arguments.idempotencyKey != key
  {
    hide Live, Calendar.ValidEvent;
  }

  lemma EventKeeps(s: System, h: HandlerId, t: System)
    requires Inv(s) && h in s.creates && s.creates[h].reply == None && t == AfterEvent(s, h).(ticks := s.ticks + 1)
    ensures Inv(t)
  {
    hide Calendar.Creating, Store.OperationFor, Store.IdempotencyKey, Committed, Live;
    hide Store.Valid, IssuesOk, NoncesOk, AcceptedOk, SingleUse, ConsumesOk, StagesOk, EffectsOk, HoldersOk, EventsOk,
      RepliesOk, AbandonedOk, CreatedOnce, LockOk, TimesOk;
    TimesGrow(s);
    RequestKnown(s, h);
    var y, id, call := s.history, s.handlers[h].request.proposalId, t.creates[h];
    LiveIsCommitted(s.store.states, s.handlers, y.holder, y.abandoned, h, id);
    if Store.IdempotencyKey(id) in s.events {
      StoredIsTheOperation(s.store, s.store.states, s.events, y.abandoned, id);
    } else {
      CreatedIsStored(s.store.states, y.holder, s.events, y.abandoned, s.creates, Store.IdempotencyKey(id));
    }
    AnswerOk(s.store.states, y.holder, s.events, y.abandoned, h, s.creates[h]);
    EventsCreate(s.store.proposals, s.store.states, s.events, y.abandoned, id, call.arguments);
    RepliesGrow(s.store.states, y.holder, s.events, y.abandoned, s.creates, t.events);
    RepliesPut(s.store.states, y.holder, t.events, y.abandoned, s.creates, h, call);
    CreatesPut(y.abandoned, s.creates, h, call);
    EffectsAnswer(s.store.proposals, s.handlers, s.creates, s.unlocks, y.accepted, y.effects, y.evidence, h, call);
    StagesSame(s.handlers, s.consumes, s.creates, s.unlocks, y.accepted, y.effects, y.evidence,
               s.consumes, t.creates, s.unlocks, y.accepted);
  }

  // ----- The caller hears of the event, or gives up -----

  lemma StageKnown(s: System, h: HandlerId)
    requires Inv(s) && h in s.handlers
    ensures StageOk(s.handlers[h], h, s.consumes, s.creates, s.unlocks, s.history.accepted, s.history.effects,
                    s.history.evidence)
  {
    hide Store.Valid, IssuesOk, NoncesOk, AcceptedOk, SingleUse, ConsumesOk, EffectsOk, HoldersOk, EventsOk,
      RepliesOk, AbandonedOk, CreatedOnce, LockOk, TimesOk, StageOk;
  }

  lemma CreateReturnsKeeps(s: System, h: HandlerId, t: System)
    requires Inv(s) && h in s.handlers && s.handlers[h].stage.Creating? && h in s.creates
      && HasEvent(s.creates[h].reply)
    requires t == AfterCreateReturns(s, h).(ticks := s.ticks + 1)
    ensures Inv(t)
  {
    hide Inv, Granted;
    StageKnown(s, h);
    MoveKeeps(s, h, t.handlers[h], t);
  }

  lemma CreateFailsKeeps(s: System, h: HandlerId, t: System)
    requires Inv(s) && h in s.handlers && s.handlers[h].stage.Creating?
      && t == AfterCreateFails(s, h).(ticks := s.ticks + 1)
    ensures Inv(t)
  {
    hide Inv, Granted;
    StageKnown(s, h);
    MoveKeeps(s, h, t.handlers[h], t);
  }

  // ----- Complete and cancel -----

  /** The handler that leaves an approving proposal is the one that holds it. */
  lemma LeavingKnown(s: System, h: HandlerId)
    requires Inv(s) && h in s.handlers && Holding(s.handlers[h])
    ensures var id := s.handlers[h].request.proposalId;
      id in s.history.holder && s.history.holder[id] == h && id in s.store.states
      && s.store.states[id] == Store.Approving
  {
    hide Store.Valid, IssuesOk, NoncesOk, AcceptedOk, SingleUse, ConsumesOk, StagesOk, EffectsOk, EventsOk, RepliesOk,
      AbandonedOk, CreatedOnce, LockOk, TimesOk;
  }

  lemma HoldersRelease(states: States, handlers: Handlers, holder: Holders, h: HandlerId, moved: Handler, id: string,
                       status: Store.Status)
    requires HoldersOk(states, handlers, holder) && h in handlers && Holding(handlers[h])
      && handlers[h].request.proposalId == id
    requires !Holding(moved) && !Retrying(moved) && status != Store.Approving
    ensures HoldersOk(states[id := status], handlers[h := moved], holder - {id})
  {
    hide Holding, Retrying;
  }

  /** A handler lets its proposal go, with the status, holder and abandoned approvals given. */
  lemma LeaveKeeps(s: System, h: HandlerId, states: States, holder: Holders, abandoned: Holders, t: System)
    requires Inv(s) && h in s.handlers && h in t.handlers && t.handlers[h].stage.Finished?
    requires t == Move(s, h, t.handlers[h].stage).(
      store := s.store.(states := states), history := s.history.(holder := holder, abandoned := abandoned),
      ticks := s.ticks + 1)
    requires Store.Valid(t.store) && HoldersOk(states, t.handlers, holder)
    requires EventsOk(s.store.proposals, states, s.events, abandoned)
      && RepliesOk(states, holder, s.events, abandoned, s.creates)
    requires AbandonedOk(abandoned, s.creates)
    ensures Inv(t)
  {
    hide StageOk, SameRequests;
    hide Store.Valid, IssuesOk, NoncesOk, AcceptedOk, SingleUse, ConsumesOk, StagesOk, EffectsOk, HoldersOk, EventsOk,
      RepliesOk, AbandonedOk, CreatedOnce, LockOk, TimesOk;
    var y := s.history;
    TimesGrow(s);
    StageMoves(s.handlers, h, t.handlers[h].stage);
    FinishedIsOk(t.handlers[h], h, s.consumes, s.creates, s.unlocks, y.accepted, y.effects, y.evidence);
    ConsumesGrow(s.store.proposals, s.handlers, s.consumes, y.issued, y.accepted, s.store.proposals, t.handlers,
                 y.issued);
    StagesStep(h, s.handlers, s.consumes, s.creates, s.unlocks, y.accepted, y.effects, y.evidence,
               t.handlers, s.consumes, s.creates, s.unlocks, y.accepted, y.effects, y.evidence);
    EffectsGrow(s.store.proposals, s.handlers, s.creates, s.unlocks, y.accepted, y.effects, y.evidence,
                s.store.proposals, t.handlers, y.accepted);
  }

  lemma EventsComplete(proposals: Proposals, states: States, events: Calendar.Events, abandoned: Holders, id: string)
    requires EventsOk(proposals, states, events, abandoned) && Store.IdempotencyKey(id) in events
    ensures EventsOk(proposals, states[id := Store.Approved], events, abandoned)
  {
    hide Store.OperationFor, Calendar.Filed, Store.IdempotencyKey;
  }

  lemma RepliesComplete(states: States, holder: Holders, events: Calendar.Events, abandoned: Holders, creates: Creates,
                        id: string)
    requires RepliesOk(states, holder, events, abandoned, creates)
    ensures RepliesOk(states[id := Store.Approved], holder - {id}, events, abandoned, creates)
  {
    hide Calendar.ValidEvent, HasEvent;
  }

  lemma CompleteKeeps(s: System, h: HandlerId, t: System)
    requires Inv(s) && At(s, h, Completing) && s.handlers[h].request.Approve? && h in s.creates
      && HasEvent(s.creates[h].reply)
    requires t == AfterComplete(s, h).(ticks := s.ticks + 1)
    ensures Inv(t)
  {
    hide Store.OperationFor, Store.IdempotencyKey, Live, Calendar.ValidEvent;
    hide Store.Valid, IssuesOk, NoncesOk, AcceptedOk, SingleUse, ConsumesOk, StagesOk, EffectsOk, HoldersOk, EventsOk,
      RepliesOk, AbandonedOk, CreatedOnce, LockOk, TimesOk;
    var y, id := s.history, s.handlers[h].request.proposalId;
    LeavingKnown(s, h);
    RequestKnown(s, h);
    StatusKeepsValid(s.store, id, Store.Approved);
    HoldersRelease(s.store.states, s.handlers, y.holder, h, t.handlers[h], id, Store.Approved);
    EventsComplete(s.store.proposals, s.store.states, s.events, y.abandoned, id);
    RepliesComplete(s.store.states, y.holder, s.events, y.abandoned, s.creates, id);
    LeaveKeeps(s, h, s.store.states[id := Store.Approved], y.holder - {id}, y.abandoned, t);
  }

  /** A cancelled approval whose event request may yet take effect is abandoned; what is stored stays accounted for. */
  lemma EventsAbandon(proposals: Proposals, states: States, events: Calendar.Events, abandoned: Holders, id: string,
                      h: HandlerId)
    requires EventsOk(proposals, states, events, abandoned) && id in states && states[id] == Store.Approving
    ensures EventsOk(proposals, states[id := Store.Pending], events, abandoned[id := h])
  {
    hide Store.OperationFor, Calendar.Filed, Store.IdempotencyKey;
  }

  /** An event the calendar refuses is not stored, so cancelling is clean. */
  lemma EventsRelease(proposals: Proposals, states: States, events: Calendar.Events, abandoned: Holders, id: string)
    requires EventsOk(proposals, states, events, abandoned) && id in states && states[id] == Store.Approving
    requires id in proposals && !Calendar.ValidEvent(Store.OperationFor(proposals[id]).arguments)
    ensures EventsOk(proposals, states[id := Store.Pending], events, abandoned)
  {
    hide Store.OperationFor, Calendar.ValidEvent, Store.IdempotencyKey;
  }

  lemma RepliesAbandon(states: States, holder: Holders, events: Calendar.Events, abandoned: Holders, creates: Creates,
                       id: string, h: HandlerId)
    requires RepliesOk(states, holder, events, abandoned, creates) && id in states && states[id] == Store.Approving
    ensures RepliesOk(states[id := Store.Pending], holder - {id}, events, abandoned[id := h], creates)
  {
    hide Calendar.ValidEvent, HasEvent;
  }

  lemma RepliesRelease(states: States, holder: Holders, events: Calendar.Events, abandoned: Holders, creates: Creates,
                       id: string, h: HandlerId)
    requires RepliesOk(states, holder, events, abandoned, creates) && id in states && states[id] == Store.Approving
    requires id in holder && holder[id] == h && h in creates && creates[h].reply == Some(Calendar.Invalid)
    ensures RepliesOk(states[id := Store.Pending], holder - {id}, events, abandoned, creates)
  {
    hide Calendar.ValidEvent, HasEvent;
  }

  lemma AbandonedAdd(abandoned: Holders, creates: Creates, id: string, h: HandlerId)
    requires AbandonedOk(abandoned, creates) && h in creates && creates[h].arguments.proposalId == id
    ensures AbandonedOk(abandoned[id := h], creates)
  {
  }

  lemma CancelKeeps(s: System, h: HandlerId, t: System)
    requires Inv(s) && At(s, h, Cancelling) && s.handlers[h].request.Approve? && h in s.creates
    requires t == AfterCancel(s, h).(ticks := s.ticks + 1)
    ensures Inv(t)
  {
    hide Store.OperationFor, Store.IdempotencyKey, Live, Calendar.ValidEvent;
    hide Store.Valid, IssuesOk, NoncesOk, AcceptedOk, SingleUse, ConsumesOk, StagesOk, EffectsOk, HoldersOk, EventsOk,
      RepliesOk, AbandonedOk, CreatedOnce, LockOk, TimesOk;
    var y, id := s.history, s.handlers[h].request.proposalId;
    LeavingKnown(s, h);
    RequestKnown(s, h);
    StatusKeepsValid(s.store, id, Store.Pending);
    HoldersRelease(s.store.states, s.handlers, y.holder, h, t.handlers[h], id, Store.Pending);
    if s.creates[h].reply == Some(Calendar.Invalid) {
      EventsRelease(s.store.proposals, s.store.states, s.events, y.abandoned, id);
      RepliesRelease(s.store.states, y.holder, s.events, y.abandoned, s.creates, id, h);
    } else {
      EventsAbandon(s.store.proposals, s.store.states, s.events, y.abandoned, id, h);
      RepliesAbandon(s.store.states, y.holder, s.events, y.abandoned, s.creates, id, h);
      AbandonedAdd(y.abandoned, s.creates, id, h);
    }
    LeaveKeeps(s, h, s.store.states[id := Store.Pending], y.holder - {id}, t.history.abandoned, t);
  }
}
