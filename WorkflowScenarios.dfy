/**
 * The behaviour the workflow tests pin down, each as a client of the Context
 * and Session classes working on objects it creates itself, with the barrier
 * releases those clients rely on stated as lemmas.
 */
module WorkflowScenarios {
  import opened Wrappers
  import opened Events
  import opened WorkflowContext

  // ---------------------------------------------------------------------------
  // Context
  // ---------------------------------------------------------------------------

  /** `Context()` with neither a session nor a parent is refused. */
  method ContextNeedsSessionOrParent() returns (outcome: Outcome<ContextError>)
    ensures outcome == Fail(ConfigurationError)
  {
    var r := Context.Create(null, null);
    outcome := if r.Err? then Fail(r.error) else Pass;
  }

  /** A global `set` on a root Context is read back by `get` on its child. */
  method GlobalSetSeenByChild(session: Session, key: string, v: Value)
    returns (got: Result<Value, ContextError>)
    ensures got == Ok(v)
  {
    var c1 := new Context(session, null);
    var _ := c1.Set(key, v, false);
    var c2 := new Context(null, c1);
    got := c2.Get(key, None);
  }

  /**
   * A private `set` is read back on the same Context, while `get` on a child
   * fails with a privacy violation.
   */
  method PrivateSetHiddenFromChild(session: Session, key: string, v: Value)
    returns (own: Result<Value, ContextError>, fromChild: Result<Value, ContextError>)
    ensures own == Ok(v)
    ensures fromChild == Err(PrivacyViolation(key))
  {
    var c1 := new Context(session, null);
    var _ := c1.Set(key, v, true);
    own := c1.Get(key, None);
    var c2 := new Context(null, c1);
    assert c2.ancestors[0] == c1;
    fromChild := c2.Get(key, None);
  }

  /** A child cannot make private a key its parent already set globally. */
  method PrivateSetOfGlobalKeyRefused(session: Session, key: string, v1: Value, v2: Value)
    returns (outcome: Outcome<ContextError>)
    ensures outcome == Fail(DuplicateKey(key))
  {
    var c1 := new Context(session, null);
    var _ := c1.Set(key, v1, false);
    var c2 := new Context(null, c1);
    outcome := c2.Set(key, v2, true);
  }

  /** `get` with a default for a key set nowhere returns the default. */
  method GetAbsentWithDefault(session: Session, key: string, d: Value)
    returns (got: Result<Value, ContextError>)
    ensures got == Ok(d)
  {
    var c1 := new Context(session, null);
    got := c1.Get(key, Some(d));
  }

  /** A global `set` shows in the legacy `data` mapping. */
  method GlobalSetShowsInData(session: Session, key: string, v: Value)
    returns (data: map<string, Value>)
    ensures key in data && data[key] == v
  {
    var c1 := new Context(session, null);
    var _ := c1.Set(key, v, false);
    data := c1.Data();
  }

  /** The pair `[OneTestEvent, AnotherTestEvent]` is released in list order, whichever arrived first. */
  lemma PairReleased(ev1: Event, ev2: Event)
    requires ev1.kind == OneTestEvent && ev2.kind == AnotherTestEvent
    ensures Collector.Pick([ev1] + [ev2], [OneTestEvent, AnotherTestEvent]) == Some([ev1, ev2])
    ensures Collector.Pick([ev2] + [ev1], [OneTestEvent, AnotherTestEvent]) == Some([ev1, ev2])
  {
    PairInOrder(ev1, ev2);
    PairReversed(ev1, ev2);
  }

  lemma PairInOrder(ev1: Event, ev2: Event)
    requires ev1.kind == OneTestEvent && ev2.kind == AnotherTestEvent
    ensures Collector.Pick([ev1] + [ev2], [OneTestEvent, AnotherTestEvent]) == Some([ev1, ev2])
  {
    assert [ev1] + [ev2] == [ev1, ev2];
    assert Collector.Kinds([ev1, ev2]) == [OneTestEvent, AnotherTestEvent];
    Collector.PickExact([ev1, ev2]);
  }

  lemma PairReversed(ev1: Event, ev2: Event)
    requires ev1.kind == OneTestEvent && ev2.kind == AnotherTestEvent
    ensures Collector.Pick([ev2] + [ev1], [OneTestEvent, AnotherTestEvent]) == Some([ev1, ev2])
  {
    var required := [OneTestEvent, AnotherTestEvent];
    var buffer := [ev2, ev1];
    assert [ev2] + [ev1] == buffer;
    assert Collector.FirstOfKind(buffer, OneTestEvent) == 1;
    assert Collector.RemoveAt(buffer, 1) == [ev2];
    assert Collector.Kinds([ev2]) == required[1..];
    Collector.PickExact([ev2]);
    Collector.PickStep(buffer, required, 1, [ev2]);
    assert [buffer[1]] + [ev2] == [ev1, ev2];
  }

  /**
   * The barrier waiting on `[OneTestEvent, AnotherTestEvent]` answers None to
   * the first arrival and `[ev1, ev2]` to the second, whichever arrives first.
   */
  method CollectPairInEitherOrder(session: Session, ev1: Event, ev2: Event, oneFirst: bool)
    returns (first: Option<seq<Event>>, second: Option<seq<Event>>)
    requires ev1.kind == OneTestEvent && ev2.kind == AnotherTestEvent
    ensures first == None
    ensures second == Some([ev1, ev2])
  {
    var ctx := new Context(session, null);
    var required := [OneTestEvent, AnotherTestEvent];
    var early, late := if oneFirst then ev1 else ev2, if oneFirst then ev2 else ev1;
    assert [] + [early] == [early];
    first := ctx.CollectEvents(early, required);
    assert required in ctx.buffers && ctx.buffers[required] == [early];
    PairReleased(ev1, ev2);
    second := ctx.CollectEvents(late, required);
  }

  /** Three events of the one kind required three times are released in arrival order. */
  lemma TripleReleased(a: Event, b: Event, c: Event)
    requires a.kind == AnotherTestEvent && b.kind == AnotherTestEvent && c.kind == AnotherTestEvent
    ensures Collector.Pick([a, b] + [c], [AnotherTestEvent, AnotherTestEvent, AnotherTestEvent]) == Some([a, b, c])
  {
    assert [a, b] + [c] == [a, b, c];
    assert Collector.Kinds([a, b, c]) == [AnotherTestEvent, AnotherTestEvent, AnotherTestEvent];
    Collector.PickExact([a, b, c]);
  }

  /**
   * A kind required three times needs three events: the first two arrivals
   * get None, the third the three events in arrival order.
   */
  method CollectRepeatedKind(session: Session, a: Event, b: Event, c: Event)
    returns (r1: Option<seq<Event>>, r2: Option<seq<Event>>, r3: Option<seq<Event>>)
    requires a.kind == AnotherTestEvent && b.kind == AnotherTestEvent && c.kind == AnotherTestEvent
    ensures r1 == None && r2 == None
    ensures r3 == Some([a, b, c])
  {
    var ctx := new Context(session, null);
    var required := [AnotherTestEvent, AnotherTestEvent, AnotherTestEvent];
    assert [] + [a] == [a];
    r1 := ctx.CollectEvents(a, required);
    assert required in ctx.buffers && ctx.buffers[required] == [a];
    assert [a] + [b] == [a, b];
    r2 := ctx.CollectEvents(b, required);
    assert required in ctx.buffers && ctx.buffers[required] == [a, b];
    TripleReleased(a, b, c);
    r3 := ctx.CollectEvents(c, required);
  }

  // ---------------------------------------------------------------------------
  // Session
  // ---------------------------------------------------------------------------

  /** Without a step, the event lands on every step's queue and in the broker log. */
  method BroadcastOnNewSession(workflow: Workflow, ev: Event)
    returns (queues: map<string, seq<Event>>, log: seq<Event>)
    ensures queues.Keys == workflow.steps.Keys
    ensures forall s :: s in queues ==> queues[s] == [ev]
    ensures log == [ev]
  {
    var session := new Session(workflow);
    var _ := session.SendEvent(ev, None);
    queues, log := session.queues, session.brokerLog;
  }

  /** Sending to a step the workflow does not have is refused. */
  method SendToMissingStep(workflow: Workflow, ev: Event, step: string)
    returns (outcome: Outcome<RuntimeError>, log: seq<Event>)
    requires step !in workflow.steps
    ensures outcome == Fail(StepDoesNotExist(step))
    ensures log == []
  {
    var session := new Session(workflow);
    outcome := session.SendEvent(ev, Some(step));
    log := session.brokerLog;
  }

  /** Sending to a step that does not accept the event's kind is refused. */
  method SendToRefusingStep(workflow: Workflow, ev: Event, step: string)
    returns (outcome: Outcome<RuntimeError>)
    requires step in workflow.steps && ev.kind !in workflow.steps[step].acceptedEvents
    ensures outcome == Fail(StepDoesNotAccept(step, ev.kind))
  {
    var session := new Session(workflow);
    outcome := session.SendEvent(ev, Some(step));
  }

  /** Sending to an accepting step fills that step's queue only. */
  method SendToAcceptingStep(workflow: Workflow, ev: Event, step: string)
    returns (queues: map<string, seq<Event>>)
    requires step in workflow.steps && ev.kind in workflow.steps[step].acceptedEvents
    ensures queues.Keys == workflow.steps.Keys
    ensures queues[step] == [ev]
    ensures forall s :: s in queues && s != step ==> queues[s] == []
  {
    var session := new Session(workflow);
    var _ := session.SendEvent(ev, Some(step));
    queues := session.queues;
  }

  /**
   * A value one step writes through `data` is read by the Context another
   * step (or the same step again) gets from the session, and by the root.
   */
  method DataSharedAcrossSteps(workflow: Workflow, writer: string, reader: string, key: string, v: Value)
    returns (fromReader: Result<Value, ContextError>, fromRoot: Result<Value, ContextError>)
    ensures fromReader == Ok(v) && fromRoot == Ok(v)
  {
    var session := new Session(workflow);
    var w := session.GetContext(writer);
    w.SetData(key, v);
    var c := session.GetContext(reader);
    fromReader := c.Get(key, None);
    fromRoot := session.rootContext.Get(key, None);
  }

  /** `get_result` returns what the run stored as its result. */
  method StoredResultReturned(workflow: Workflow, v: Value) returns (got: Value)
    ensures got == v
  {
    var session := new Session(workflow);
    session.retval := v;
    got := session.GetResult();
  }
}
