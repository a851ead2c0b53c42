/**
 * The workflow execution context and the per-run session.
 *
 * A `Context` holds key/value state in two scopes: a global store shared by
 * every Context derived from the same root, and a private map seen only by the
 * Context that wrote it. Contexts form a tree through `parent`; a child reads
 * and writes its root's global store, but a key that is private to one of its
 * ancestors is off limits to it. Each Context also keeps the buffers of its
 * event-collection barriers.
 *
 * A `Session` is one run of a workflow: one event queue per step, the log of
 * events the broker delivered, the run's return value, a root Context and the
 * Contexts handed out to individual steps.
 */
module WorkflowContext {
  import opened Wrappers
  import opened Events
  import Collector

  /** What a step declares through its step configuration: the event kinds it accepts. */
  datatype StepConfig = StepConfig(acceptedEvents: set<EventKind>)

  /** The `ValueError`s a Context raises, one variant per cause. */
  datatype ContextError =
    | ConfigurationError          // neither a session nor a parent
    | DuplicateKey(key: string)   // private key that already exists above
    | PrivacyViolation(key: string)
    | KeyNotFound(key: string)

  /** The `WorkflowRuntimeError`s of `send_event`. */
  datatype RuntimeError =
    | StepDoesNotExist(step: string)
    | StepDoesNotAccept(step: string, kind: EventKind)

  /** A workflow, seen through its registered steps (`_get_steps()`). */
  class Workflow {
    const steps: map<string, StepConfig>

    constructor (steps: map<string, StepConfig>)
      ensures this.steps == steps
    {
      this.steps := steps;
    }
  }

  /** The global partition shared by a root Context and all its descendants. */
  class GlobalStore {
    var globals: map<string, Value>

    constructor ()
      ensures globals == map[]
    {
      globals := map[];
    }
  }

  class Context {
    const session: Session
    const parent: Context?
    const store: GlobalStore
    /** The parent, its parent, and so on up to the root. */
    ghost const ancestors: seq<Context>
    var locals: map<string, Value>
    /** Barrier buffers, keyed by the list of required kinds. */
    var buffers: map<seq<EventKind>, seq<Event>>

    /**
     * The tree shape: `ancestors` lists the parent chain, every Context on it
     * is linked the same way, and they all share one global store.
     */
    ghost predicate Linked()
      decreases |ancestors|
    {
      if parent == null then ancestors == []
      else
        && |ancestors| > 0
        && ancestors[0] == parent
        && parent.ancestors == ancestors[1..]
        && parent.store == store
        && parent.Linked()
    }

    /** `key` is private to some ancestor of this Context. */
    ghost predicate PrivateAbove(key: string)
      reads ancestors
    {
      exists j :: 0 <= j < |ancestors| && key in ancestors[j].locals
    }

    /**
     * `Context(session=..., parent=...)`. A Context without a parent is a root
     * with a fresh global store; a child shares its parent's store and, when
     * given no session, its parent's session.
     */
    constructor (session: Session?, parent: Context?)
      requires session != null || parent != null
      requires parent != null ==> parent.Linked()
      ensures this.parent == parent && Linked()
      ensures this.session == if session != null then session else parent.session
      ensures parent == null ==> fresh(store) && store.globals == map[]
      ensures parent != null ==> store == parent.store
      ensures locals == map[] && buffers == map[]
    {
      this.session := if session != null then session else parent.session;
      this.parent := parent;
      if parent != null {
        this.store := parent.store;
      } else {
        this.store := new GlobalStore();
      }
      this.ancestors := if parent != null then [parent] + parent.ancestors else [];
      locals := map[];
      buffers := map[];
    }

    /** Construction with the source's error path: neither a session nor a parent fails. */
    static method Create(session: Session?, parent: Context?) returns (r: Result<Context, ContextError>)
      requires parent != null ==> parent.Linked()
      ensures r.Err? <==> session == null && parent == null
      ensures r.Err? ==> r.error == ConfigurationError
      ensures r.Ok? ==> fresh(r.value) && r.value.parent == parent && r.value.Linked()
      ensures r.Ok? ==> r.value.locals == map[] && r.value.buffers == map[]
      ensures r.Ok? && parent != null ==> r.value.store == parent.store
      ensures r.Ok? && parent == null ==> fresh(r.value.store) && r.value.store.globals == map[]
      ensures r.Ok? ==> r.value.session == if session != null then session else parent.session
    {
      if session == null && parent == null {
        return Err(ConfigurationError);
      }
      var c := new Context(session, parent);
      return Ok(c);
    }

    /** Every Context on the parent chain is itself linked, with the rest of the chain above it. */
    lemma {:induction false} AncestorLinked(j: nat)
      requires Linked() && j < |ancestors|
      ensures ancestors[j].Linked() && ancestors[j].ancestors == ancestors[j + 1..]
      ensures ancestors[j].store == store
      decreases j
    {
      if j > 0 {
        parent.AncestorLinked(j - 1);
      }
    }

    /** A Context is never its own ancestor. */
    lemma NotOwnAncestor()
      requires Linked()
      ensures this !in ancestors
    {
      forall j | 0 <= j < |ancestors| ensures ancestors[j] != this {
        AncestorLinked(j);
      }
    }

    /**
     * `set(key, value, make_private)`. A global write lands in the shared store
     * and always succeeds. A private write lands in this Context's own map, and
     * fails without changing anything when the key is already global or is
     * private to an ancestor.
     */
    method Set(key: string, value: Value, makePrivate: bool) returns (r: Outcome<ContextError>)
      requires Linked()
      modifies this`locals, store
      ensures !makePrivate ==>
        r == Pass && store.globals == old(store.globals)[key := value] && locals == old(locals)
      ensures makePrivate && (key in old(store.globals) || old(PrivateAbove(key))) ==>
        r == Fail(DuplicateKey(key)) && unchanged(store) && locals == old(locals)
      ensures makePrivate && !(key in old(store.globals) || old(PrivateAbove(key))) ==>
        r == Pass && locals == old(locals)[key := value] && unchanged(store)
      ensures PrivateAbove(key) == old(PrivateAbove(key))
    {
      NotOwnAncestor();
      if !makePrivate {
        store.globals := store.globals[key := value];
        return Pass;
      }
      if key in store.globals {
        return Fail(DuplicateKey(key));
      }
      var above := HasPrivateAbove(key);
      if above {
        return Fail(DuplicateKey(key));
      }
      locals := locals[key := value];
      return Pass;
    }

    /** Walks the parent chain looking for `key` in an ancestor's private map. */
    method HasPrivateAbove(key: string) returns (found: bool)
      requires Linked()
      ensures found == PrivateAbove(key)
    {
      var p := parent;
      ghost var i := 0;
      while p != null
        invariant 0 <= i <= |ancestors|
        invariant p == null ==> i == |ancestors|
        invariant p != null ==> i < |ancestors| && p == ancestors[i] && p.Linked() && p.ancestors == ancestors[i + 1..]
        invariant forall j :: 0 <= j < i ==> key !in ancestors[j].locals
        decreases |ancestors| - i
      {
        if key in p.locals {
          return true;
        }
        p, i := p.parent, i + 1;
      }
      return false;
    }

    /**
     * `get(key, default)`: this Context's private value, else the global one;
     * a key private to an ancestor is a privacy violation, never answered with
     * the default; otherwise the default when one is given, else not found.
     */
    method Get(key: string, defaultValue: Option<Value>) returns (r: Result<Value, ContextError>)
      requires Linked()
      ensures key in locals ==> r == Ok(locals[key])
      ensures key !in locals && key in store.globals ==> r == Ok(store.globals[key])
      ensures key !in locals && key !in store.globals && PrivateAbove(key) ==>
        r == Err(PrivacyViolation(key))
      ensures key !in locals && key !in store.globals && !PrivateAbove(key) ==>
        r == (if defaultValue.Some? then Ok(defaultValue.value) else Err(KeyNotFound(key)))
    {
      if key in locals {
        return Ok(locals[key]);
      }
      if key in store.globals {
        return Ok(store.globals[key]);
      }
      var above := HasPrivateAbove(key);
      if above {
        return Err(PrivacyViolation(key));
      }
      if defaultValue.Some? {
        return Ok(defaultValue.value);
      }
      return Err(KeyNotFound(key));
    }

    /** The legacy `data` mapping: the global partition itself, without any private key. */
    function Data(): (d: map<string, Value>)
      reads store
      ensures d == store.globals
    {
      store.globals
    }

    /** `data[key] = value`, which is a global `set`. */
    method SetData(key: string, value: Value)
      modifies store
      ensures store.globals == old(store.globals)[key := value]
    {
      store.globals := store.globals[key := value];
    }

    /**
     * `collect_events(ev, required)`. The event joins the buffer of this
     * requirement list; once the buffer can supply one event per required
     * entry, that batch is returned in the order of `required` and the buffer
     * is dropped; until then the result is None and the buffer is kept. An
     * event of a kind a non-empty list does not mention leaves every buffer as
     * it is; an empty list is satisfied at once and releases an empty batch.
     */
    method CollectEvents(ev: Event, required: seq<EventKind>) returns (r: Option<seq<Event>>)
      modifies this`buffers
      ensures required != [] && ev.kind !in required ==> r == None && buffers == old(buffers)
      ensures required == [] || ev.kind in required ==>
        var buffer := (if required in old(buffers) then old(buffers)[required] else []) + [ev];
        && r == Collector.Pick(buffer, required)
        && buffers == if r.Some? then old(buffers) - {required} else old(buffers)[required := buffer]
    {
      if required != [] && ev.kind !in required {
        return None;
      }
      var buffer := (if required in buffers then buffers[required] else []) + [ev];
      r := Collector.Pick(buffer, required);
      if r.Some? {
        buffers := buffers - {required};
      } else {
        buffers := buffers[required := buffer];
      }
    }
  }

  class Session {
    const workflow: Workflow
    /** One queue per step (`_queues`). */
    var queues: map<string, seq<Event>>
    /** Every event the broker delivered (`_broker_log`). */
    var brokerLog: seq<Event>
    /** The run's return value (`_retval`). */
    var retval: Value
    var rootContext: Context?
    var stepToContext: map<string, Context>

    ghost predicate Valid()
      reads this
    {
      && queues.Keys == workflow.steps.Keys
      && rootContext != null
      && rootContext.parent == null
      && rootContext.session == this
      && rootContext.Linked()
      && forall s :: s in stepToContext ==>
           && stepToContext[s].parent == rootContext
           && stepToContext[s].session == this
           && stepToContext[s].Linked()
    }

    /** A fresh session: empty queues for every step, empty log, a new root Context. */
    constructor (workflow: Workflow)
      ensures Valid() && this.workflow == workflow
      ensures forall s :: s in queues ==> queues[s] == []
      ensures brokerLog == [] && retval == NoneValue && stepToContext == map[]
      ensures fresh(rootContext) && fresh(rootContext.store)
      ensures rootContext.store.globals == map[] && rootContext.locals == map[] && rootContext.buffers == map[]
    {
      this.workflow := workflow;
      queues := map s | s in workflow.steps :: [];
      brokerLog := [];
      retval := NoneValue;
      stepToContext := map[];
      new;
      rootContext := new Context(this, null);
    }

    /**
     * `send_event(ev, step)`. Without a step the event goes on every step's
     * queue; with one, the step must exist and accept the event's kind, and the
     * event goes on that step's queue only. A delivered event is appended to
     * the broker log; a refused one changes nothing.
     */
    method SendEvent(ev: Event, step: Option<string>) returns (r: Outcome<RuntimeError>)
      requires Valid()
      modifies this`queues, this`brokerLog
      ensures Valid()
      ensures step.None? ==>
        && r == Pass
        && queues.Keys == old(queues).Keys
        && (forall s :: s in queues ==> queues[s] == old(queues)[s] + [ev])
        && brokerLog == old(brokerLog) + [ev]
      ensures step.Some? && step.value !in workflow.steps ==>
        r == Fail(StepDoesNotExist(step.value)) && unchanged(this)
      ensures step.Some? && step.value in workflow.steps
              && ev.kind !in workflow.steps[step.value].acceptedEvents ==>
        r == Fail(StepDoesNotAccept(step.value, ev.kind)) && unchanged(this)
      ensures step.Some? && step.value in workflow.steps
              && ev.kind in workflow.steps[step.value].acceptedEvents ==>
        && r == Pass
        && queues == old(queues)[step.value := old(queues)[step.value] + [ev]]
        && brokerLog == old(brokerLog) + [ev]
    {
      if step.None? {
        var pending := queues.Keys;
        while pending != {}
          invariant pending <= queues.Keys
          invariant queues.Keys == old(queues).Keys
          invariant forall s :: s in queues && s in pending ==> queues[s] == old(queues)[s]
          invariant forall s :: s in queues && s !in pending ==> queues[s] == old(queues)[s] + [ev]
          invariant brokerLog == old(brokerLog)
          decreases pending
        {
          var s :| s in pending;
          queues := queues[s := queues[s] + [ev]];
          pending := pending - {s};
        }
      } else {
        var name := step.value;
        if name !in workflow.steps {
          return Fail(StepDoesNotExist(name));
        }
        if ev.kind !in workflow.steps[name].acceptedEvents {
          return Fail(StepDoesNotAccept(name, ev.kind));
        }
        queues := queues[name := queues[name] + [ev]];
      }
      brokerLog := brokerLog + [ev];
      return Pass;
    }

    /** `get_result()`: the value the run stored as its result. */
    method GetResult() returns (r: Value)
      ensures r == retval
    {
      return retval;
    }

    /**
     * `get_context(step)`: the Context recorded for `step`, created as a child
     * of the root Context the first time the step asks for one.
     */
    method GetContext(step: string) returns (ctx: Context)
      requires Valid()
      modifies this`stepToContext
      ensures Valid()
      ensures step in stepToContext && stepToContext[step] == ctx
      ensures ctx.parent == rootContext && ctx.session == this
      ensures step in old(stepToContext) ==> ctx == old(stepToContext)[step] && stepToContext == old(stepToContext)
      ensures step !in old(stepToContext) ==> fresh(ctx) && stepToContext == old(stepToContext)[step := ctx]
      ensures step !in old(stepToContext) ==> ctx.locals == map[] && ctx.buffers == map[]
      ensures ctx.store == rootContext.store
    {
      if step in stepToContext {
        ctx := stepToContext[step];
        return;
      }
      ctx := new Context(null, rootContext);
      stepToContext := stepToContext[step := ctx];
    }
  }
}
