# A Dafny model of llama_index's workflow context and mock tokenizer

This project models four small, sequential pieces of llama_index:

- **`mock_tokenizer`**, the whitespace tokenizer of the legacy test utilities. It splits text at every space and newline (`re.split(r"[ \n]", text)`), strips each piece of surrounding whitespace, drops the pieces that strip to `""`, and keeps the rest in order. The loop is the method `MockUtils.MockTokenizer`. The function `MockUtils.Tokens` states its result, and the lemmas beside it prove what the tokens look like, their order, a bound on their number, when none come out, and that re-tokenizing their space-join is a no-op.
- **The workflow `Context`**. A Context is built from a session or a parent. Its key/value state has two scopes:
  - a global store, shared by a root Context and all its descendants;
  - a private map, owned by one Context.

  The Context also holds the event-collection barrier (`collect_events`). The selection rule of the barrier is the pure function `Collector.Pick`, with lemmas that relate it to multiset inclusion and to first-in-first-out order per kind. `WorkflowContext.Context` is a class that holds a map and a parent reference, as in the source.
- **The `Session` of a workflow run**. It holds one event queue per step, the broker log, the run's return value, a root Context, and the per-step Contexts. `send_event` broadcasts an event or routes it to one named step.
- **`ServiceManager`**, the name-to-workflow registry.

`WorkflowScenarios` and the last two methods of `Service` replay the assertions of the workflow tests. Each scenario method states, in its `ensures`, what the test asserts; all but `Service.AddThenGet`, which takes any existing registry, create their own objects. The lemmas `WorkflowScenarios.PairReleased` and `WorkflowScenarios.TripleReleased` state the barrier releases those scenarios rely on.

The implementation files of Context, Session and ServiceManager are not part of this model. Their behaviour here is what their tests (`test_context.py`, `test_session.py`, `test_service.py`, `test_workflow.py`) assert. Where no test settles a point, the rule below is marked *model's choice*.

- **`Context.get` resolution order:**
  1. the Context's own private map (`test_context.py:57-62` reads a private key back; that it comes before a global value of the same key is a *model's choice*, since no test sets a key in both places);
  2. the global store (`test_context.py:48-54`);
  3. a key private to an ancestor is refused (`test_context.py:63-65`, which passes no default and expects a `ValueError`); that the refusal is a privacy violation distinct from not-found, and that a default does not override it, is a *model's choice*;
  4. the default when one is given (`test_context.py:78-81`);
  5. otherwise not found (*model's choice*: no test reads a missing key without a default).
- **A private `set` fails (duplicate key)** when the key is already global (`test_context.py:68-75`) or is private to an ancestor (*model's choice*). In both cases nothing changes (*model's choice*).
- **The barrier:**
  - Buffers are kept per Context, keyed by the list of required kinds (*model's choice*).
  - An event whose kind a non-empty list does not mention leaves every buffer as it is (*model's choice*: in `test_workflow.py:139-147` a `LastEvent` reaches a barrier waiting on `AnotherTestEvent` only, and the run ends with the three collected events, which buffering it unused would give as well).
  - Once the buffer holds one event per required entry, the batch is returned in the order of the list (`test_context.py:35-45`), and the buffer is dropped (*model's choice*).
  - For each entry, the batch holds the oldest buffered event of that kind (*model's choice*: `test_workflow.py:156` compares the results as a set).
  - A kind listed n times needs n events (`test_workflow.py:142-156`).
  - An empty list is satisfied at once and releases an empty batch (*model's choice*: every required entry has an event).
- **`send_event`:**
  - With no step, the event goes on every step's queue and in the broker log (`test_session.py:9-15`).
  - With a step that exists and accepts the event's kind, it goes on that queue only (`test_session.py:37-50`).
  - A missing step and a refusing step are distinct runtime errors (`test_session.py:18-34`), and neither changes anything (*model's choice*).
  - A targeted delivery is appended to the broker log too (*model's choice*: `test_session.py:37-50` checks only the queues).
- **`get_context(step)`** records the Context it returns under the step, as a child of the root Context (`test_session.py:58-61`). A second request for the same step returns the recorded Context again (*model's choice*: the test asks once).

Python's `ValueError`, `WorkflowRuntimeError` and `ServiceNotFoundError` become the variants of `ContextError`, `RuntimeError` and `ServiceError`. They are returned through `Result`/`Outcome` values.

## Model

| member | source | states |
|---|---|---|
| `MockUtils.MockTokenizer` | llama-index-legacy/tests/mock_utils/mock_utils.py:11-19 | the loop over the split pieces returns exactly `Tokens(text)`: each piece's strip, pieces stripping to "" skipped, in piece order |
| `MockUtils.Split` | llama-index-legacy/tests/mock_utils/mock_utils.py:13 | `re.split(r"[ \n]", s)` yields exactly one piece more than `s` has space/newline characters, no piece contains a space or newline, and a text without either is its own single piece; with `SplitAppend` this determines every split |
| `MockUtils.SplitAppend` | llama-index-legacy/tests/mock_utils/mock_utils.py:13 | splitting `a + [c] + b` at a separator `c` gives the pieces of `a` followed by the pieces of `b` |
| `MockUtils.LeadingWhitespace` | llama-index-legacy/tests/mock_utils/mock_utils.py:16 | the count of leading characters `strip` removes: all whitespace, and the next character (if any) is not |
| `MockUtils.TrailingWhitespace` | llama-index-legacy/tests/mock_utils/mock_utils.py:16 | the count of trailing characters `strip` removes: all whitespace, and the character before them (if any) is not |
| `MockUtils.Strip` | llama-index-legacy/tests/mock_utils/mock_utils.py:16-18 | `str.strip()` returns the part of its input that starts where the leading whitespace ends and is followed only by whitespace; it is empty exactly when the input is all whitespace, and otherwise starts and ends with non-whitespace (together these determine the result) |
| `MockUtils.StripIdempotent` | llama-index-legacy/tests/mock_utils/mock_utils.py:16-18 | stripping twice is stripping once |
| `MockUtils.TokensAreTokens` | llama-index-legacy/tests/mock_utils/mock_utils.py:15-18 | no output token is empty or whitespace-only, none starts or ends with whitespace, none contains a space or newline |
| `MockUtils.TokensAreStripped` | llama-index-legacy/tests/mock_utils/mock_utils.py:18 | every output token equals its own strip |
| `MockUtils.TokensBound` | llama-index-legacy/tests/mock_utils/mock_utils.py:13-19 | at most one token more than there are spaces and newlines in the input |
| `MockUtils.TokensOfPiece` | llama-index-legacy/tests/mock_utils/mock_utils.py:13-18 | a text without spaces or newlines yields its strip as its only token, or nothing when that strip is "" |
| `MockUtils.TokensAppend` | llama-index-legacy/tests/mock_utils/mock_utils.py:13-19 | order: the tokens of `a + [c] + b`, `c` a space or newline, are the tokens of `a` followed by those of `b` |
| `MockUtils.TokensEmptyIff` | llama-index-legacy/tests/mock_utils/mock_utils.py:15-17 | the result is empty exactly when the input is empty or all whitespace (both directions) |
| `MockUtils.TokensOfToken` | llama-index-legacy/tests/mock_utils/mock_utils.py:13-19 | a single well-formed token tokenizes to itself |
| `MockUtils.TokensOfJoin` | llama-index-legacy/tests/mock_utils/mock_utils.py:13-19 | round trip: space-joining well-formed tokens and tokenizing returns the same list |
| `MockUtils.TokenizeIdempotent` | llama-index-legacy/tests/mock_utils/mock_utils.py:13-19 | tokenizing the space-join of the output returns the same output |
| `Collector.Pick` | llama-index-core/tests/workflow/test_context.py:35-45 | a released batch holds one event per required entry whose kinds are the required list, in its order, and never needs more events than are buffered |
| `Collector.PickSomeIff` | llama-index-core/tests/workflow/test_workflow.py:142-147 | a batch is released exactly when the buffered kinds contain the required kinds with multiplicity (a kind required three times needs three events) |
| `Collector.PickFromBuffer` | llama-index-core/tests/workflow/test_context.py:38-41 | every released event was buffered, and none is released twice |
| `Collector.PickOldestFirst` | llama-index-core/tests/workflow/test_workflow.py:142-147 | per kind, the released events are the oldest buffered events of that kind, in arrival order |
| `Collector.PickExact` | llama-index-core/tests/workflow/test_context.py:35-45 | events that arrived in exactly the required order are released as they arrived |
| `WorkflowContext.Context.constructor` | llama-index-core/tests/workflow/test_context.py:48-54 | a root Context gets a fresh empty global store; a child shares its parent's store, and its session defaults to its parent's; the parent chain stays linked |
| `WorkflowContext.Context.Create` | llama-index-core/tests/workflow/test_context.py:15-17 | construction fails with a configuration error exactly when neither a session nor a parent is given; otherwise the new Context has an empty private map and no buffers, the given session (else its parent's), and its parent's store or, for a root, a fresh empty one |
| `WorkflowContext.Context.AncestorLinked` | llama-index-core/tests/workflow/test_context.py:53-54 | every ancestor is linked the same way and shares the one global store |
| `WorkflowContext.Context.NotOwnAncestor` | llama-index-core/tests/workflow/test_context.py:53 | a Context is never its own ancestor, so writing its private map never touches an ancestor's |
| `WorkflowContext.Context.Set` | llama-index-core/tests/workflow/test_context.py:48-75 | a global set always succeeds and writes only the shared store; a private set writes only this Context's map, or fails with a duplicate-key error and changes nothing when the key is global or private to an ancestor |
| `WorkflowContext.Context.HasPrivateAbove` | llama-index-core/tests/workflow/test_context.py:63-65 | walking the parent chain finds the key in an ancestor's private map exactly when some ancestor holds it |
| `WorkflowContext.Context.Get` | llama-index-core/tests/workflow/test_context.py:48-81 | own private value first, then the global one; a key private to an ancestor is a privacy violation; otherwise the default if given, else not found; the state is not changed |
| `WorkflowContext.Context.Data` | llama-index-core/tests/workflow/test_context.py:84-88 | the legacy `data` view is the global partition itself |
| `WorkflowContext.Context.SetData` | llama-index-core/tests/workflow/test_workflow.py:126 | a write through `data` is a global set |
| `WorkflowContext.Context.CollectEvents` | llama-index-core/tests/workflow/test_context.py:35-45 | the event joins this requirement list's buffer; the result is `Pick` of that buffer; a released batch drops the buffer, otherwise the buffer is kept; for a non-empty list, events of kinds it does not mention change nothing; an empty list releases an empty batch |
| `WorkflowContext.Session.constructor` | llama-index-core/tests/workflow/test_session.py:58-61 | a new session has an empty queue for every step and an empty broker log, no step Contexts, and a fresh root Context with a fresh empty global store, an empty private map and no buffers |
| `WorkflowContext.Session.SendEvent` | llama-index-core/tests/workflow/test_session.py:9-50 | no step: the event is appended to every queue and to the broker log; a missing step or a step not accepting the kind fails with the matching runtime error and changes nothing; an accepting step gets the event on its queue only |
| `WorkflowContext.Session.GetResult` | llama-index-core/tests/workflow/test_session.py:53-55 | returns the stored return value |
| `WorkflowContext.Session.GetContext` | llama-index-core/tests/workflow/test_session.py:58-61 | the returned Context is recorded under the step, its parent is the root Context and it shares the root's global store; a step asking for the first time gets a new Context with an empty private map and no buffers, and a step that already has one gets the same Context again |
| `WorkflowScenarios.ContextNeedsSessionOrParent` | llama-index-core/tests/workflow/test_context.py:15-17 | `Context()` fails with a configuration error |
| `WorkflowScenarios.GlobalSetSeenByChild` | llama-index-core/tests/workflow/test_context.py:48-54 | a global set on c1 is returned by get on its child c2 |
| `WorkflowScenarios.PrivateSetHiddenFromChild` | llama-index-core/tests/workflow/test_context.py:57-65 | a private set on c1 is returned by get on c1, and get on its child fails with a privacy violation |
| `WorkflowScenarios.PrivateSetOfGlobalKeyRefused` | llama-index-core/tests/workflow/test_context.py:68-75 | a child's private set of a key its parent set globally fails with a duplicate-key error |
| `WorkflowScenarios.GetAbsentWithDefault` | llama-index-core/tests/workflow/test_context.py:78-81 | get with a default of a key set nowhere returns the default |
| `WorkflowScenarios.GlobalSetShowsInData` | llama-index-core/tests/workflow/test_context.py:84-88 | a global set shows in the legacy `data` mapping |
| `WorkflowScenarios.CollectPairInEitherOrder` | llama-index-core/tests/workflow/test_context.py:20-45 | waiting on `[OneTestEvent, AnotherTestEvent]`: the first arrival gets None, the second gets `[ev1, ev2]`, whichever arrives first |
| `WorkflowScenarios.CollectRepeatedKind` | llama-index-core/tests/workflow/test_workflow.py:142-147 | waiting on `[AnotherTestEvent] * 3`: two Nones, then the three events in arrival order |
| `WorkflowScenarios.BroadcastOnNewSession` | llama-index-core/tests/workflow/test_session.py:9-15 | send without a step puts the event on every step's queue and the broker log becomes `[ev]` |
| `WorkflowScenarios.SendToMissingStep` | llama-index-core/tests/workflow/test_session.py:18-22 | sending to a step that does not exist fails with "step does not exist" and logs nothing |
| `WorkflowScenarios.SendToRefusingStep` | llama-index-core/tests/workflow/test_session.py:25-34 | sending to a step that does not accept the event's kind fails with "does not accept" |
| `WorkflowScenarios.SendToAcceptingStep` | llama-index-core/tests/workflow/test_session.py:37-50 | sending to an accepting step fills that queue and leaves every other queue empty |
| `WorkflowScenarios.DataSharedAcrossSteps` | llama-index-core/tests/workflow/test_workflow.py:126-143 | a value one step writes through `ctx.data` is read by `get` on the Context of any step and on the root Context |
| `WorkflowScenarios.StoredResultReturned` | llama-index-core/tests/workflow/test_session.py:53-55 | `get_result` returns the value stored as `_retval` |
| `Service.ServiceManager.Add` | llama-index-core/tests/workflow/test_service.py:55-59 | after `add(name, w)` the registry maps `name` to `w` and is otherwise unchanged |
| `Service.ServiceManager.Get` | llama-index-core/tests/workflow/test_service.py:62-68 | returns the workflow registered under the name, or `ServiceNotFoundError` for a name never added |
| `Service.AddThenGet` | llama-index-core/tests/workflow/test_service.py:55-66 | on any registry, add then get of the same name returns the added workflow, and get of another name is unaffected |
| `Service.FreshManagerLookup` | llama-index-core/tests/workflow/test_service.py:62-68 | on a new registry, get returns what add stored and fails with `ServiceNotFoundError` for a name never added |

## Left out

- `mock_extract_keywords` only calls `simple_extract_keywords`, and `simple_extract_keywords` is not part of this model.
- Concurrency is not modelled: each operation runs atomically, in sequence. This covers the async locks around `set`/`get`, the atomic check-and-drain of the barrier, parallel workers (`num_workers`), timeouts and concurrent runs.
- The step engine is not modelled. This covers running steps, `run_step` stepping, streaming of events to a caller, and the nested-workflow run. These depend on the event loop, on Python reflection and on type hints.
- Step decoration, signature validation and service injection are not modelled. They rest on Python reflection and type hints.
- The deprecation warning of `Workflow.send_event` is not modelled.
- Event classes are a closed enumeration, and a step accepts an event when its exact kind is listed. Python's runtime class objects are not modelled.
- `asyncio.Queue` objects are sequences; `put_nowait` appends.
- The session fixture that the tests use is not part of this model. The Session constructor assumes one empty queue per registered step, an empty log, no result and a fresh root Context.
- Error messages are not modelled. An error carries its cause and data (key, step name, event kind), not the message text.
- `WorkflowContext.Context.CollectEvents`: the barrier's buffer is keyed by the list of required kinds as given, so two orderings of the same kinds use separate buffers. A buffer is dropped once its batch is released, so extra events buffered beyond the batch are dropped with it.
- `WorkflowContext.Context.Data`: only reading the legacy view is a function; writing through it is the separate method `SetData`.
