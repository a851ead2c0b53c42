/**
 * The selection rule of the event-collection barrier (`Context.collect_events`).
 *
 * A barrier waits on a list of required event kinds. It is satisfied once the
 * buffered events hold one distinct event per required entry (a kind listed
 * twice needs two events of that kind), and it then hands back, for each entry
 * in the order of the list, the oldest buffered event of that kind not already
 * handed back for an earlier entry.
 */
module Collector {
  import opened Wrappers
  import opened Events

  /** The kinds of a sequence of events, position by position. */
  function Kinds(events: seq<Event>): (kinds: seq<EventKind>)
    ensures |kinds| == |events|
    ensures forall i :: 0 <= i < |events| ==> kinds[i] == events[i].kind
  {
    seq(|events|, i requires 0 <= i < |events| => events[i].kind)
  }

  /** The events of kind `k`, in buffer order. */
  function OfKind(events: seq<Event>, k: EventKind): seq<Event> {
    if events == [] then []
    else if events[0].kind == k then [events[0]] + OfKind(events[1..], k)
    else OfKind(events[1..], k)
  }

  /** Index of the oldest event of kind `k`, or `|events|` when there is none. */
  function FirstOfKind(events: seq<Event>, k: EventKind): (j: nat)
    ensures j <= |events|
    ensures j < |events| ==> events[j].kind == k
    ensures forall i :: 0 <= i < j ==> events[i].kind != k
  {
    if events == [] || events[0].kind == k then 0 else 1 + FirstOfKind(events[1..], k)
  }

  /** The buffer without its element at index `j`. */
  function RemoveAt(events: seq<Event>, j: nat): seq<Event>
    requires j < |events|
  {
    events[..j] + events[j + 1..]
  }

  /**
   * The batch the barrier releases from `buffer` for `required`, or None while
   * some required entry has no event left to match it.
   */
  function Pick(buffer: seq<Event>, required: seq<EventKind>): (batch: Option<seq<Event>>)
    ensures batch.Some? ==> Kinds(batch.value) == required
    ensures batch.Some? ==> |required| <= |buffer|
    decreases required
  {
    if required == [] then Some([])
    else
      var j := FirstOfKind(buffer, required[0]);
      if j == |buffer| then None
      else
        match Pick(RemoveAt(buffer, j), required[1..])
        case None => None
        case Some(rest) =>
          KindsCons(buffer[j], rest, required);
          Some([buffer[j]] + rest)
  }

  lemma KindsCons(e: Event, rest: seq<Event>, required: seq<EventKind>)
    requires required != [] && e.kind == required[0] && Kinds(rest) == required[1..]
    ensures Kinds([e] + rest) == required
  {
    assert required == [required[0]] + required[1..];
  }

  /** One step of `Pick`: the first entry takes the oldest event of its kind. */
  lemma PickUnfold(buffer: seq<Event>, required: seq<EventKind>)
    requires required != [] && Pick(buffer, required).Some?
    ensures var j := FirstOfKind(buffer, required[0]);
      && j < |buffer|
      && Pick(RemoveAt(buffer, j), required[1..]).Some?
      && Pick(buffer, required).value == [buffer[j]] + Pick(RemoveAt(buffer, j), required[1..]).value
  {
  }

  // ---------------------------------------------------------------------------
  // Multiset bookkeeping for RemoveAt
  // ---------------------------------------------------------------------------

  lemma MultisetRemoveMiddle<T>(left: seq<T>, e: T, right: seq<T>)
    ensures multiset(left + right) == multiset(left + [e] + right) - multiset{e}
  {
  }

  lemma RemoveAtMultiset(events: seq<Event>, j: nat)
    requires j < |events|
    ensures multiset(RemoveAt(events, j)) == multiset(events) - multiset{events[j]}
  {
    assert events == events[..j] + [events[j]] + events[j + 1..];
    MultisetRemoveMiddle(events[..j], events[j], events[j + 1..]);
  }

  lemma RemoveAtKinds(events: seq<Event>, j: nat)
    requires j < |events|
    ensures multiset(Kinds(RemoveAt(events, j))) == multiset(Kinds(events)) - multiset{events[j].kind}
  {
    var left, right := events[..j], events[j + 1..];
    var kinds := Kinds(events);
    assert kinds == kinds[..j] + [kinds[j]] + kinds[j + 1..];
    assert Kinds(RemoveAt(events, j)) == kinds[..j] + kinds[j + 1..];
    MultisetRemoveMiddle(kinds[..j], kinds[j], kinds[j + 1..]);
  }

  lemma {:induction false} OfKindAppend(a: seq<Event>, b: seq<Event>, k: EventKind)
    ensures OfKind(a + b, k) == OfKind(a, k) + OfKind(b, k)
    decreases |a|
  {
    if a == [] {
      assert a + b == b;
    } else {
      var ab := a + b;
      assert ab[0] == a[0];
      assert ab[1..] == a[1..] + b;
      OfKindAppend(a[1..], b, k);
      if a[0].kind == k {
        assert OfKind(ab, k) == [a[0]] + (OfKind(a[1..], k) + OfKind(b, k));
        assert [a[0]] + (OfKind(a[1..], k) + OfKind(b, k)) == ([a[0]] + OfKind(a[1..], k)) + OfKind(b, k);
      }
    }
  }

  lemma {:induction false} OfKindNone(events: seq<Event>, k: EventKind)
    requires forall i :: 0 <= i < |events| ==> events[i].kind != k
    ensures OfKind(events, k) == []
  {
    if events != [] {
      OfKindNone(events[1..], k);
    }
  }

  /** Removing the oldest event of kind `k0` drops the head of its kind and nothing else. */
  lemma RemoveFirstOfKind(events: seq<Event>, k0: EventKind, k: EventKind)
    requires FirstOfKind(events, k0) < |events|
    ensures var j := FirstOfKind(events, k0);
      OfKind(events, k) == (if k == k0 then [events[j]] else []) + OfKind(RemoveAt(events, j), k)
  {
    var j := FirstOfKind(events, k0);
    assert events == events[..j] + ([events[j]] + events[j + 1..]);
    OfKindAppend(events[..j], [events[j]] + events[j + 1..], k);
    OfKindAppend([events[j]], events[j + 1..], k);
    OfKindAppend(events[..j], events[j + 1..], k);
    assert OfKind([events[j]], k) == (if events[j].kind == k then [events[j]] else []) + OfKind([], k);
    if k == k0 {
      OfKindNone(events[..j], k);
    }
  }

  // ---------------------------------------------------------------------------
  // What the barrier promises
  // ---------------------------------------------------------------------------

  /**
   * The barrier releases a batch exactly when the buffered kinds include the
   * required kinds with multiplicity: a kind required n times needs n events.
   */
  lemma {:induction false} PickSomeIff(buffer: seq<Event>, required: seq<EventKind>)
    ensures Pick(buffer, required).Some? <==> multiset(required) <= multiset(Kinds(buffer))
    decreases required
  {
    if required != [] {
      var k0 := required[0];
      var j := FirstOfKind(buffer, k0);
      assert required == [k0] + required[1..];
      assert multiset(required) == multiset{k0} + multiset(required[1..]);
      if j == |buffer| {
        assert k0 !in Kinds(buffer);
        assert k0 !in multiset(Kinds(buffer));
      } else {
        RemoveAtKinds(buffer, j);
        PickSomeIff(RemoveAt(buffer, j), required[1..]);
        assert k0 in multiset(Kinds(buffer)) by { assert Kinds(buffer)[j] == k0; }
      }
    }
  }

  /** Every released event was buffered, and none is released twice. */
  lemma {:induction false} PickFromBuffer(buffer: seq<Event>, required: seq<EventKind>)
    requires Pick(buffer, required).Some?
    ensures multiset(Pick(buffer, required).value) <= multiset(buffer)
    decreases required
  {
    if required != [] {
      var j := FirstOfKind(buffer, required[0]);
      RemoveAtMultiset(buffer, j);
      PickFromBuffer(RemoveAt(buffer, j), required[1..]);
      var rest := Pick(RemoveAt(buffer, j), required[1..]).value;
      assert Pick(buffer, required).value == [buffer[j]] + rest;
      assert buffer[j] in multiset(buffer);
    }
  }

  /**
   * First in, first out per kind: the released events of kind `k` are the
   * oldest buffered events of that kind, one per entry of `k` in `required`,
   * in arrival order.
   */
  lemma {:induction false} PickOldestFirst(buffer: seq<Event>, required: seq<EventKind>, k: EventKind)
    requires Pick(buffer, required).Some?
    ensures multiset(required)[k] <= |OfKind(buffer, k)|
    ensures OfKind(Pick(buffer, required).value, k) == OfKind(buffer, k)[..multiset(required)[k]]
    decreases required
  {
    if required != [] {
      var k0 := required[0];
      PickUnfold(buffer, required);
      var j := FirstOfKind(buffer, k0);
      var smaller := RemoveAt(buffer, j);
      var rest := Pick(smaller, required[1..]).value;
      var m := multiset(required[1..])[k];
      PickOldestFirst(smaller, required[1..], k);
      RemoveFirstOfKind(buffer, k0, k);
      CountCons(required, k);
      OfKindAppend([buffer[j]], rest, k);
      OfKindSingle(buffer[j], k);
      var head := if k == k0 then [buffer[j]] else [];
      var tail := OfKind(smaller, k);
      assert multiset(required)[k] == |head| + m;
      assert OfKind(buffer, k) == head + tail;
      assert OfKind(Pick(buffer, required).value, k) == head + tail[..m];
      PrefixPastHead(head, tail, m);
    }
  }

  lemma PrefixPastHead<T>(head: seq<T>, tail: seq<T>, m: nat)
    requires m <= |tail|
    ensures (head + tail)[..|head| + m] == head + tail[..m]
  {
  }

  lemma CountCons(required: seq<EventKind>, k: EventKind)
    requires required != []
    ensures multiset(required)[k] == (if k == required[0] then 1 else 0) + multiset(required[1..])[k]
  {
    assert required == [required[0]] + required[1..];
  }

  lemma OfKindSingle(e: Event, k: EventKind)
    ensures OfKind([e], k) == if e.kind == k then [e] else []
  {
    assert [e][1..] == [];
  }

  /** A buffer whose kinds are exactly the required list is released whole, as it arrived. */
  lemma {:induction false} PickExact(buffer: seq<Event>)
    ensures Pick(buffer, Kinds(buffer)) == Some(buffer)
    decreases |buffer|
  {
    if buffer != [] {
      var required := Kinds(buffer);
      var tail := buffer[1..];
      assert required[1..] == Kinds(tail);
      PickExact(tail);
      assert FirstOfKind(buffer, required[0]) == 0;
      assert RemoveAt(buffer, 0) == tail;
      PickStep(buffer, required, 0, tail);
      assert buffer == [buffer[0]] + tail;
    }
  }

  /** When the rest of the list can be served, the first entry takes the oldest event of its kind. */
  lemma PickStep(buffer: seq<Event>, required: seq<EventKind>, j: nat, rest: seq<Event>)
    requires required != [] && j == FirstOfKind(buffer, required[0]) && j < |buffer|
    requires Pick(RemoveAt(buffer, j), required[1..]) == Some(rest)
    ensures Pick(buffer, required) == Some([buffer[j]] + rest)
  {
  }
}
