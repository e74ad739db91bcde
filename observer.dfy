/**
 * The Observer pattern of the demo: a `Subject` keeps an ordered list of
 * observers (duplicates allowed), appends on `Attach`, removes the first
 * occurrence on `Detach`, and on `Notify` hands the message to every entry of
 * the list in order. Each hand-over is recorded as a `Delivery` in the trace
 * that `Notify` returns, in place of the observer's console output.
 */
module ObserverPattern {

  datatype Option<T> = None | Some(value: T)

  /** An observer; references are compared by identity, as the source does. */
  class ConcreteObserver {
    const name: string

    constructor (name: string)
      ensures this.name == name
    {
      this.name := name;
    }
  }

  /** One call of `Update(message)` on `observer`. */
  datatype Delivery = Delivery(observer: ConcreteObserver, message: string)

  // ---------------------------------------------------------------------------
  // The list operations behind Attach, Detach and Notify
  // ---------------------------------------------------------------------------

  /** The position of the first occurrence of `x` in `s`, if any. */
  function IndexOf<T(==)>(s: seq<T>, x: T): (r: Option<nat>)
    ensures r.None? <==> x !in s
    ensures r.Some? ==> r.value < |s| && s[r.value] == x && x !in s[..r.value]
  {
    if s == [] then None
    else if s[0] == x then Some(0)
    else
      match IndexOf(s[1..], x)
      case None => None
      case Some(k) =>
        assert s[..k + 1] == [s[0]] + s[1..][..k];
        Some(k + 1)
  }

  /** `s` without its first occurrence of `x`; `s` itself when `x` does not occur. */
  function RemoveFirst<T(==)>(s: seq<T>, x: T): seq<T>
  {
    match IndexOf(s, x)
    case None => s
    case Some(k) => s[..k] + s[k + 1..]
  }

  /** The deliveries of `message` to every entry of `registry`, in list order. */
  function Deliveries(registry: seq<ConcreteObserver>, message: string): (trace: seq<Delivery>)
    ensures |trace| == |registry|
  {
    if registry == [] then []
    else [Delivery(registry[0], message)] + Deliveries(registry[1..], message)
  }

  /** The observers a trace delivered to, in delivery order. */
  function Recipients(trace: seq<Delivery>): seq<ConcreteObserver>
  {
    if trace == [] then []
    else [trace[0].observer] + Recipients(trace[1..])
  }

  // ---------------------------------------------------------------------------
  // The registry
  // ---------------------------------------------------------------------------

  class Subject {
    /** The registered observers, in attach order; duplicates allowed. */
    var observers: seq<ConcreteObserver>

    constructor ()
      ensures observers == []
    {
      observers := [];
    }

    /** Appends `observer`, even when it is already registered. */
    method Attach(observer: ConcreteObserver)
      modifies this
      ensures observers == old(observers) + [observer]
    {
      observers := observers + [observer];
    }

    /** Removes the first registration of `observer`; does nothing when there is none. */
    method Detach(observer: ConcreteObserver)
      modifies this
      ensures observers == RemoveFirst(old(observers), observer)
    {
      observers := RemoveFirst(observers, observer);
    }

    /**
     * Delivers `message` to every registered observer, once per registration
     * and in list order; the registry is not changed.
     */
    method Notify(message: string) returns (trace: seq<Delivery>)
      ensures |trace| == |observers|
      ensures forall i :: 0 <= i < |observers| ==> trace[i] == Delivery(observers[i], message)
      ensures trace == Deliveries(observers, message)
    {
      trace := [];
      for i := 0 to |observers|
        invariant trace == Deliveries(observers[..i], message)
      {
        DeliveriesAppend(observers[..i], [observers[i]], message);
        assert observers[..i + 1] == observers[..i] + [observers[i]];
        trace := trace + [Delivery(observers[i], message)];
      }
      assert observers[..|observers|] == observers;
      forall i | 0 <= i < |observers|
        ensures trace[i] == Delivery(observers[i], message)
      {
        DeliveriesAt(observers, message, i);
      }
    }
  }

  // ---------------------------------------------------------------------------
  // Detach: first-occurrence removal
  // ---------------------------------------------------------------------------

  /**
   * When `x` occurs in `s` and `k` is its earliest position, detaching `x`
   * leaves exactly the entries before `k` followed by the entries after `k`.
   */
  lemma RemoveFirstAtEarliest<T>(s: seq<T>, x: T, k: nat)
    requires k < |s| && s[k] == x && x !in s[..k]
    ensures RemoveFirst(s, x) == s[..k] + s[k + 1..]
  {
  }

  /** Detaching changes the list exactly when the observer is registered. */
  lemma RemoveFirstUnchangedIffAbsent<T>(s: seq<T>, x: T)
    ensures RemoveFirst(s, x) == s <==> x !in s
    ensures x in s ==> |RemoveFirst(s, x)| == |s| - 1
  {
  }

  /** Detaching takes away exactly one registration of `x`, and nothing else. */
  lemma RemoveFirstMultiset<T>(s: seq<T>, x: T)
    ensures multiset(RemoveFirst(s, x)) == multiset(s) - multiset{x}
  {
    match IndexOf(s, x)
    case None =>
    case Some(k) =>
      assert s == s[..k] + [x] + s[k + 1..];
      calc {
        multiset(s);
        multiset(s[..k]) + multiset{x} + multiset(s[k + 1..]);
        multiset(s[..k] + s[k + 1..]) + multiset{x};
      }
  }

  /**
   * Detaching right after an attach of the same observer: the new entry goes
   * when it is the only registration; otherwise the earlier one goes and the
   * new entry stays at the end.
   */
  lemma {:induction false} RemoveFirstAfterAppend<T>(s: seq<T>, x: T)
    ensures RemoveFirst(s + [x], x) == if x in s then RemoveFirst(s, x) + [x] else s
  {
    match IndexOf(s, x)
    case None =>
      assert (s + [x])[..|s|] == s;
      RemoveFirstAtEarliest(s + [x], x, |s|);
      assert (s + [x])[|s| + 1..] == [];
    case Some(k) =>
      assert (s + [x])[..k] == s[..k];
      RemoveFirstAtEarliest(s + [x], x, k);
      assert (s + [x])[k + 1..] == s[k + 1..] + [x];
  }

  // ---------------------------------------------------------------------------
  // Notify: the delivery trace
  // ---------------------------------------------------------------------------

  /** The i-th delivery of a notification goes to the i-th registration. */
  lemma {:induction false} DeliveriesAt(registry: seq<ConcreteObserver>, message: string, i: nat)
    requires i < |registry|
    ensures Deliveries(registry, message)[i] == Delivery(registry[i], message)
  {
    if i > 0 {
      DeliveriesAt(registry[1..], message, i - 1);
    }
  }

  /** Delivering to two lists in turn is delivering to their concatenation. */
  lemma {:induction false} DeliveriesAppend(a: seq<ConcreteObserver>, b: seq<ConcreteObserver>, message: string)
    ensures Deliveries(a + b, message) == Deliveries(a, message) + Deliveries(b, message)
  {
    if a != [] {
      assert (a + b)[1..] == a[1..] + b;
      DeliveriesAppend(a[1..], b, message);
    } else {
      assert a + b == b;
    }
  }

  /** The recipients of a notification are exactly the registry, in order. */
  lemma {:induction false} RecipientsOfDeliveries(registry: seq<ConcreteObserver>, message: string)
    ensures Recipients(Deliveries(registry, message)) == registry
  {
    if registry != [] {
      RecipientsOfDeliveries(registry[1..], message);
      var trace := Deliveries(registry, message);
      assert trace[1..] == Deliveries(registry[1..], message);
    }
  }

  /** Every delivery of a notification carries the notified message. */
  lemma {:induction false} DeliveriesCarryMessage(registry: seq<ConcreteObserver>, message: string)
    ensures forall d :: d in Deliveries(registry, message) ==> d.message == message
  {
    if registry != [] {
      DeliveriesCarryMessage(registry[1..], message);
    }
  }

  /** Each observer receives as many deliveries as it has registrations. */
  lemma DeliveryCount(registry: seq<ConcreteObserver>, message: string, o: ConcreteObserver)
    ensures multiset(Recipients(Deliveries(registry, message)))[o] == multiset(registry)[o]
  {
    RecipientsOfDeliveries(registry, message);
  }

  /** No deduplication: an observer attached twice more receives two more deliveries. */
  lemma AttachTwiceDeliversTwice(registry: seq<ConcreteObserver>, message: string, o: ConcreteObserver)
    ensures multiset(Recipients(Deliveries(registry + [o] + [o], message)))[o] == multiset(registry)[o] + 2
  {
    DeliveryCount(registry + [o] + [o], message, o);
  }

  /**
   * Attaching an unregistered observer twice and detaching it once leaves one
   * registration, at the end, so the next notification reaches it once.
   */
  lemma AttachTwiceDetachOnce(registry: seq<ConcreteObserver>, message: string, o: ConcreteObserver)
    requires o !in registry
    ensures RemoveFirst(registry + [o] + [o], o) == registry + [o]
    ensures multiset(Recipients(Deliveries(RemoveFirst(registry + [o] + [o], o), message)))[o] == 1
  {
    RemoveFirstAfterAppend(registry + [o], o);
    RemoveFirstAfterAppend(registry, o);
    DeliveryCount(registry + [o], message, o);
  }

  // ---------------------------------------------------------------------------
  // The demo sequence
  // ---------------------------------------------------------------------------

  /**
   * Two observers are attached, "Event 1 occurred." reaches both in attach
   * order, the first is detached, and "Event 2 occurred." reaches only the
   * second. The trace holds both notifications, one after the other.
   */
  method ObserverDemo() returns (observer1: ConcreteObserver, observer2: ConcreteObserver,
                                 subject: Subject, trace: seq<Delivery>)
    ensures observer1.name == "Observer 1" && observer2.name == "Observer 2"
    ensures trace == [Delivery(observer1, "Event 1 occurred."),
                      Delivery(observer2, "Event 1 occurred."),
                      Delivery(observer2, "Event 2 occurred.")]
    ensures subject.observers == [observer2]
  {
    subject := new Subject();
    observer1 := new ConcreteObserver("Observer 1");
    observer2 := new ConcreteObserver("Observer 2");

    subject.Attach(observer1);
    subject.Attach(observer2);

    var first := subject.Notify("Event 1 occurred.");
    subject.Detach(observer1);
    RemoveFirstAtEarliest([observer1, observer2], observer1, 0);
    var second := subject.Notify("Event 2 occurred.");
    trace := first + second;
  }
}
