# Design patterns demo, modelled in Dafny

The repository is a small C# demonstration of four object-oriented design
patterns in one file, `DesignPatterns/Program.cs`. This project models three of them:

- **Observer** (`observer.dfy`, module `ObserverPattern`). This is the main model.
  A `Subject` keeps an ordered list of observers, and duplicates are allowed.
  `Attach` appends an observer. `Detach` removes the first registration of an observer, compared by identity.
  When the observer is not registered, `Detach` does nothing.
  `Notify` hands a message to every entry of the list, in list order.
  Each hand-over is recorded as a `Delivery(observer, message)` in the trace that `Notify` returns.
  The trace stands in for the observer's console output.
- **Factory** (`factory.dfy`, module `FactoryPattern`). `CreateProduct` maps the tag "A" to product A and "B" to product B.
  Every other tag is rejected with an `ArgumentException("Invalid product type")`.
  The exception is modelled as a `Result` value.
- **Strategy** (`strategy.dfy`, module `StrategyPattern`). A `Context` holds a strategy field that `SetStrategy` overwrites.
  `ExecuteStrategy` runs the strategy held at that moment and reports it by its tag.

The demo driver `Main` becomes two methods, `ObserverDemo` and `StrategyDemo`.
Their postconditions state the outcome of the fixed demo sequence.

The C# `IObserver` interface has a single implementation, `ConcreteObserver`.
The model uses that class directly for observers.
Dafny compares class references by identity.
That matches the default `Equals` that `List.Remove` uses, because `ConcreteObserver` does not override it.
`List.Remove` is modelled as its two steps.
`IndexOf` finds the first position of the observer.
`RemoveFirst` drops the entry at that position, or returns the list unchanged when there is none.

## Model

| member | source | states |
|---|---|---|
| `FactoryPattern.CreateProduct` | DesignPatterns/Program.cs:35-43 | yields product A exactly for "A" and product B exactly for "B"; every other tag, and only those, fails with `ArgumentException("Invalid product type")` |
| `FactoryPattern.CreateProductInvertsTypeTag` | DesignPatterns/Program.cs:37-42 | every product is built from its own type tag; a tag succeeds iff it is some product's tag, and then the product built carries that tag |
| `StrategyPattern.Context.constructor` | DesignPatterns/Program.cs:66 | the new context holds the strategy it was given |
| `StrategyPattern.Context.SetStrategy` | DesignPatterns/Program.cs:68 | afterwards the context holds the new strategy; the previous one is gone |
| `StrategyPattern.Context.ExecuteStrategy` | DesignPatterns/Program.cs:70 | runs exactly the strategy held at the time of the call, and leaves the context unchanged |
| `StrategyPattern.StrategyDemo` | DesignPatterns/Program.cs:121-125 | a context built with A runs A; after `SetStrategy(B)` it runs B |
| `ObserverPattern.ConcreteObserver.constructor` | DesignPatterns/Program.cs:83 | the observer keeps the name it was given |
| `ObserverPattern.Subject.constructor` | DesignPatterns/Program.cs:90 | a new subject has no observers |
| `ObserverPattern.Subject.Attach` | DesignPatterns/Program.cs:92 | the new list is the old list with the observer appended; earlier entries keep their order; no deduplication |
| `ObserverPattern.Subject.Detach` | DesignPatterns/Program.cs:94 | the new list is the old one without the first registration of the observer, or the old list when there is none |
| `ObserverPattern.IndexOf` | DesignPatterns/Program.cs:94 | finds nothing iff the observer is absent; otherwise a position holding the observer with no earlier occurrence |
| `ObserverPattern.Subject.Notify` | DesignPatterns/Program.cs:96-102 | the trace has one delivery per list entry, the i-th to the i-th entry with the given message; the list is not changed |
| `ObserverPattern.Deliveries` | DesignPatterns/Program.cs:98-101 | a notification makes as many deliveries as there are registrations |
| `ObserverPattern.DeliveriesAt` | DesignPatterns/Program.cs:98-101 | the i-th delivery goes to the i-th registration, with the notified message |
| `ObserverPattern.DeliveriesAppend` | DesignPatterns/Program.cs:98-101 | notifying the concatenation of two lists is notifying the first and then the second |
| `ObserverPattern.RecipientsOfDeliveries` | DesignPatterns/Program.cs:98-101 | the recipients of a notification, in delivery order, are exactly the registry |
| `ObserverPattern.DeliveriesCarryMessage` | DesignPatterns/Program.cs:100 | every delivery carries the notified message |
| `ObserverPattern.DeliveryCount` | DesignPatterns/Program.cs:98-101 | each observer receives as many deliveries as it has registrations |
| `ObserverPattern.AttachTwiceDeliversTwice` | DesignPatterns/Program.cs:92-102 | attaching an observer twice more gives it two more deliveries per notification |
| `ObserverPattern.RemoveFirstAtEarliest` | DesignPatterns/Program.cs:94 | when k is the earliest position of the observer, detaching leaves the entries before k followed by the entries after k, so later duplicates stay |
| `ObserverPattern.RemoveFirstUnchangedIffAbsent` | DesignPatterns/Program.cs:94 | detaching leaves the list unchanged iff the observer is not registered; otherwise the list is one shorter |
| `ObserverPattern.RemoveFirstMultiset` | DesignPatterns/Program.cs:94 | detaching takes away exactly one registration of the observer, and no other entry |
| `ObserverPattern.RemoveFirstAfterAppend` | DesignPatterns/Program.cs:92-94 | detach right after attach of the same observer undoes the attach when that was its only registration; otherwise it removes the earlier one and the new entry stays last |
| `ObserverPattern.AttachTwiceDetachOnce` | DesignPatterns/Program.cs:92-102 | an unregistered observer attached twice and detached once remains registered once, at the end, and receives one delivery per notification |
| `ObserverPattern.ObserverDemo` | DesignPatterns/Program.cs:128-137 | the demo's trace is (Observer 1, Event 1), (Observer 2, Event 1), (Observer 2, Event 2), and the final registry is [Observer 2] |

## Left out

- The Singleton pattern (DesignPatterns/Program.cs:6-15) is left out. It is a process-wide static instance with no behaviour to verify.
- Console output is left out: `ShowMessage`, `Display`, `Execute` and `ConcreteObserver.Update` (lines 14, 25, 30, 54, 59, 85). Deliveries, product values and strategy tags stand for it.
- The observer capability is a single class. `IObserver` has only the one implementation, and Dafny traits are not used in this model.
- `Notify` assumes that `Update` does not change the registry while the list is being walked. .NET's behaviour for a list changed during `foreach` is library-specific, and the demo's observer never does this.
- An exception thrown by an observer aborts `Notify` part-way in the source. Observers are modelled as never failing, as `ConcreteObserver` never fails.
- `Context` holds only the two strategies of the demo, as tags. Arbitrary `IStrategy` implementations are foreign code.
- A null argument is not modelled. Dafny references and strings are non-null, so null cannot be passed to `Attach`, `Detach`, `Notify` or `CreateProduct`.
