/**
 * The Strategy pattern of the demo: a `Context` holds one strategy, which the
 * caller may replace at any time, and executing the context runs whichever
 * strategy it holds at that moment.
 */
module StrategyPattern {

  /** The two strategies of the demo, as tags; running one is observed as its tag. */
  datatype Strategy = StrategyA | StrategyB

  class Context {
    /** The strategy the next `ExecuteStrategy` runs. */
    var strategy: Strategy

    constructor (strategy: Strategy)
      ensures this.strategy == strategy
    {
      this.strategy := strategy;
    }

    /** Replaces the held strategy; the previous one is forgotten. */
    method SetStrategy(strategy: Strategy)
      modifies this
      ensures this.strategy == strategy
    {
      this.strategy := strategy;
    }

    /** Runs the held strategy and reports which one ran; the context is unchanged. */
    method ExecuteStrategy() returns (executed: Strategy)
      ensures executed == strategy
    {
      executed := strategy;
    }
  }

  /**
   * The demo sequence: a context built with strategy A runs A; after
   * `SetStrategy(B)` it runs B.
   */
  method StrategyDemo() returns (executed: seq<Strategy>)
    ensures executed == [StrategyA, StrategyB]
  {
    var context := new Context(StrategyA);
    var first := context.ExecuteStrategy();
    context.SetStrategy(StrategyB);
    var second := context.ExecuteStrategy();
    executed := [first, second];
  }
}
