/** The order status matrix. */
module OrderState {
  import opened Stock

  /** The statuses an order may move to. */
  function AllowedTransitions(from: OrderStatus): set<OrderStatus> {
    match from
    case Pending => {Processing, Cancelled, Failed}
    case Processing => {ReadyForPickup, Cancelled}
    case ReadyForPickup => {Completed, Cancelled}
    case _ => {}
  }

  /** Whether `validateOrderTransition` returns: an unchanged status passes. */
  predicate TransitionAllowed(from: OrderStatus, to: OrderStatus) {
    from == to || to in AllowedTransitions(from)
  }

  predicate Terminal(s: OrderStatus) {
    s.Completed? || s.Cancelled? || s.Failed?
  }

  /** Statuses an order may go through, one validated step after another. */
  ghost predicate Legal(path: seq<OrderStatus>) {
    path != [] && forall k :: 0 < k < |path| ==> TransitionAllowed(path[k - 1], path[k])
  }

  /** A terminal status never changes again. */
  lemma {:induction false} TerminalIsFinal(path: seq<OrderStatus>)
    requires Legal(path) && Terminal(path[0])
    ensures path[|path| - 1] == path[0]
    decreases |path|
  {
    if |path| > 1 {
      var n := |path| - 1;
      TerminalIsFinal(path[..n]);
      assert TransitionAllowed(path[n - 1], path[n]);
    }
  }

  /** A placed order is completed only after it was paid and then made ready. */
  lemma {:induction false} CompletedWasPaidAndReady(path: seq<OrderStatus>)
    requires Legal(path) && path[0].Pending?
    ensures path[|path| - 1].Processing? || path[|path| - 1].ReadyForPickup? || path[|path| - 1].Completed? ==>
      Processing in path
    ensures path[|path| - 1].ReadyForPickup? || path[|path| - 1].Completed? ==> ReadyForPickup in path
    decreases |path|
  {
    if |path| > 1 {
      var n := |path| - 1;
      CompletedWasPaidAndReady(path[..n]);
      assert TransitionAllowed(path[n - 1], path[n]);
      assert path[..n][n - 1] == path[n - 1];
      assert forall s :: s in path[..n] ==> s in path;
    }
  }

  /**
   * Validated one at a time, a completion repeats an earlier one exactly when the order it finds is
   * already COMPLETED: refusing that status is the guard that is missing.
   */
  lemma CompletedAgainExactly(path: seq<OrderStatus>, k: nat)
    requires Legal(path) && path[0].Pending? && 0 < k < |path| && path[k].Completed?
    ensures (exists j :: 0 < j < k && path[j].Completed?) <==> path[k - 1].Completed?
  {
    if j :| 0 < j < k && path[j].Completed? {
      TerminalIsFinal(path[j..k]);
    }
  }
}
