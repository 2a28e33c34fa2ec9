// Waiting for a worker thread however many times the caller is cancelled.
module Workers {
  import opened Wrappers

  // What wakes the waiting task: a cancellation, or the worker being done.
  datatype Wake<T> = CancelledBy(cancellation: nat) | WorkerDone(outcome: T)

  datatype Ending<T> = Settled(outcome: T) | Reraised(cancellation: nat)

  // The worker is waited for to its end. If cancellations arrived meanwhile, the last of
  // them is raised in place of the worker's own outcome.
  method RunToCompletion<T>(wakes: seq<Wake<T>>) returns (ending: Ending<T>, taken: nat)
    requires exists i :: 0 <= i < |wakes| && wakes[i].WorkerDone?
    ensures 1 <= taken <= |wakes| && wakes[taken - 1].WorkerDone?
    ensures forall i :: 0 <= i < taken - 1 ==> wakes[i].CancelledBy?
    ensures ending ==
      if taken == 1 then Settled(wakes[0].outcome) else Reraised(wakes[taken - 2].cancellation)
  {
    var cancellation: Option<nat> := None;
    taken := 0;
    while !wakes[taken].WorkerDone?
      invariant taken < |wakes|
      invariant forall i :: 0 <= i < taken ==> wakes[i].CancelledBy?
      invariant cancellation == if taken == 0 then None else Some(wakes[taken - 1].cancellation)
      decreases |wakes| - taken
    {
      cancellation := Some(wakes[taken].cancellation);
      taken := taken + 1;
    }
    var outcome := wakes[taken].outcome;
    taken := taken + 1;
    ending := if cancellation.Some? then Reraised(cancellation.value) else Settled(outcome);
  }
}
