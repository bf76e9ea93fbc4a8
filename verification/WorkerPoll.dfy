/** The loop that waits for a worker process, bounded by the job's budget. */
module WorkerPoll {
  datatype Poll = Pending | Exited(success: bool) | Broken

  datatype Outcome = Finished(success: bool) | TimedOut | PollFailed

  const POLL_SLEEP_MS := 40

  function Clamp(x: nat, low: nat, high: nat): nat
    requires low <= high
  {
    if x < low then low else if x > high then high else x
  }

  function BudgetMs(maxMinutes: nat): nat {
    1000 * Clamp(maxMinutes * 60, 5, 900)
  }

  /** Poll until the process ends or the deadline passes. `now(k)` is read at the k-th
      poll; a sleep of at least 40 ms lies between polls. The loop is left at the first
      poll that settles it, so at most one poll after the budget is spent. */
  method Await(maxMinutes: nat, start: nat, poll: nat -> Poll, now: nat -> nat) returns (outcome: Outcome, k: nat)
    requires start <= now(0)
    requires forall i: nat, j: nat | i < j :: now(i) + POLL_SLEEP_MS * (j - i) <= now(j)
    ensures var deadline := start + (if maxMinutes == 0 then 5000
                                     else if maxMinutes > 15 then 900000 else 60000 * maxMinutes);
            && (forall i | 0 <= i < k :: poll(i) == Pending && now(i) < deadline)
            && match outcome
               case Finished(success) => poll(k) == Exited(success)
               case PollFailed => poll(k) == Broken
               case TimedOut => poll(k) == Pending && now(k) >= deadline
    ensures k > 0 ==> 40 * (k - 1) < (if maxMinutes == 0 then 5000
                                      else if maxMinutes > 15 then 900000 else 60000 * maxMinutes)
  {
    var deadline := start + BudgetMs(maxMinutes);
    k := 0;
    while true
      invariant forall i | 0 <= i < k :: poll(i) == Pending && now(i) < deadline
      decreases deadline - now(k)
    {
      if k > 0 {
        assert now(0) + POLL_SLEEP_MS * (k - 1 - 0) <= now(k - 1) < deadline;
      }
      match poll(k) {
        case Broken => return PollFailed, k;
        case Exited(success) => return Finished(success), k;
        case Pending =>
          if now(k) >= deadline {
            return TimedOut, k;
          }
      }
      assert now(k) + POLL_SLEEP_MS * 1 <= now(k + 1);
      k := k + 1;
    }
  }
}
