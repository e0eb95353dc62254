/**
 * The bounded retry loops. The environment's answer to each attempt is an
 * abstract function: `succeeds(i)` says whether attempt `i` (counting from 0)
 * succeeds. Both loops give up after four attempts; they differ only in how
 * the source writes the test on the one-based attempt counter.
 */
module Retry {

  /** The number of attempts either loop makes before giving up. */
  const MaxAttempts: nat := 4

  /** Some attempt among the first `MaxAttempts` succeeds. */
  predicate SomeAttemptSucceeds(succeeds: nat -> bool) {
    exists i :: 0 <= i < MaxAttempts && succeeds(i)
  }

  /**
   * The request loop of the fetch stage: `c.Do(req)` is retried while
   * `fetch_counter < 4`; the fourth failure ends the loop. `attempts` is the
   * final value of the one-based counter.
   */
  method FetchAttempts(succeeds: nat -> bool) returns (ok: bool, attempts: nat)
    ensures 1 <= attempts <= MaxAttempts
    ensures forall i :: 0 <= i < attempts - 1 ==> !succeeds(i)
    ensures ok == succeeds(attempts - 1)
    ensures !ok ==> attempts == MaxAttempts
    ensures ok <==> SomeAttemptSucceeds(succeeds)
  {
    var fetchCounter := 1;
    while true
      invariant 1 <= fetchCounter <= 4
      invariant forall i :: 0 <= i < fetchCounter - 1 ==> !succeeds(i)
      decreases 4 - fetchCounter
    {
      if !succeeds(fetchCounter - 1) {
        if fetchCounter >= 4 {
          return false, fetchCounter;
        }
        fetchCounter := fetchCounter + 1;
        continue;
      }
      return true, fetchCounter;
    }
  }

  /**
   * The write loop of both output writers: `ioutil.WriteFile` is retried
   * until `write_counter > 3` holds after a failure, so the fourth failure
   * returns the error. (The 100 ms pause between attempts is not modelled.)
   */
  method WriteAttempts(succeeds: nat -> bool) returns (ok: bool, attempts: nat)
    ensures 1 <= attempts <= MaxAttempts
    ensures forall i :: 0 <= i < attempts - 1 ==> !succeeds(i)
    ensures ok == succeeds(attempts - 1)
    ensures !ok ==> attempts == MaxAttempts
    ensures ok <==> SomeAttemptSucceeds(succeeds)
  {
    var writeCounter := 1;
    while true
      invariant 1 <= writeCounter <= 4
      invariant forall i :: 0 <= i < writeCounter - 1 ==> !succeeds(i)
      decreases 4 - writeCounter
    {
      if !succeeds(writeCounter - 1) {
        if writeCounter > 3 {
          return false, writeCounter;
        }
        writeCounter := writeCounter + 1;
        continue;
      }
      break;
    }
    return true, writeCounter;
  }
}
