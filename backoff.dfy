/** The reconnect delay of `TAKBridge._recv_loop`: 1 second at first and after
    every connection that was established, doubled after every failed
    attempt, and never more than 60 seconds. */
module Backoff {
  import opened Base

  /** The largest delay between two attempts, in seconds. */
  const MAX_BACKOFF: nat := 60

  /** `min(backoff * 2, 60)`. */
  function Next(b: nat): nat {
    Min(b * 2, MAX_BACKOFF)
  }

  /** The delay slept after each attempt, given for each attempt whether the
      connection was established: the backoff starts at 1, is reset to 1 by
      a connect, and each sleep is followed by `backoff = Next(backoff)`. */
  function Delays(connects: seq<bool>): (d: seq<nat>)
    ensures |d| == |connects|
    decreases |connects|
  {
    if connects == [] then []
    else
      var prev := Delays(connects[..|connects| - 1]);
      var b := if connects[|connects| - 1] || prev == [] then 1 else Next(prev[|prev| - 1]);
      prev + [b]
  }

  /** One more attempt adds one delay and keeps the earlier ones. */
  lemma DelaysSnoc(connects: seq<bool>, c: bool)
    ensures Delays(connects + [c]) ==
      Delays(connects) + [if c || connects == [] then 1 else Next(Delays(connects)[|connects| - 1])]
  {
    assert (connects + [c])[..|connects|] == connects;
  }

  /** Later attempts do not change the delays of earlier ones. */
  lemma {:induction false} DelaysPrefix(connects: seq<bool>, n: nat)
    requires n <= |connects|
    ensures Delays(connects[..n]) == Delays(connects)[..n]
    decreases |connects|
  {
    if n < |connects| {
      var m := |connects| - 1;
      assert connects[..m][..n] == connects[..n];
      DelaysPrefix(connects[..m], n);
      assert Delays(connects)[..m] == Delays(connects[..m]);
    } else {
      assert connects[..n] == connects;
    }
  }

  /** The delay sleeps after attempt `k`: 1 after a connect and after the
      first attempt, doubled (at most 60) after every other failure. */
  lemma DelayAt(connects: seq<bool>, k: nat)
    requires k < |connects|
    ensures Delays(connects)[k] ==
      if connects[k] || k == 0 then 1 else Next(Delays(connects)[k - 1])
  {
    DelaysPrefix(connects, k + 1);
    assert connects[..k + 1][..k] == connects[..k];
    assert connects[..k + 1][k] == connects[k];
    DelaysPrefix(connects, k);
    assert Delays(connects[..k + 1]) == Delays(connects[..k]) + [Delays(connects[..k + 1])[k]];
  }

  /** Every delay lies between 1 and 60 seconds. */
  lemma {:induction false} DelaysBounded(connects: seq<bool>)
    ensures forall k :: 0 <= k < |connects| ==> 1 <= Delays(connects)[k] <= MAX_BACKOFF
    decreases |connects|
  {
    if connects != [] {
      var m := |connects| - 1;
      DelaysBounded(connects[..m]);
      assert Delays(connects)[..m] == Delays(connects[..m]);
    }
  }

  /** Between two consecutive failed attempts the delay never shrinks. */
  lemma DelaysGrowOnFailure(connects: seq<bool>, k: nat)
    requires 0 < k < |connects| && !connects[k]
    ensures Delays(connects)[k - 1] <= Delays(connects)[k]
  {
    DelayAt(connects, k);
    DelaysBounded(connects);
  }

  function Pow2(n: nat): nat {
    if n == 0 then 1 else 2 * Pow2(n - 1)
  }

  /** `k - j` failures after a reset at attempt `j` (a connect, or the very
      first attempt) give a delay of `min(2^(k-j), 60)`. */
  lemma {:induction false} DelaysClosedForm(connects: seq<bool>, j: nat, k: nat)
    requires j <= k < |connects|
    requires j == 0 || connects[j]
    requires forall i :: j < i <= k ==> !connects[i]
    ensures Delays(connects)[k] == Min(Pow2(k - j), MAX_BACKOFF)
    decreases k
  {
    DelayAt(connects, k);
    if k > j {
      DelaysClosedForm(connects, j, k - 1);
      assert Pow2(k - j) == 2 * Pow2(k - 1 - j);
    }
  }
}
