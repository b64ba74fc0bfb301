/** What the two outboxes share: leases, exponential backoff, and a list with one element taken out. */
module Leases {
  const SECOND := 1_000_000_000
  const LEASE := 30 * SECOND

  function Doubled(times: nat): (factor: nat)
    ensures factor >= 1
  {
    if times == 0 then 1 else 2 * Doubled(times - 1)
  }

  function Without<T>(s: seq<T>, i: nat): seq<T>
    requires i < |s|
  {
    s[..i] + s[i + 1..]
  }
}
