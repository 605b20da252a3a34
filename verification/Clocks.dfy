/** When a cluster is next due: the cadence of healthy passes and the backoff of failing ones. */
module Clocks {
  import opened Text
  import opened Api

  const POLL_INTERVAL := 30
  const MAX_PASS_INTERVAL := 300
  const MIN_PASS_INTERVAL := 60
  const RETRY_INTERVAL := 60
  const MAX_RETRY_INTERVAL := 1800
  const DUE_SLACK := 15

  function NextInterval(status: Status, now: int): int {
    if TimeOf(status.tokenExpiresAt) == 0 then MAX_PASS_INTERVAL
    else Max(Min(MAX_PASS_INTERVAL, Truncated(status.tokenExpiresAt.value - now, 2)), MIN_PASS_INTERVAL)
  }

  function DueAfterPass(startedAt: int, status: Status): int {
    startedAt + NextInterval(status, startedAt)
  }

  /** A pass comes every five minutes, or after half of what is left of the token, though never
      within a minute: exactly at half of it while that is between the two. */
  lemma NextIntervalExactly(status: Status, now: int)
    ensures var interval := NextInterval(status, now);
      && 60 <= interval <= 300
      && (TimeOf(status.tokenExpiresAt) == 0 ==> interval == 300)
      && (TimeOf(status.tokenExpiresAt) != 0 ==>
            var left := TimeOf(status.tokenExpiresAt) - now;
            && (interval == 300 <==> left >= 600) && (interval == 60 <==> left < 122)
            && (122 <= left < 600 ==> interval == left / 2))
  {
  }

  /** It is counted from the start of the pass. */
  lemma DueIsCountedFromTheStart(startedAt: int, status: Status)
    ensures startedAt + 60 <= DueAfterPass(startedAt, status) <= startedAt + 300
    ensures TimeOf(status.tokenExpiresAt) != 0 && 122 <= TimeOf(status.tokenExpiresAt) - startedAt < 600 ==>
      DueAfterPass(startedAt, status) == startedAt + (TimeOf(status.tokenExpiresAt) - startedAt) / 2
  {
    NextIntervalExactly(status, startedAt);
  }
}
