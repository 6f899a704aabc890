/** Vehicle timestamps mapped onto the server's timeline (`TelemetryWriter._correct`).  Times are whole
    milliseconds. */
module Clock {

  import opened Options

  datatype Limits = Limits(correctFrom: int, maxBackfill: int, maxFuture: int)

  function Abs(x: int): int {
    if x < 0 then -x else x
  }

  /** The correction of a batch: its measured skew, when that is large enough to matter. */
  function Correction(lim: Limits, skew: Option<int>): int {
    if skew.Some? && Abs(skew.value) >= lim.correctFrom then skew.value else 0
  }

  predicate Clamped(lim: Limits, raw: int, correction: int, now: int) {
    raw - correction < now - lim.maxBackfill || raw - correction > now + lim.maxFuture
  }

  function Correct(lim: Limits, raw: int, correction: int, now: int): int {
    if Clamped(lim, raw, correction, now) then now else raw - correction
  }

  /** The stored skew fits a 32-bit column. */
  function SkewMs(skew: Option<int>): Option<int> {
    if skew.None? then None
    else if skew.value < -2_147_483_648 then Some(-2_147_483_648)
    else if skew.value > 2_147_483_647 then Some(2_147_483_647)
    else skew
  }

  /** Whatever a vehicle's clock says, a stamp never leaves the window around the server's clock, so it
      cannot choose an arbitrary partition. */
  lemma {:induction false} StampStaysInWindow(lim: Limits, raw: int, skew: Option<int>, now: int)
    requires lim.maxBackfill >= 0 && lim.maxFuture >= 0
    ensures now - lim.maxBackfill <= Correct(lim, raw, Correction(lim, skew), now) <= now + lim.maxFuture
  {
  }

  /** `ts + skew_ms` recovers the vehicle's own time exactly when the row was corrected by a skew the column
      can hold and not clamped, or when it happens to differ from the stamp by that very skew. */
  lemma {:induction false} RawTimeRecoverableIff(lim: Limits, raw: int, skew: int, now: int)
    ensures var stamp := Correct(lim, raw, Correction(lim, Some(skew)), now);
            stamp + SkewMs(Some(skew)).value == raw <==>
              if Clamped(lim, raw, Correction(lim, Some(skew)), now) then raw - now == SkewMs(Some(skew)).value
              else if Abs(skew) >= lim.correctFrom then -2_147_483_648 <= skew <= 2_147_483_647
              else skew == 0
  {
  }

  /** A vehicle clock half a second ahead is not corrected, and `ts + skew_ms` is half a second too late. */
  lemma {:induction false} SmallSkewMisleads()
    ensures var lim := Limits(2000, 604_800_000, 300_000);
            var raw, skew, now := 1_000_500, 500, 1_000_000;
            var stamp := Correct(lim, raw, Correction(lim, Some(skew)), now);
            stamp == raw && stamp + SkewMs(Some(skew)).value == raw + 500
  {
  }

  /** Rows of one batch that are not clamped keep their distances. */
  lemma {:induction false} SpacingKept(lim: Limits, a: int, b: int, skew: Option<int>, now: int)
    requires var c := Correction(lim, skew); !Clamped(lim, a, c, now) && !Clamped(lim, b, c, now)
    ensures var c := Correction(lim, skew); Correct(lim, b, c, now) - Correct(lim, a, c, now) == b - a
  {
  }
}
