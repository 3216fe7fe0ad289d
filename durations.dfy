/** `getDuration`, shared by the session list and the session details page:
    the elapsed time of a session split into hours, minutes and seconds.
    Times are integer milliseconds; "now" is an input. */
module Durations {
  import opened Wrappers

  datatype Duration = Duration(hours: int, minutes: int, seconds: int)

  /** JavaScript's `a % b` for a positive divisor: the remainder takes the
      sign of the dividend (Dafny's `%` never yields a negative value). */
  function JsRem(a: int, b: int): (r: int)
    requires b > 0
    ensures a >= 0 ==> 0 <= r < b
    ensures a < 0 ==> -b < r <= 0
    ensures (a - r) % b == 0
  {
    if a >= 0 then
      var q := a / b;
      assert a - a % b == q * b;
      MultipleHasNoRemainder(q, b);
      a % b
    else
      var q := (-a) / b;
      assert a + (-a) % b == (-q) * b;
      MultipleHasNoRemainder(-q, b);
      -((-a) % b)
  }

  /** A multiple of `b` leaves no remainder. */
  lemma MultipleHasNoRemainder(q: int, b: int)
    requires b > 0
    ensures (q * b) % b == 0
  {
    var q', r' := (q * b) / b, (q * b) % b;
    var d := q - q';
    assert d * b == r';
    assert d >= 1 ==> d * b >= b;
    assert d <= -1 ==> d * b <= -b;
  }

  /** `Math.floor(x / b)` for integers and a positive divisor; Dafny's `/`
      rounds down in that case. */
  function FloorDiv(a: int, b: int): (q: int)
    requires b > 0
    ensures q * b <= a < q * b + b
  {
    a / b
  }

  /** `Math.floor((end - start) / 1000)`, where a missing end stands for now. */
  function ElapsedSeconds(startMs: int, endMs: Option<int>, nowMs: int): int {
    FloorDiv(endMs.GetOr(nowMs) - startMs, 1000)
  }

  /** The split of a number of seconds as the code writes it. */
  function Split(diff: int): Duration {
    Duration(FloorDiv(diff, 3600), FloorDiv(JsRem(diff, 3600), 60), JsRem(diff, 60))
  }

  function GetDuration(startMs: int, endMs: Option<int>, nowMs: int): Duration {
    Split(ElapsedSeconds(startMs, endMs, nowMs))
  }

  function TotalSeconds(d: Duration): int {
    d.hours * 3600 + d.minutes * 60 + d.seconds
  }

  /** Euclidean division by 60 of a number written as `q * 60 + r`. */
  lemma DivMod60(a: int, q: int, r: int)
    requires 0 <= r < 60 && a == q * 60 + r
    ensures a / 60 == q && a % 60 == r
  {
  }

  /** Euclidean division by 3600 of a number written as `q * 3600 + r`. */
  lemma DivMod3600(a: int, q: int, r: int)
    requires 0 <= r < 3600 && a == q * 3600 + r
    ensures a / 3600 == q && a % 3600 == r
  {
  }

  /** For a non-negative difference the split is exact and minutes and
      seconds are in [0, 60). */
  lemma SplitExact(diff: int)
    requires diff >= 0
    ensures var d := Split(diff);
      TotalSeconds(d) == diff && d.hours >= 0 && 0 <= d.minutes < 60 && 0 <= d.seconds < 60
  {
    var h := diff / 3600;
    var r := diff % 3600;
    var m := r / 60;
    var s := r % 60;
    assert r == m * 60 + s;
    DivMod60(diff, h * 60 + m, s);
  }

  /** A session that ended after it started (or started before now) gets
      an exact split. */
  lemma GetDurationExact(startMs: int, endMs: Option<int>, nowMs: int)
    requires endMs.GetOr(nowMs) >= startMs
    ensures var d := GetDuration(startMs, endMs, nowMs);
      TotalSeconds(d) == ElapsedSeconds(startMs, endMs, nowMs)
      && d.hours >= 0 && 0 <= d.minutes < 60 && 0 <= d.seconds < 60
  {
    SplitExact(ElapsedSeconds(startMs, endMs, nowMs));
  }

  /** A negative difference that is not a whole number of hours is shown
      too small: the hours round down while the minutes and seconds keep
      the sign of the difference. One second before the start reads as
      -1 h -1 min -1 s. */
  lemma SplitNegative(diff: int)
    requires diff < 0 && diff % 3600 != 0
    ensures TotalSeconds(Split(diff)) < diff
  {
    var d := Split(diff);
    var e := diff % 3600;
    var u := (-diff) % 3600;
    DivMod3600(-diff, -(diff / 3600) - 1, 3600 - e);
    assert JsRem(diff, 3600) == -u == e - 3600;
    assert d.minutes * 60 <= e - 3600;
    assert d.seconds <= 0;
  }

  lemma SplitMinusOne()
    ensures Split(-1) == Duration(-1, -1, -1)
  {
  }
}
