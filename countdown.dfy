// The helpers the meditation and breathing pages share, each page holding
// its own copy in the source: `clampNumber` and the `mm:ss` rendering `fmt`
// of a remaining time in milliseconds.

module Countdown {
  import opened Common
  import opened Text

  /** `Math.max(lo, Math.min(hi, n))`. */
  function ClampNumber(n: real, lo: real, hi: real): (r: real)
    ensures lo <= hi ==> lo <= r <= hi
    ensures lo <= n <= hi ==> r == n
    ensures n < lo ==> r == lo
    ensures lo <= hi < n ==> r == hi
  {
    MaxReal(lo, MinReal(hi, n))
  }

  /** Whole seconds left, negatives counting as none. */
  function Seconds(ms: real): (s: nat)
    ensures ms < 0.0 ==> s == 0
    ensures ms >= 0.0 ==> s as real * 1000.0 <= ms < s as real * 1000.0 + 1000.0
  {
    Max(0, (ms / 1000.0).Floor)
  }

  /** `fmt`: the whole minutes padded to two digits, a colon, and the
      remaining seconds padded to two digits. */
  function Fmt(ms: real): (r: string)
    ensures |r| >= 5
    ensures var mm := r[..|r| - 3]; var ss := r[|r| - 2..];
      && r[|r| - 3] == ':'
      && IsDigits(mm) && IsDigits(ss) && |ss| == 2
      && DigitsValue(ss) < 60
      && DigitsValue(mm) * 60 + DigitsValue(ss) == Seconds(ms)
    ensures Seconds(ms) < 6000 ==> |r| == 5
  {
    var s := Seconds(ms);
    var mm := TwoDigits(s / 60);
    var ss := TwoDigits(s % 60);
    var r := mm + ":" + ss;
    assert r[..|r| - 3] == mm && r[|r| - 2..] == ss;
    r
  }

  /** A negative time left shows as zero. */
  lemma FmtNegative(ms: real)
    requires ms < 0.0
    ensures Fmt(ms) == "00:00"
  {
    assert TwoDigits(0) == "00";
  }
}
