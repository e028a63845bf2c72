/**
 * `formatTimeAgo`: the age of the last refresh, in milliseconds, as the text of the refresh
 * button. The subtraction `now - date` is taken as the input `diffMs`.
 */
module TimeAgo {
  import opened Lexical

  const MS_PER_MINUTE: nat := 60000
  const MS_PER_HOUR: nat := 3600000
  const MS_PER_DAY: nat := 86400000

  /** The bucket an age falls in, with the whole number of its unit. */
  datatype Elapsed = JustNow | Minutes(n: nat) | Hours(n: nat) | Days(n: nat)

  /**
   * The buckets, tested in the order `formatTimeAgo` tests them. `Math.floor` of a quotient
   * by a positive divisor is Dafny's `/`.
   */
  function Bucket(diffMs: int): (e: Elapsed)
    ensures e == JustNow <==> diffMs < MS_PER_MINUTE
    ensures e.Minutes? <==> MS_PER_MINUTE <= diffMs < MS_PER_HOUR
    ensures e.Hours? <==> MS_PER_HOUR <= diffMs < MS_PER_DAY
    ensures e.Days? <==> MS_PER_DAY <= diffMs
    ensures e.Minutes? ==> 1 <= e.n < 60 && e.n * MS_PER_MINUTE <= diffMs < (e.n + 1) * MS_PER_MINUTE
    ensures e.Hours? ==> 1 <= e.n < 24 && e.n * MS_PER_HOUR <= diffMs < (e.n + 1) * MS_PER_HOUR
    ensures e.Days? ==> 1 <= e.n && e.n * MS_PER_DAY <= diffMs < (e.n + 1) * MS_PER_DAY
  {
    var diffMins := diffMs / MS_PER_MINUTE;
    var diffHours := diffMs / MS_PER_HOUR;
    var diffDays := diffMs / MS_PER_DAY;
    if diffMins < 1 then JustNow
    else if diffMins < 60 then Minutes(diffMins)
    else if diffHours < 24 then Hours(diffHours)
    else Days(diffDays)
  }

  /**
   * The text of a bucket: "just now", or the numeral of its count followed by a unit, whose
   * first character is not a digit.
   */
  function Render(e: Elapsed): (r: string)
    ensures r == "just now" <==> e.JustNow?
    ensures !e.JustNow? ==>
      var d := NatToDecimal(e.n);
      |d| < |r| && r[..|d|] == d && !IsDigit(r[|d|])
  {
    var digits := if e.JustNow? then "" else NatToDecimal(e.n);
    var r := match e
      case JustNow => "just now"
      case Minutes(_) => digits + "min ago"
      case Hours(_) => digits + "h ago"
      case Days(_) => digits + "d ago";
    assert !e.JustNow? ==> r[..|digits|] == digits;
    r
  }

  function FormatTimeAgo(diffMs: int): (r: string)
    ensures r == "just now" <==> diffMs < MS_PER_MINUTE
    ensures MS_PER_MINUTE <= diffMs < MS_PER_HOUR ==> r == NatToDecimal(diffMs / MS_PER_MINUTE) + "min ago"
    ensures MS_PER_HOUR <= diffMs < MS_PER_DAY ==> r == NatToDecimal(diffMs / MS_PER_HOUR) + "h ago"
    ensures MS_PER_DAY <= diffMs ==> r == NatToDecimal(diffMs / MS_PER_DAY) + "d ago"
  {
    Render(Bucket(diffMs))
  }

  /** The number written in the text is the one the bucket holds: the text reads back. */
  lemma RenderReadsBack(e: Elapsed)
    requires !e.JustNow?
    ensures var r := Render(e);
      var d := SkipWhile(r, 0, IsDigit);
      AllDigits(r[..d]) && DigitsValue(r[..d]) == e.n
  {
    var r := Render(e);
    var digits := NatToDecimal(e.n);
    assert r[..|digits|] == digits;
    assert !IsDigit(r[|digits|]);
    SkipWhileStops(r, 0, IsDigit, |digits|);
  }
}
