/**
 * The countdown's arithmetic: the difficulty-scaled limit chosen in `startGame`
 * and the text `updateTimerDisplay` shows for the seconds left.
 */
module Clock {
  import opened Wrappers
  import opened Text
  import opened Scoring

  /** The limit offered by default, in seconds. */
  const DefaultTimeLimit: int := 30

  /**
   * `startGame`'s adjustment: `Math.floor(t * 0.7)` on Hard, `Math.floor(t * 1.3)`
   * on Easy, `t` on Normal, with the factors taken as exact rationals.
   */
  function ScaledTimeLimit(d: Difficulty, t: int): (r: int)
    ensures d == Hard ==> 10 * r <= 7 * t < 10 * r + 10
    ensures d == Easy ==> 10 * r <= 13 * t < 10 * r + 10
    ensures d == Normal ==> r == t
    ensures t >= 0 ==> 0 <= r && (d == Hard ==> r <= t) && (d == Easy ==> t <= r)
  {
    match d
    case Hard => t * 7 / 10
    case Easy => t * 13 / 10
    case Normal => t
  }

  lemma ScaledDefaultLimits()
    ensures ScaledTimeLimit(Hard, DefaultTimeLimit) == 21
    ensures ScaledTimeLimit(Easy, DefaultTimeLimit) == 39
    ensures ScaledTimeLimit(Normal, DefaultTimeLimit) == 30
  {
  }

  /** `t % 60` with JavaScript's remainder, which takes the sign of `t`. */
  function JsRemainder60(t: int): (r: int)
    ensures t >= 0 ==> r == t % 60
    ensures t < 0 ==> -60 < r <= 0 && (t - r) % 60 == 0
  {
    if t >= 0 then t % 60 else -((-t) % 60)
  }

  /**
   * The time string of `updateTimerDisplay`: `"<m>m <s>s"` when the whole
   * minutes `Math.floor(t / 60)` are positive, `"<s>s"` otherwise, where `s` is
   * `t % 60` with JavaScript's remainder.
   */
  function FormatTime(timeLeft: int): string {
    var minutes := timeLeft / 60;
    var seconds := JsRemainder60(timeLeft);
    if minutes > 0 then IntToString(minutes) + "m " + IntToString(seconds) + "s"
    else IntToString(seconds) + "s"
  }

  /** Reads back a time string of the form `FormatTime` writes for a non-negative time. */
  function ReadTime(text: string): Option<int> {
    if text == [] || text[|text| - 1] != 's' then None
    else
      var body := text[..|text| - 1];
      var k := IndexOf(body, 'm');
      if k == |body| then ReadSecondsOnly(body) else ReadMinutesSeconds(body[..k], body[k + 1..])
  }

  function ReadSecondsOnly(digits: string): Option<int> {
    match ParseNat(digits)
    case Some(s) => if s < 60 then Some(s) else None
    case None => None
  }

  function ReadMinutesSeconds(minutes: string, rest: string): Option<int> {
    if rest == [] || rest[0] != ' ' then None
    else
      match (ParseNat(minutes), ParseNat(rest[1..]))
      case (Some(m), Some(s)) => if m > 0 && s < 60 then Some(60 * m + s) else None
      case _ => None
  }

  lemma DigitsHaveNoM(n: nat)
    ensures IndexOf(NatToString(n), 'm') == |NatToString(n)|
  {
    var s := NatToString(n);
    assert forall k :: 0 <= k < |s| ==> s[k] != 'm';
  }

  lemma {:induction false} IndexOfAfterPrefix(p: string, q: string, c: char)
    requires IndexOf(p, c) == |p|
    ensures IndexOf(p + q, c) == |p| + IndexOf(q, c)
  {
    if p != [] {
      assert p[0] != c;
      assert IndexOf(p, c) == 1 + IndexOf(p[1..], c);
      assert (p + q)[0] == p[0];
      assert (p + q)[1..] == p[1..] + q;
      IndexOfAfterPrefix(p[1..], q, c);
    } else {
      assert p + q == q;
    }
  }

  /** Where the minutes end in `"<m>m <s>"`. */
  lemma MinutesEnd(min: string, rest: string)
    requires forall k :: 0 <= k < |min| ==> IsDigit(min[k])
    ensures IndexOf(min + "m" + rest, 'm') == |min|
  {
    assert IndexOf(min, 'm') == |min|;
    assert min + "m" + rest == min + ("m" + rest);
    IndexOfAfterPrefix(min, "m" + rest, 'm');
  }

  /** Reading `"<m>m <s>s"` with `m > 0` and `s < 60`. */
  lemma ReadMinutesSecondsDigits(minutes: nat, seconds: nat)
    requires minutes > 0 && seconds < 60
    ensures ReadMinutesSeconds(NatToString(minutes), " " + NatToString(seconds)) == Some(60 * minutes + seconds)
  {
    ParseNatToString(minutes);
    ParseNatToString(seconds);
    assert (" " + NatToString(seconds))[1..] == NatToString(seconds);
  }

  /** A text with an 'm' after leading digits is read as minutes and the rest. */
  lemma ReadTimeOfMinutes(min: string, rest: string)
    requires forall k :: 0 <= k < |min| ==> IsDigit(min[k])
    ensures ReadTime(min + "m" + rest + "s") == ReadMinutesSeconds(min, rest)
  {
    var body := min + "m" + rest;
    var text := body + "s";
    assert text[..|text| - 1] == body;
    MinutesEnd(min, rest);
    assert body[..|min|] == min;
    assert body[|min| + 1..] == rest;
  }

  lemma ReadMinutesAndSeconds(minutes: nat, seconds: nat)
    requires minutes > 0 && seconds < 60
    ensures ReadTime(NatToString(minutes) + "m " + NatToString(seconds) + "s") == Some(60 * minutes + seconds)
  {
    var min, sec := NatToString(minutes), NatToString(seconds);
    assert min + "m " + sec + "s" == min + "m" + (" " + sec) + "s";
    ReadTimeOfMinutes(min, " " + sec);
    ReadMinutesSecondsDigits(minutes, seconds);
  }

  lemma ReadSeconds(seconds: nat)
    requires seconds < 60
    ensures ReadTime(NatToString(seconds) + "s") == Some(seconds)
  {
    var sec := NatToString(seconds);
    var text := sec + "s";
    assert text[..|text| - 1] == sec;
    DigitsHaveNoM(seconds);
    ParseNatToString(seconds);
  }

  /** For every time the countdown can show, the displayed text determines the time. */
  lemma FormatTimeRoundTrip(timeLeft: int)
    requires timeLeft >= 0
    ensures ReadTime(FormatTime(timeLeft)) == Some(timeLeft)
  {
    var minutes, seconds := timeLeft / 60, timeLeft % 60;
    assert timeLeft == 60 * minutes + seconds;
    if minutes > 0 {
      assert FormatTime(timeLeft) == NatToString(minutes) + "m " + NatToString(seconds) + "s";
      ReadMinutesAndSeconds(minutes, seconds);
    } else {
      assert FormatTime(timeLeft) == NatToString(seconds) + "s";
      ReadSeconds(seconds);
    }
  }
}
