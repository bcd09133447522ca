/**
 * The results screen of the timed variant: its null-aware time display and
 * the new-best-time banner. Unlike the question screen it does not clamp a
 * negative time, so JavaScript's sign-keeping `%` shows through.
 */
module ResultsScreen {
  import opened Wrappers
  import opened JsText
  import QuestionScreen

  /** JavaScript's `a % b` for a positive divisor: the remainder takes the sign of `a`. */
  function JsRem(a: int, b: int): (r: int)
    requires b > 0
    ensures a >= 0 ==> r == a % b && 0 <= r < b
    ensures a < 0 ==> -b < r <= 0
  {
    if a >= 0 then a % b else -((-a) % b)
  }

  /** The remainder of a negated number is the negated remainder. */
  lemma JsRemOdd(a: int, b: int)
    requires b > 0
    ensures JsRem(-a, b) == -JsRem(a, b)
  {
  }

  /**
   * The three fields of this `formatTime`; `Math.floor(x / k)` for a positive
   * `k` is Dafny's `/`.
   */
  function ResultParts(ms: int): (t: QuestionScreen.TimeParts)
    ensures ms >= 0 ==> t == QuestionScreen.Decompose(ms)
    ensures ms < 0 ==> t.minutes < 0 && -60 <= t.seconds <= 0 && -100 <= t.centis <= 0
  {
    QuestionScreen.TimeParts(ms / 60000, JsRem(ms, 60000) / 1000, JsRem(ms, 1000) / 10)
  }

  /** `formatTime(ms: number | null)`. */
  function FormatResultTime(ms: Option<int>): (s: string)
    ensures ms == None ==> s == "-:--.--"
    ensures ms.Some? && ms.value >= 0 ==> s == QuestionScreen.FormatTime(ms.value)
  {
    match ms
    case None => "-:--.--"
    case Some(v) =>
      var t := ResultParts(v);
      IntToString(t.minutes) + ":" + PadStart2(IntToString(t.seconds)) + "." + PadStart2(IntToString(t.centis))
  }

  /** For a time the player can have, the seconds and hundredths stay in range and the display is accurate. */
  lemma ResultFieldsInRange(ms: nat)
    ensures 0 <= ResultParts(ms).seconds <= 59 && 0 <= ResultParts(ms).centis <= 99
    ensures QuestionScreen.Displays(ResultParts(ms), ms)
  {
  }

  /** A missing time and any real time never show the same text. */
  lemma NullTimeDistinct(ms: int)
    ensures FormatResultTime(None) != FormatResultTime(Some(ms))
  {
    var s := FormatResultTime(Some(ms));
    var t := ResultParts(ms);
    if ms >= 0 {
      assert s[|s| - 6] == ':';
    } else {
      assert s[0] == '-';
      var m := IntToString(t.minutes);
      assert s[..|m|] == m;
      assert |m| >= 2 && IsDigit(m[1]);
      assert IsDigit(s[1]);
    }
  }

  /** Without the clamp, one millisecond below zero shows every field as -1. */
  lemma NegativeTimeShowsMinusOnes()
    ensures FormatResultTime(Some(-1)) == "-1:-1.-1"
  {
    assert ResultParts(-1) == QuestionScreen.TimeParts(-1, -1, -1);
    assert IntToString(-1) == "-1";
  }

  /** The new-best banner: `bestTime === currentTime`. */
  predicate IsNewBestTime(bestTime: Option<int>, currentTime: int)
    ensures IsNewBestTime(bestTime, currentTime) ==> bestTime.Some?
  {
    bestTime == Some(currentTime)
  }

  /** The banner shows exactly when a best time exists and equals the current time; a null best time never shows it. */
  lemma NewBestIff(bestTime: Option<int>, currentTime: int)
    ensures IsNewBestTime(bestTime, currentTime) <==> bestTime.Some? && bestTime.value == currentTime
    ensures bestTime == None ==> !IsNewBestTime(bestTime, currentTime)
  {
  }
}
