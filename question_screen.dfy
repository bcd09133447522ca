/**
 * The question screen of the timed variant: the elapsed-time display and the
 * rule that locks the answer buttons. Elapsed time is a whole number of
 * milliseconds here.
 */
module QuestionScreen {
  import opened Wrappers
  import opened JsText

  /** A displayed time: whole minutes, seconds within the minute, hundredths within the second. */
  datatype TimeParts = TimeParts(minutes: int, seconds: int, centis: int)

  /** The milliseconds a display stands for. */
  function Total(t: TimeParts): int {
    t.minutes * 60000 + t.seconds * 1000 + t.centis * 10
  }

  /** A display whose fields are in range and that is within 10 ms below `ms`. */
  predicate Displays(t: TimeParts, ms: int) {
    && t.minutes >= 0 && 0 <= t.seconds <= 59 && 0 <= t.centis <= 99
    && Total(t) <= ms < Total(t) + 10
  }

  /** A negative time is treated as zero. */
  function Clamp(ms: int): (r: nat)
    ensures ms >= 0 ==> r == ms
    ensures ms < 0 ==> r == 0
  {
    if ms < 0 then 0 else ms
  }

  /** The three `Math.floor` fields of `formatTime`. */
  function Decompose(ms: nat): (t: TimeParts)
    ensures Displays(t, ms)
  {
    var m, r1 := ms / 60000, ms % 60000;
    var s, r2 := r1 / 1000, r1 % 1000;
    assert ms == (m * 60 + s) * 1000 + r2;
    assert ms % 1000 == r2;
    TimeParts(ms / 60000, (ms % 60000) / 1000, (ms % 1000) / 10)
  }

  /** Only one display is within 10 ms below a time, so the decomposition is the only one possible. */
  lemma DecomposeUnique(ms: nat, t: TimeParts)
    requires Displays(t, ms)
    ensures t == Decompose(ms)
  {
    var u := Decompose(ms);
    var tc := t.seconds * 1000 + t.centis * 10;
    var uc := u.seconds * 1000 + u.centis * 10;
    assert 0 <= tc < 60000 && 0 <= uc < 60000;
    assert t.minutes == u.minutes;
    assert t.seconds == u.seconds;
  }

  /** `formatTime`: minutes unpadded, then ":", two digits of seconds, ".", two digits of hundredths. */
  function FormatTime(ms: int): (s: string)
    ensures |s| >= 7 && s[|s| - 6] == ':' && s[|s| - 3] == '.'
    ensures AllDigits(s[..|s| - 6]) && AllDigits(s[|s| - 5..|s| - 3]) && AllDigits(s[|s| - 2..])
    ensures |s| > 7 ==> s[0] != '0'
  {
    var t := Decompose(Clamp(ms));
    var s := NatToString(t.minutes) + ":" + Pad2(t.seconds) + "." + Pad2(t.centis);
    Pad2Inverse(t.seconds);
    Pad2Inverse(t.centis);
    SplitJoined(NatToString(t.minutes), ':', Pad2(t.seconds), '.', Pad2(t.centis));
    s
  }

  /** Reads a display back into its three fields. */
  function ReadTime(s: string): Option<TimeParts> {
    match SplitTail(s, ':', '.')
    case None => None
    case Some((m, sec, c)) =>
      if AllDigits(m) && AllDigits(sec) && AllDigits(c)
      then Some(TimeParts(ParseDecimal(m), ParseDecimal(sec), ParseDecimal(c)))
      else None
  }

  /** Reading the display back gives the decomposition of the (clamped) time. */
  lemma FormatTimeReadsBack(ms: int)
    ensures ReadTime(FormatTime(ms)) == Some(Decompose(Clamp(ms)))
  {
    var t := Decompose(Clamp(ms));
    Pad2Inverse(t.seconds);
    Pad2Inverse(t.centis);
    ParseNatToString(t.minutes);
    SplitJoined(NatToString(t.minutes), ':', Pad2(t.seconds), '.', Pad2(t.centis));
  }

  /** What the display shows is the elapsed time, less than 10 ms short. */
  lemma DisplayIsAccurate(ms: nat)
    ensures ReadTime(FormatTime(ms)).Some?
    ensures Displays(ReadTime(FormatTime(ms)).value, ms)
  {
    FormatTimeReadsBack(ms);
  }

  /** The decomposition drops exactly the milliseconds below the hundredth. */
  lemma DecomposeTotal(ms: nat)
    ensures Total(Decompose(ms)) == ms / 10 * 10
  {
    var t := Decompose(ms);
    assert Total(t) == (t.minutes * 6000 + t.seconds * 100 + t.centis) * 10;
  }

  /** Two times show the same text exactly when they fall in the same hundredth of a second. */
  lemma SameDisplayIff(a: nat, b: nat)
    ensures FormatTime(a) == FormatTime(b) <==> a / 10 == b / 10
  {
    DecomposeTotal(a);
    DecomposeTotal(b);
    if a / 10 == b / 10 {
      DecomposeUnique(a, Decompose(b));
    }
    if FormatTime(a) == FormatTime(b) {
      FormatTimeReadsBack(a);
      FormatTimeReadsBack(b);
    }
  }

  /** A negative time shows as "0:00.00". */
  lemma NegativeShowsZero(ms: int)
    requires ms < 0
    ensures FormatTime(ms) == "0:00.00"
  {
    assert Decompose(0) == TimeParts(0, 0, 0);
  }

  /** The screen's feedback state: none, `'correct'` or `'incorrect'`. */
  datatype Feedback = NoFeedback | Correct | Incorrect

  /** The `disabled` attribute of every answer button. */
  predicate AnswerButtonsDisabled(feedback: Feedback)
    ensures AnswerButtonsDisabled(feedback) ==> feedback != Incorrect && feedback != NoFeedback
  {
    feedback == Correct
  }

  /** Only correct feedback locks the buttons; after a wrong answer the child can try again. */
  lemma OnlyCorrectLocks(feedback: Feedback)
    ensures AnswerButtonsDisabled(feedback) <==> feedback == Correct
    ensures feedback == Incorrect ==> !AnswerButtonsDisabled(feedback)
  {
  }
}
