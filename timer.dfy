/**
 * components/user/session/timer.tsx: the per-question countdown. The interval callback
 * is the `Tick` transition, the two effects are the reset and restart transitions, and
 * `formatTime` renders the remaining seconds as "m:ss".
 */
module Timer {
  import opened Wrappers
  import opened JsText
  import opened Scoring

  /** What one interval callback reads and writes: the seconds left, whether the interval is still scheduled, and how often `onTimeExpired` has been called. */
  datatype Clock = Clock(timeLeft: int, live: bool, expirations: nat)

  /** One interval callback: at one second or less the interval is cleared, `onTimeExpired` is called and 0 is stored; otherwise one second is taken off. A cleared interval does not fire. */
  function Step(c: Clock): (d: Clock)
    ensures !c.live ==> d == c
    ensures c.live && c.timeLeft > 1 ==> d == c.(timeLeft := c.timeLeft - 1)
    ensures c.live && c.timeLeft <= 1 ==> d == Clock(0, false, c.expirations + 1)
  {
    if !c.live then c
    else if c.timeLeft <= 1 then Clock(0, false, c.expirations + 1)
    else c.(timeLeft := c.timeLeft - 1)
  }

  /** The clock after `k` interval callbacks. */
  function After(c: Clock, k: nat): Clock
    decreases k
  {
    if k == 0 then c else After(Step(c), k - 1)
  }

  /**
   * From a fresh countdown of `n >= 1` seconds, the first `n - 1` ticks count down one second
   * each; the `n`-th tick expires, and from then on nothing changes: the expiry fires exactly once.
   */
  lemma {:induction false} ExpiresOnce(n: int, e: nat, k: nat)
    requires n >= 1
    ensures After(Clock(n, true, e), k) ==
      if k < n then Clock(n - k, true, e) else Clock(0, false, e + 1)
    decreases k
  {
    if k > 0 {
      if n == 1 {
        Frozen(Clock(0, false, e + 1), k - 1);
      } else {
        ExpiresOnce(n - 1, e, k - 1);
      }
    }
  }

  /** A countdown that starts at 0 seconds or less expires on the first tick. */
  lemma ExpiresAtOnce(n: int, e: nat, k: nat)
    requires n <= 0 && k >= 1
    ensures After(Clock(n, true, e), k) == Clock(0, false, e + 1)
  {
    Frozen(Clock(0, false, e + 1), k - 1);
  }

  /** A cleared interval never fires again. */
  lemma {:induction false} Frozen(c: Clock, k: nat)
    requires !c.live
    ensures After(c, k) == c
  {
    if k > 0 {
      Frozen(Step(c), k - 1);
    }
  }

  /** The seconds left never become negative once the countdown has started from a non-negative value. */
  lemma {:induction false} NeverNegative(c: Clock, k: nat)
    requires c.timeLeft >= 0
    ensures After(c, k).timeLeft >= 0
    ensures After(c, k).expirations <= c.expirations + 1
    ensures After(c, k).expirations == c.expirations + 1 ==> !After(c, k).live && After(c, k).timeLeft == 0
    decreases k
  {
    if k > 0 {
      if !c.live {
        Frozen(c, k);
      } else if c.timeLeft <= 1 {
        Frozen(Step(c), k - 1);
      } else {
        NeverNegative(Step(c), k - 1);
      }
    }
  }

  /** The state of one mounted `QuizTracker`. `isWarning` is only ever reset here. */
  class QuizTimer {
    var timeLimit: int
    var currentQuestion: int
    var timeLeft: int
    var isWarning: bool
    var intervalLive: bool
    var expirations: nat

    function State(): Clock
      reads this
    {
      Clock(timeLeft, intervalLive, expirations)
    }

    /** Mounting: `useState(timeLimit)`, `useState(false)` and the first run of the interval effect. */
    constructor(timeLimit: int, currentQuestion: int)
      ensures this.timeLimit == timeLimit && this.currentQuestion == currentQuestion
      ensures timeLeft == timeLimit && !isWarning && intervalLive && expirations == 0
    {
      this.timeLimit := timeLimit;
      this.currentQuestion := currentQuestion;
      timeLeft := timeLimit;
      isWarning := false;
      intervalLive := true;
      expirations := 0;
    }

    /** One interval callback. */
    method Tick()
      modifies this
      ensures State() == Step(old(State()))
      ensures timeLimit == old(timeLimit) && currentQuestion == old(currentQuestion) && isWarning == old(isWarning)
    {
      if intervalLive {
        if timeLeft <= 1 {
          intervalLive := false;
          expirations := expirations + 1;
          timeLeft := 0;
        } else {
          timeLeft := timeLeft - 1;
        }
      }
    }

    /**
     * A new `currentQuestion`: the reset effect stores `timeLimit` and clears the warning. The
     * interval effect does not depend on the question, so a cleared interval stays cleared.
     */
    method MoveTo(question: int)
      modifies this
      ensures currentQuestion == question && timeLimit == old(timeLimit)
      ensures intervalLive == old(intervalLive) && expirations == old(expirations)
      ensures question != old(currentQuestion) ==> timeLeft == timeLimit && !isWarning
      ensures question == old(currentQuestion) ==> timeLeft == old(timeLeft) && isWarning == old(isWarning)
    {
      if question != currentQuestion {
        currentQuestion := question;
        timeLeft := timeLimit;
        isWarning := false;
      }
    }

    /** A new `timeLimit`: both effects run, so the interval is recreated and the countdown restarts. */
    method ChangeTimeLimit(limit: int)
      modifies this
      ensures timeLimit == limit && currentQuestion == old(currentQuestion) && expirations == old(expirations)
      ensures limit != old(timeLimit) ==> timeLeft == limit && !isWarning && intervalLive
      ensures limit == old(timeLimit) ==> State() == old(State()) && isWarning == old(isWarning)
    {
      if limit != timeLimit {
        timeLimit := limit;
        timeLeft := limit;
        isWarning := false;
        intervalLive := true;
      }
    }

    /** A new `onTimeExpired` function: only the interval effect runs, so ticking resumes from the stored seconds. */
    method ChangeExpiryHandler()
      modifies this
      ensures intervalLive && timeLeft == old(timeLeft) && expirations == old(expirations)
      ensures timeLimit == old(timeLimit) && currentQuestion == old(currentQuestion) && isWarning == old(isWarning)
    {
      intervalLive := true;
    }
  }

  /** A timer mounted for question 1 with `limit` seconds and left to tick until it expires. */
  method RunToExpiry(limit: int) returns (t: QuizTimer)
    requires limit >= 1
    ensures fresh(t) && t.State() == Clock(0, false, 1) && t.timeLimit == limit && t.currentQuestion == 1
  {
    t := new QuizTimer(limit, 1);
    ExpiresOnce(limit, 0, limit);
    var i := 0;
    while i < limit
      invariant 0 <= i <= limit
      invariant t.State() == After(Clock(limit, true, 0), i) && t.timeLimit == limit && t.currentQuestion == 1
    {
      t.Tick();
      AfterStep(Clock(limit, true, 0), i);
      i := i + 1;
    }
  }

  /**
   * The component on its own: after an expiry, moving to the next question with the same
   * limit and the same handler shows the full time again, but the clock stays still.
   */
  method ExpiredThenNextQuestion(limit: int, k: nat) returns (shown: int, ticked: Clock)
    requires limit >= 1
    ensures shown == limit && ticked == Clock(limit, false, 1)
  {
    var t := RunToExpiry(limit);
    t.MoveTo(2);
    shown := t.timeLeft;
    Frozen(t.State(), k);
    ticked := After(t.State(), k);
  }

  /**
   * A caller that hands over a new `onTimeExpired` with every question (as the quiz session
   * page does) recreates the interval: after an expiry the next question counts down again.
   */
  method ExpiredThenNextQuestionNewHandler(limit: int, k: nat) returns (shown: int, ticked: Clock)
    requires limit >= 1
    ensures shown == limit
    ensures ticked == if k < limit then Clock(limit - k, true, 1) else Clock(0, false, 2)
  {
    var t := RunToExpiry(limit);
    t.MoveTo(2);
    t.ChangeExpiryHandler();
    shown := t.timeLeft;
    ExpiresOnce(limit, 1, k);
    ticked := After(t.State(), k);
  }

  lemma {:induction false} AfterStep(c: Clock, k: nat)
    ensures After(c, k + 1) == Step(After(c, k))
    decreases k
  {
    if k > 0 {
      AfterStep(Step(c), k - 1);
    }
  }

  /** `(timeLeft / timeLimit) * 100` (and likewise `(currentQuestion / totalQuestions) * 100`). */
  function ProgressPercent(part: int, whole: int): (p: real)
    requires whole != 0
    ensures 0 <= part <= whole ==> 0.0 <= p <= 100.0
    ensures p * whole as real == part as real * 100.0
  {
    PercentBounds(part as real, whole as real);
    (part as real / whole as real) * 100.0
  }

  /** `seconds % 60` in JavaScript: the remainder takes the sign of the dividend. */
  function JsRemainder(a: int, b: int): int
    requires b > 0
  {
    if a >= 0 then a % b else -((-a) % b)
  }

  /** `formatTime(seconds)`: `Math.floor(seconds / 60)`, a colon, and the remainder padded to two digits. */
  function FormatTime(seconds: int): string {
    IntToString(seconds / 60) + ":" + PadStart2(IntToString(JsRemainder(seconds, 60)))
  }

  /** The text before and after the first colon. */
  function SplitAtColon(t: string): (r: Option<(string, string)>)
    ensures r.Some? ==> t == r.value.0 + ":" + r.value.1 && ':' !in r.value.0
  {
    if t == [] then None
    else if t[0] == ':' then Some(([], t[1..]))
    else
      match SplitAtColon(t[1..])
      case None => None
      case Some((a, b)) => Some(([t[0]] + a, b))
  }

  lemma {:induction false} SplitAtFirstColon(a: string, b: string)
    requires ':' !in a
    ensures SplitAtColon(a + ":" + b) == Some((a, b))
  {
    if a != [] {
      assert (a + ":" + b)[1..] == a[1..] + ":" + b;
      SplitAtFirstColon(a[1..], b);
      assert [a[0]] + a[1..] == a;
    }
  }

  /** Reads an "m:ss" display back as minutes and seconds. */
  function ReadTime(t: string): Option<(int, int)> {
    match SplitAtColon(t)
    case None => None
    case Some((m, s)) =>
      if ParseInt(m).Some? && ParseInt(s).Some? then Some((ParseInt(m).value, ParseInt(s).value)) else None
  }

  /**
   * For a non-negative number of seconds the display reads back as `m` minutes and `sec`
   * seconds with `60 * m + sec == seconds` and `0 <= sec < 60`, the seconds always in two digits.
   */
  lemma FormatTimeRoundTrip(seconds: int)
    requires seconds >= 0
    ensures ReadTime(FormatTime(seconds)).Some?
    ensures var (m, sec) := ReadTime(FormatTime(seconds)).value;
      60 * m + sec == seconds && 0 <= sec < 60
    ensures |SplitAtColon(FormatTime(seconds)).value.1| == 2
  {
    var m := seconds / 60;
    var sec := seconds % 60;
    var ms := NatToString(m);
    var ss := PadStart2(NatToString(sec));
    FormatTimeParts(seconds);
    DigitsHaveNoColon(ms);
    ParseIntOfNatToString(m);
    PaddedSeconds(sec);
    SplitAtFirstColon(ms, ss);
    ReadTimeOf(ms, ss, m, sec);
  }

  /** For a non-negative number of seconds both fields are written without a sign. */
  lemma FormatTimeParts(seconds: int)
    requires seconds >= 0
    ensures FormatTime(seconds) == NatToString(seconds / 60) + ":" + PadStart2(NatToString(seconds % 60))
  {
    assert JsRemainder(seconds, 60) == seconds % 60;
  }

  lemma DigitsHaveNoColon(ms: string)
    requires forall k :: 0 <= k < |ms| ==> IsDecimalDigit(ms[k])
    ensures ':' !in ms
  {
    forall k | 0 <= k < |ms| ensures ms[k] != ':' {
      assert IsDecimalDigit(ms[k]);
    }
  }

  /** A display made of two readable fields reads back as their values. */
  lemma ReadTimeOf(ms: string, ss: string, m: int, sec: int)
    requires ':' !in ms && ParseInt(ms) == Some(m) && ParseInt(ss) == Some(sec)
    ensures ReadTime(ms + ":" + ss) == Some((m, sec))
  {
    SplitAtFirstColon(ms, ss);
  }

  /** The padded seconds field reads back as the seconds and is two characters long. */
  lemma PaddedSeconds(sec: nat)
    requires sec < 60
    ensures ParseInt(PadStart2(NatToString(sec))) == Some(sec)
    ensures |PadStart2(NatToString(sec))| == 2
  {
    if sec >= 10 {
      TwoDigits(sec);
      ParseIntOfNatToString(sec);
    } else {
      LeadingZero(sec);
    }
  }

  lemma TwoDigits(sec: nat)
    requires 10 <= sec < 100
    ensures |NatToString(sec)| == 2 && PadStart2(NatToString(sec)) == NatToString(sec)
  {
    assert NatToString(sec) == NatToString(sec / 10) + [DigitChar(sec % 10)];
  }

  lemma LeadingZero(sec: nat)
    requires sec < 10
    ensures PadStart2(NatToString(sec)) == ['0'] + NatToString(sec)
    ensures ParseInt(['0'] + NatToString(sec)) == Some(sec)
  {
    PadOneDigit(NatToString(sec));
    SingleDigitValue(sec);
    ZeroThenDigit(NatToString(sec));
  }

  lemma PadOneDigit(d: string)
    requires |d| == 1
    ensures PadStart2(d) == ['0'] + d
  {
    var r := PadStart2(d);
    assert r[1..] == d && r[0] == '0';
    assert r == [r[0]] + r[1..];
  }

  lemma SingleDigitValue(sec: nat)
    requires sec < 10
    ensures |NatToString(sec)| == 1 && IsDecimalDigit(NatToString(sec)[0])
    ensures DigitValue(NatToString(sec)[0], 10) == Some(sec)
  {
    var d := NatToString(sec);
    DigitsOfNatToString(sec);
    assert d[..0] == [];
    assert DigitsValue(d, 10) == DigitValue(d[0], 10).value;
  }

  /** A single digit after a leading zero reads as that digit. */
  lemma ZeroThenDigit(d: string)
    requires |d| == 1 && IsDecimalDigit(d[0])
    ensures DigitValue(d[0], 10).Some?
    ensures ParseInt(['0'] + d) == Some(DigitValue(d[0], 10).value)
  {
    var p := ['0'] + d;
    assert forall k :: 0 <= k < |p| ==> IsDecimalDigit(p[k]);
    ParseIntOfDigitsThen(p, "");
    assert p + "" == p;
    assert p[..1] == ['0'] && p[1] == d[0];
    assert DigitsValue(p[..1], 10) == 0;
    assert DigitsValue(p, 10) == DigitsValue(p[..1], 10) * 10 + DigitValue(p[1], 10).value;
  }
}
