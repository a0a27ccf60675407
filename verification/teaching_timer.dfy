/** The session timer: a once-a-second counter of elapsed seconds, capped at
    the target length, that reports each tick and signals completion, with
    pause and reset and the `MM:SS` display. */
module TeachingTimer {
  import opened Wrappers
  import opened Text

  /** `Math.max(0, target - elapsed)`: never negative; with the elapsed time it
      makes up the target while the target is not passed, and is zero after. */
  function Remaining(target: int, elapsed: int): (r: int)
    ensures r >= 0
    ensures elapsed <= target ==> elapsed + r == target
    ensures elapsed >= target ==> r == 0
  {
    if target - elapsed > 0 then target - elapsed else 0
  }

  /** The elapsed value one tick leaves behind: one more second, or the target
      once the new value reaches it. */
  function NextElapsed(elapsed: nat, target: nat): (e: nat)
    ensures elapsed < target ==> e == elapsed + 1
    ensures elapsed + 1 >= target ==> e == target
  {
    if elapsed + 1 >= target then target else elapsed + 1
  }

  /** The elapsed value after `k` ticks. */
  function ElapsedAfter(elapsed: nat, target: nat, k: nat): nat {
    if k == 0 then elapsed else NextElapsed(ElapsedAfter(elapsed, target, k - 1), target)
  }

  /** `k` uninterrupted ticks from a value within the target advance it by `k`
      seconds, but never past the target. */
  lemma {:induction false} ElapsedAfterSpec(elapsed: nat, target: nat, k: nat)
    requires elapsed <= target
    ensures ElapsedAfter(elapsed, target, k) == if elapsed + k <= target then elapsed + k else target
  {
    if k > 0 {
      ElapsedAfterSpec(elapsed, target, k - 1);
    }
  }

  /** The number of times `onComplete` is called during `k` ticks. */
  function CompletionsAfter(elapsed: nat, target: nat, k: nat): nat {
    if k == 0 then 0
    else
      var e := ElapsedAfter(elapsed, target, k - 1);
      CompletionsAfter(elapsed, target, k - 1) + (if e + 1 >= target then 1 else 0)
  }

  /** From a value below the target, completion is first signalled by the tick
      that reaches the target and then by every later tick. */
  lemma {:induction false} CompletionsAfterSpec(elapsed: nat, target: nat, k: nat)
    requires elapsed < target
    ensures CompletionsAfter(elapsed, target, k) == if elapsed + k < target then 0 else elapsed + k - target + 1
  {
    if k > 0 {
      CompletionsAfterSpec(elapsed, target, k - 1);
      ElapsedAfterSpec(elapsed, target, k - 1);
    }
  }

  /** The timer's state. `isActive` and the target come from the session page:
      the target is fixed for the timer's life and the activity is passed to
      each tick. `updates` records the `onTimeUpdate` calls and `completions`
      counts the `onComplete` calls. */
  class Timer {
    const targetSeconds: nat
    var elapsed: nat
    var paused: bool
    var updates: seq<(nat, nat)>
    var completions: nat

    predicate Valid()
      reads this
    {
      elapsed <= targetSeconds
    }

    /** A new timer for a session of `targetMinutes` minutes. */
    constructor(targetMinutes: nat)
      ensures targetSeconds == targetMinutes * 60
      ensures elapsed == 0 && !paused && updates == [] && completions == 0
      ensures Valid()
    {
      targetSeconds := targetMinutes * 60;
      elapsed := 0;
      paused := false;
      updates := [];
      completions := 0;
    }

    /** One interval callback. Nothing happens while the session is inactive or
        the timer is paused; otherwise the new elapsed value and the remaining
        time are reported, and reaching the target signals completion and pins
        the elapsed value to the target. */
    method Tick(isActive: bool)
      requires Valid()
      modifies this
      ensures Valid()
      ensures paused == old(paused)
      ensures !isActive || old(paused) ==>
        elapsed == old(elapsed) && updates == old(updates) && completions == old(completions)
      ensures isActive && !old(paused) ==>
        var n := old(elapsed) + 1;
        && elapsed == NextElapsed(old(elapsed), targetSeconds)
        && updates == old(updates) + [(n, Remaining(targetSeconds, n))]
        && completions == old(completions) + (if n >= targetSeconds then 1 else 0)
    {
      if !isActive || paused {
        return;
      }
      var newElapsed := elapsed + 1;
      var newRemaining := Remaining(targetSeconds, newElapsed);
      updates := updates + [(newElapsed, newRemaining)];
      if newElapsed >= targetSeconds {
        completions := completions + 1;
        elapsed := targetSeconds;
        return;
      }
      elapsed := newElapsed;
    }

    /** `resetTimer`: elapsed back to zero and the pause cleared. */
    method Reset()
      modifies this
      ensures elapsed == 0 && !paused
      ensures updates == old(updates) && completions == old(completions)
      ensures Valid()
    {
      elapsed := 0;
      paused := false;
    }

    /** The pause button, which is only shown while the session is active; a
        click flips the pause flag and nothing else. */
    method TogglePause(isActive: bool)
      modifies this
      ensures paused == (if isActive then !old(paused) else old(paused))
      ensures elapsed == old(elapsed) && updates == old(updates) && completions == old(completions)
    {
      if isActive {
        paused := !paused;
      }
    }

    /** `remainingTime` as displayed. */
    function RemainingTime(): (r: int)
      reads this
      requires Valid()
      ensures r >= 0 && elapsed + r == targetSeconds
    {
      Remaining(targetSeconds, elapsed)
    }
  }

  /** `k` ticks of an active, unpaused timer from zero: elapsed grows by one a
      second up to the target, one update per tick, and the completion count is
      the number of ticks at or past the target. */
  method RunTicks(t: Timer, k: nat)
    requires t.Valid() && !t.paused && t.elapsed == 0 && t.completions == 0 && t.targetSeconds > 0
    modifies t
    ensures t.Valid() && !t.paused
    ensures t.elapsed == ElapsedAfter(0, t.targetSeconds, k)
    ensures t.elapsed == if k <= t.targetSeconds then k else t.targetSeconds
    ensures |t.updates| == |old(t.updates)| + k
    ensures t.completions == CompletionsAfter(0, t.targetSeconds, k)
    ensures t.completions == if k < t.targetSeconds then 0 else k - t.targetSeconds + 1
  {
    var i := 0;
    while i < k
      invariant 0 <= i <= k
      invariant t.Valid() && !t.paused
      invariant t.elapsed == ElapsedAfter(0, t.targetSeconds, i)
      invariant t.completions == CompletionsAfter(0, t.targetSeconds, i)
      invariant |t.updates| == |old(t.updates)| + i
    {
      t.Tick(true);
      i := i + 1;
    }
    ElapsedAfterSpec(0, t.targetSeconds, k);
    CompletionsAfterSpec(0, t.targetSeconds, k);
  }

  // ---------------------------------------------------------------------------
  // Display

  /** `padStart(2, '0')`: zeros in front up to two characters. */
  function Pad2(s: string): (r: string)
    ensures |r| == if |s| >= 2 then |s| else 2
    ensures r[|r| - |s|..] == s
    ensures forall i :: 0 <= i < |r| - |s| ==> r[i] == '0'
  {
    if |s| >= 2 then s else if |s| == 1 then "0" + s else "00"
  }

  /** Where the parts of `a`, a separator and two more characters sit. */
  lemma Around(a: string, c: char, b: string)
    requires |b| == 2
    ensures var r := a + [c] + b; |r| == |a| + 3 && r[|r| - 3] == c && r[..|r| - 3] == a && r[|r| - 2..] == b
  {
    var r := a + [c] + b;
    assert r[..|r| - 3] == a;
    assert r[|r| - 2..] == b;
  }

  /** Printed minutes and seconds as `MM:SS`: the minutes zero-padded to two
      digits at least, a colon, and the seconds zero-padded to two digits. */
  function Clock(mins: string, secs: string): (r: string)
    requires |secs| <= 2
    ensures |r| >= 5 && r[|r| - 3] == ':'
    ensures r[..|r| - 3] == Pad2(mins)
    ensures r[|r| - 2..] == Pad2(secs)
  {
    var m := Pad2(mins);
    var s := Pad2(secs);
    Around(m, ':', s);
    m + [':'] + s
  }

  /** A number below 100 prints as at most two digits. */
  lemma ShortNumber(n: nat)
    requires n < 100
    ensures |NatToString(n)| <= 2
  {
    if n >= 10 {
      assert NatToString(n) == NatToString(n / 10) + [DigitChar(n % 10)];
    }
  }

  /** `formatTime`: whole minutes and the seconds within the minute. */
  function FormatTime(seconds: nat): (r: string)
    ensures |r| >= 5 && r[|r| - 3] == ':'
  {
    ShortNumber(seconds % 60);
    Clock(NatToString(seconds / 60), NatToString(seconds % 60))
  }

  /** Reading a displayed time back: the digits before the colon as minutes
      and the two after it as seconds. */
  function ParseTime(t: string): Option<nat> {
    if |t| < 3 || t[|t| - 3] != ':' then None
    else
      var mins := t[..|t| - 3];
      var secs := t[|t| - 2..];
      if AllDigits(mins) && AllDigits(secs) && mins != [] then Some(DigitsValue(mins) * 60 + DigitsValue(secs))
      else None
  }

  /** Zero padding keeps a digit string a digit string, of the same value. */
  lemma Pad2Value(s: string)
    requires AllDigits(s)
    ensures AllDigits(Pad2(s)) && DigitsValue(Pad2(s)) == DigitsValue(s)
  {
    if |s| == 1 {
      LeadingZeroValue(s);
      assert Pad2(s) == "0" + s;
    } else if s == [] {
      LeadingZeroValue("0");
      assert Pad2(s) == "0" + "0";
    }
  }

  /** A string of digits, a colon and two digits reads as minutes and
      seconds. */
  lemma ParseTimeOfShape(t: string, mins: nat, secs: nat)
    requires |t| >= 4 && t[|t| - 3] == ':' && AllDigits(t[..|t| - 3]) && AllDigits(t[|t| - 2..])
    requires DigitsValue(t[..|t| - 3]) == mins && DigitsValue(t[|t| - 2..]) == secs
    ensures ParseTime(t) == Some(mins * 60 + secs)
  {
    assert t[..|t| - 3] != [];
  }

  /** Reading back a clock built from two digit strings gives the minutes'
      value `m` times 60 plus the seconds' value `s`. */
  lemma ClockRoundTrip(mins: string, secs: string, m: nat, s: nat)
    requires AllDigits(mins) && AllDigits(secs) && |secs| <= 2
    requires DigitsValue(mins) == m && DigitsValue(secs) == s
    ensures ParseTime(Clock(mins, secs)) == Some(m * 60 + s)
  {
    Pad2Value(mins);
    Pad2Value(secs);
    ParseTimeOfShape(Clock(mins, secs), m, s);
  }

  /** Reading back printed minutes and seconds gives their total in seconds. */
  lemma PrintedClockRoundTrip(mins: nat, secs: nat)
    requires secs < 60
    ensures |NatToString(secs)| <= 2
    ensures ParseTime(Clock(NatToString(mins), NatToString(secs))) == Some(mins * 60 + secs)
  {
    ShortNumber(secs);
    NatToStringRoundTrip(mins);
    NatToStringRoundTrip(secs);
    ClockRoundTrip(NatToString(mins), NatToString(secs), mins, secs);
  }

  /** The display is exact: reading a formatted time back gives the seconds. */
  lemma FormatTimeRoundTrip(seconds: nat)
    ensures ParseTime(FormatTime(seconds)) == Some(seconds)
  {
    var mins, secs := seconds / 60, seconds % 60;
    assert mins * 60 + secs == seconds;
    assert FormatTime(seconds) == Clock(NatToString(mins), NatToString(secs));
    PrintedClockRoundTrip(mins, secs);
  }
}
