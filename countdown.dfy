/**
 * The countdown that both shopping pages run (`startTimer`): a tick writes
 * the label `剩余时间：mm:ss`, clicks the finish button and clears the
 * interval once `remain <= 0`, and decrements `remain`. The first tick runs
 * directly, before `const t = setInterval(tick, 1000)` has initialised `t`;
 * when that first tick already finds `remain <= 0`, reading `t` throws a
 * ReferenceError, the button is not clicked and no interval is set.
 */
module Countdown {
  import opened Text

  const LabelPrefix := "剩余时间："

  /** JavaScript's `a % b`, whose remainder takes the sign of `a`. */
  function JsRem(a: int, b: int): (r: int)
    requires b > 0
    ensures a >= 0 ==> r == a % b
    ensures a < 0 ==> r == -((-a) % b) && r <= 0
    ensures -b < r < b
  {
    if a >= 0 then a % b else -((-a) % b)
  }

  /** `${m}:${s}` for `m = String(Math.floor(remain / 60)).padStart(2, '0')` and `s = String(remain % 60).padStart(2, '0')`. */
  function Clock(remain: int): string {
    Pad2(remain / 60) + ":" + Pad2(JsRem(remain, 60))
  }

  function Label(remain: int): string {
    LabelPrefix + Clock(remain)
  }

  /** Reads a `mm:ss` clock of exactly five characters back as a number of seconds. */
  function ParseClock(c: string): Option<nat> {
    if |c| == 5 && c[2] == ':' && AllDigits(c[..2]) && AllDigits(c[3..]) then
      Some(60 * DigitsValue(c[..2]) + DigitsValue(c[3..]))
    else None
  }

  /** Below 100 minutes the clock is five characters and reads back as the remaining seconds. */
  lemma ClockRoundTrip(remain: int)
    requires 0 <= remain < 6000
    ensures |Clock(remain)| == 5
    ensures ParseClock(Clock(remain)) == Some(remain)
  {
    var m, s := Pad2(remain / 60), Pad2(remain % 60);
    Pad2Value(remain / 60);
    Pad2Value(remain % 60);
    var c := Clock(remain);
    assert c == m + ":" + s;
    assert c[..2] == m && c[3..] == s;
  }

  /** For any non-negative time the minutes field is at least two digits and the seconds field exactly two, and they read back as the quotient and remainder by 60. */
  lemma ClockFields(remain: int)
    requires remain >= 0
    ensures |Pad2(remain / 60)| >= 2 && AllDigits(Pad2(remain / 60))
    ensures DigitsValue(Pad2(remain / 60)) == remain / 60
    ensures |Pad2(JsRem(remain, 60))| == 2 && DigitsValue(Pad2(JsRem(remain, 60))) == remain % 60
  {
    Pad2Digits(remain / 60);
    Pad2Value(remain % 60);
  }

  class Timer {
    var remain: int
    var shown: string         // the text of the `#timer` element
    var intervalSet: bool     // `t` holds the interval returned by `setInterval`
    var cleared: bool         // `clearInterval(t)` has run
    var finishClicks: nat     // clicks on `#finish-btn`
    var threw: bool           // the first tick read `t` before it was initialised

    ghost predicate Valid()
      reads this
    {
      && finishClicks == (if cleared then 1 else 0)
      && (cleared ==> intervalSet && remain == -1)
      && (intervalSet && !cleared ==> remain >= 0)
      && (threw ==> !intervalSet && !cleared)
    }

    /** `startTimer(seconds)`: one direct tick, then the interval is set unless that tick threw. */
    constructor Start(seconds: int)
      ensures Valid()
      ensures shown == Label(seconds)
      ensures threw <==> seconds <= 0
      ensures !threw ==> intervalSet && !cleared && remain == seconds - 1 && finishClicks == 0
    {
      remain, shown := seconds, "";
      intervalSet, cleared, finishClicks, threw := false, false, 0, false;
      new;
      Tick();
      if !threw {
        intervalSet := true;
      }
    }

    /** One run of `tick`. */
    method Tick()
      requires Valid() && !cleared && !threw
      modifies this
      ensures Valid()
      ensures shown == Label(old(remain))
      ensures intervalSet == old(intervalSet)
      ensures old(remain) > 0 ==>
        remain == old(remain) - 1 && !cleared && !threw && finishClicks == old(finishClicks)
      ensures old(remain) <= 0 && intervalSet ==>
        remain == old(remain) - 1 && cleared && !threw && finishClicks == old(finishClicks) + 1
      ensures old(remain) <= 0 && !intervalSet ==>
        remain == old(remain) && threw && !cleared && finishClicks == old(finishClicks)
    {
      shown := Label(remain);
      if remain <= 0 {
        if !intervalSet {
          threw := true;
          return;
        }
        cleared := true;
        finishClicks := finishClicks + 1;
      }
      remain := remain - 1;
    }
  }
}
