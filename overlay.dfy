/** The in-call overlay (src/components/MatchOverlay.tsx): the elapsed-time
    clock, the blinking live indicator and the peer's gender badge.

    Once a start time is known, a one-second interval recomputes the clock
    from the current time and flips the live indicator. Times are integer
    milliseconds; the clock's arithmetic follows JavaScript: `Math.floor` for
    the divisions and a `%` that truncates toward zero. */
module Overlay {
  import opened Common
  import Profile

  const TickMs := 1000
  const InitialClock := "00:00"

  /** JavaScript's `a % b` for `b > 0`: the remainder takes the sign of `a`. */
  function JsRem(a: int, b: int): (r: int)
    requires b > 0
    ensures a >= 0 ==> r == a % b
    ensures a < 0 ==> -b < r <= 0
  {
    if a >= 0 then a % b else -((-a) % b)
  }

  /** `s.padStart(width, fill)`: left-pad, never truncate. */
  function PadStart(s: string, width: nat, fill: char): (r: string)
    ensures |r| == (if |s| >= width then |s| else width)
    ensures r[|r| - |s|..] == s
    ensures forall i :: 0 <= i < |r| - |s| ==> r[i] == fill
  {
    if |s| >= width then s else seq(width - |s|, _ => fill) + s
  }

  /** One clock field: `n.toString().padStart(2, '0')`. */
  function Field(n: int): string
  {
    PadStart(Profile.IntToString(n), 2, '0')
  }

  /** Whole seconds since `start`: `Math.floor((now - start) / 1000)`. */
  function ElapsedSeconds(start: int, now: int): int
  {
    (now - start) / 1000
  }

  /** The clock text for a number of seconds. */
  function Clock(seconds: int): string
  {
    Field(seconds / 60) + ":" + Field(JsRem(seconds, 60))
  }

  /** For a non-negative elapsed time the clock splits it into whole minutes and a
      remainder below 60 that add back up to it. */
  lemma ClockFields(start: int, now: int)
    requires now >= start
    ensures var s := ElapsedSeconds(start, now);
      && s >= 0 && s * 1000 <= now - start < (s + 1) * 1000
      && 0 <= JsRem(s, 60) < 60 && (s / 60) * 60 + JsRem(s, 60) == s
      && Clock(s) == Field(s / 60) + ":" + Field(JsRem(s, 60))
  {
  }

  /** The decimal text of `n` has at least three digits from 100 on, and at most two below. */
  lemma {:induction false} DigitCount(n: nat)
    ensures n >= 100 ==> |Profile.NatToString(n)| >= 3
    ensures n < 100 ==> |Profile.NatToString(n)| <= 2
  {
    if n >= 10 {
      DigitCount(n / 10);
    }
  }

  /** The seconds field is always exactly two digits; the minutes field is at least
      two characters and grows past two from 100 minutes on. */
  lemma ClockShape(seconds: nat)
    ensures var m := Field(seconds / 60);
      var c := Clock(seconds);
      && |Field(seconds % 60)| == 2
      && |m| >= 2 && (seconds / 60 >= 100 ==> |m| >= 3)
      && c == m + ":" + Field(seconds % 60)
      && |c| == |m| + 3 && c[|m|] == ':'
  {
    DigitCount(seconds % 60);
    DigitCount(seconds / 60);
  }

  /** A two-digit field reads back as the number it shows. */
  lemma {:induction false} FieldReadsBack(n: nat)
    requires n < 100
    ensures Profile.ValueOf(Field(n), 10) == n
  {
    Profile.ValueOfNatToString(n);
    DigitCount(n);
    var d := Profile.NatToString(n);
    if |d| == 1 {
      var f := Field(n);
      assert f == ['0'] + d;
      assert f[..1] == ['0'];
      assert Profile.ValueOf(['0'], 10) == 0 by {
        assert ['0'][..0] == [];
      }
    }
  }

  /** Seconds before the start (a clock set back) show negative, unpadded fields. */
  lemma NegativeClock()
    ensures Clock(-5) == "-1:-5"
  {
    assert -5 / 60 == -1 && JsRem(-5, 60) == -5;
    assert Profile.IntToString(-1) == "-1" by {
      assert Profile.NatToString(1) == "1";
    }
    assert Profile.IntToString(-5) == "-5" by {
      assert Profile.NatToString(5) == "5";
    }
    assert Field(-1) == "-1" && Field(-5) == "-5";
  }

  /** The gender badge: `M`, `F`, `X` for any other non-empty value, nothing for none. */
  function Badge(gender: Option<string>): (r: Option<string>)
    ensures r.Some? <==> gender.Some? && gender.value != ""
    ensures r.Some? ==> r.value == "M" || r.value == "F" || r.value == "X"
  {
    if gender.None? || gender.value == "" then None
    else if gender.value == "male" then Some("M")
    else if gender.value == "female" then Some("F")
    else Some("X")
  }

  /** The badge tells male and female apart and lumps every other value together. */
  lemma BadgeClasses(g: string)
    requires g != ""
    ensures Badge(Some(g)) == Some("M") <==> g == "male"
    ensures Badge(Some(g)) == Some("F") <==> g == "female"
    ensures Badge(Some(g)) == Some("X") <==> g != "male" && g != "female"
  {
  }

  /** The overlay's state: the seconds the clock was last computed for (`None` before
      the first tick), the live indicator, and the start time the interval runs for
      (`None` when no interval runs). */
  datatype View = View(shown: Option<int>, isLive: bool, ticking: Option<int>)

  /** The clock text on screen. */
  function Display(v: View): string
  {
    if v.shown.None? then InitialClock else Clock(v.shown.value)
  }

  /** The initial text is what the clock shows at zero seconds. */
  lemma InitialIsZero()
    ensures Clock(0) == InitialClock
  {
    assert Profile.NatToString(0) == "0";
    assert Field(0) == "00";
  }

  /** A falsy start time (none, or 0) runs no interval. */
  function Running(start: Option<int>): Option<int>
  {
    if start.Some? && start.value != 0 then start else None
  }

  /** The overlay as first shown. */
  function Mount(start: Option<int>): (r: View)
    ensures Display(r) == InitialClock && r.isLive
  {
    View(None, true, Running(start))
  }

  /** The effect re-run when the start time changes: the interval is replaced, the text is kept. */
  function StartChanged(v: View, start: Option<int>): (r: View)
    ensures Display(r) == Display(v) && r.isLive == v.isLive
    ensures r.ticking.Some? <==> start.Some? && start.value != 0
  {
    v.(ticking := Running(start))
  }

  /** One interval tick at time `now`. */
  function Tick(v: View, now: int): (r: View)
    ensures v.ticking.None? ==> r == v
    ensures v.ticking.Some? ==> r.isLive == !v.isLive && r.ticking == v.ticking
                                && r.shown == Some(ElapsedSeconds(v.ticking.value, now))
  {
    if v.ticking.None? then v
    else v.(shown := Some(ElapsedSeconds(v.ticking.value, now)), isLive := !v.isLive)
  }

  /** Ticks at the given times. */
  function Ticks(v: View, nows: seq<int>): View
    decreases |nows|
  {
    if nows == [] then v else Ticks(Tick(v, nows[0]), nows[1..])
  }

  /** The live indicator flips on every tick: after an even number it is back where it was. */
  lemma {:induction false} LiveAlternates(v: View, nows: seq<int>)
    requires v.ticking.Some?
    ensures Ticks(v, nows).isLive == (if |nows| % 2 == 0 then v.isLive else !v.isLive)
    ensures Ticks(v, nows).ticking == v.ticking
    decreases |nows|
  {
    if nows != [] {
      var w := Tick(v, nows[0]);
      assert Ticks(v, nows) == Ticks(w, nows[1..]);
      LiveAlternates(w, nows[1..]);
    }
  }

  /** While an interval runs, the clock shows the time of the latest tick. */
  lemma {:induction false} ClockFollowsLatestTick(v: View, nows: seq<int>)
    requires v.ticking.Some? && nows != []
    ensures Display(Ticks(v, nows)) == Clock(ElapsedSeconds(v.ticking.value, nows[|nows| - 1]))
    decreases |nows|
  {
    var w := Tick(v, nows[0]);
    if |nows| > 1 {
      ClockFollowsLatestTick(w, nows[1..]);
      assert nows[1..][|nows[1..]| - 1] == nows[|nows| - 1];
    } else {
      assert nows[1..] == [];
    }
  }

  /** Without a start time the overlay never changes: it keeps showing "00:00". */
  lemma {:induction false} IdleOverlayFrozen(start: Option<int>, nows: seq<int>)
    requires start.None? || start.value == 0
    ensures Ticks(Mount(start), nows) == Mount(start)
    ensures Display(Ticks(Mount(start), nows)) == InitialClock
    decreases |nows|
  {
    if nows != [] {
      IdleOverlayFrozen(start, nows[1..]);
    }
  }
}
