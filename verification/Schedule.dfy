/**
 When the renderer samples the data and how many frames each sample fills (render_video in
 services/renderer/compositor.py, main in scripts/generate_video.py). Times are integers in microseconds, the resolution
 of Python's timedelta; the start date is at 0 and the end date `days` days later, at 23:59:59.
 */
module Schedule {
  import opened Basics

  const SECOND: int := 1_000_000
  const DAY: int := 86_400 * SECOND

  function LowerChar(c: char): char {
    if 'A' <= c <= 'Z' then (c as int + 32) as char else c
  }

  function Lower(s: string): string {
    if s == "" then "" else [LowerChar(s[0])] + Lower(s[1..])
  }

  /** The four known steps; anything else means daily. */
  function Frequency(timeStep: string): (f: int)
    ensures Known(f)
  {
    var step := Lower(timeStep);
    if step == "1h" then 3600 * SECOND
    else if step == "10m" then 600 * SECOND
    else if step == "1m" then 60 * SECOND
    else DAY
  }

  /** The three names of sub-daily steps, in either case; anything else means daily. */
  lemma FrequencyTable(s: string)
    ensures var hourly := |s| == 2 && s[0] == '1' && s[1] in {'h', 'H'};
            var minutely := |s| == 2 && s[0] == '1' && s[1] in {'m', 'M'};
            var everyTen := |s| == 3 && s[0] == '1' && s[1] == '0' && s[2] in {'m', 'M'};
            Frequency(s) == if hourly then 3_600_000_000 else if minutely then 60_000_000
                            else if everyTen then 600_000_000 else 86_400_000_000
  {
    LowerEach(s);
    var low := Lower(s);
    assert low == "1h" <==> |low| == 2 && low[0] == '1' && low[1] == 'h';
    assert low == "1m" <==> |low| == 2 && low[0] == '1' && low[1] == 'm';
    assert low == "10m" <==> |low| == 3 && low[0] == '1' && low[1] == '0' && low[2] == 'm';
  }

  lemma {:induction false} LowerEach(s: string)
    ensures |Lower(s)| == |s| && forall i :: 0 <= i < |s| ==> Lower(s)[i] == LowerChar(s[i])
  {
    if s != "" {
      LowerEach(s[1..]);
    }
  }

  predicate Known(f: int) {
    f in {DAY, 3600 * SECOND, 600 * SECOND, 60 * SECOND}
  }

  function TimeRange(days: int): int {
    days * DAY + 86_399 * SECOND
  }

  /** Python's int(): toward zero. */
  function Truncated(a: int, b: int): int
    requires b > 0
  {
    if a >= 0 then a / b else -(-a / b)
  }

  function DataSteps(days: int, f: int): int
    requires f > 0
  {
    Max(1, Truncated(TimeRange(days), f) + 1)
  }

  function TotalSteps(days: int, f: int, frames: int): int
    requires f > 0
  {
    Min(frames, DataSteps(days, f))
  }

  /** A stretched spacing is a quotient of durations, which Python rounds to whole microseconds. */
  function Delta(days: int, f: int, frames: int): int
    requires f > 0
  {
    var n := TotalSteps(days, f, frames);
    if n == DataSteps(days, f) then f else DividedAndRounded(TimeRange(days), Max(1, n))
  }

  function FramesPerStep(frames: int, steps: int): int {
    Max(1, frames / Max(1, steps))
  }

  // ---------------------------------------------------------------- the schedule is exact

  /** One sample per period of every day, the last day included. */
  lemma DataStepsExact(days: nat, f: int)
    requires Known(f)
    ensures DataSteps(days, f) == (days + 1) * (DAY / f)
  {
    if f == DAY {
      assert DAY / f == 1;
    } else if f == 3600 * SECOND {
      assert DAY / f == 24;
    } else if f == 600 * SECOND {
      assert DAY / f == 144;
    } else {
      assert DAY / f == 1440;
    }
  }

  /** A fraction of a period is missing to the end of the last day, whatever the period. */
  lemma RangeInSteps(days: nat, f: int)
    requires Known(f)
    ensures DataSteps(days, f) * f == TimeRange(days) + SECOND
  {
    var perDay := DAY / f;
    assert perDay * f == DAY;
    DataStepsExact(days, f);
    assert (days + 1) * perDay * f == (days + 1) * (perDay * f);
  }

  /** A rounded quotient is not below a whole number its dividend covers. */
  lemma QuotientAtLeast(range: int, n: int, f: int, q: int)
    requires n > 0 && n * f <= range && 2 * range - n <= 2 * n * q
    ensures q >= f
  {
    assert (f - 1) * n == f * n - n;
    if q < f {
      Scaled(q, f - 1, n);
    }
  }

  /** n - 1 rounded quotients fit into the dividend, if the quotient is not small against n. */
  lemma QuotientsFit(range: int, n: int, q: int)
    requires n > 0 && 2 * n * q <= 2 * range + n && n <= 2 * q
    ensures (n - 1) * q <= range
  {
    assert 2 * ((n - 1) * q) == 2 * n * q - 2 * q;
  }

  /** Also between capped and therefore stretched samples there is at least one period. */
  lemma NeighboursApart(days: nat, f: int, frames: int)
    requires Known(f) && frames >= 1
    ensures Delta(days, f, frames) >= f
  {
    var n, d := TotalSteps(days, f, frames), DataSteps(days, f);
    if n != d {
      RangeInSteps(days, f);
      Scaled(n, d - 1, f);
      assert (d - 1) * f == d * f - f;
      QuotientAtLeast(TimeRange(days), n, f, DividedAndRounded(TimeRange(days), n));
    }
  }

  /** The last of the planned samples is not after the end, so the date guard of the loop never cuts it short. */
  lemma LastSampleInRange(days: nat, f: int, frames: int)
    requires Known(f) && 1 <= frames <= 1800
    ensures (TotalSteps(days, f, frames) - 1) * Delta(days, f, frames) <= TimeRange(days)
  {
    var n, d := TotalSteps(days, f, frames), DataSteps(days, f);
    RangeInSteps(days, f);
    if n == d {
      assert (n - 1) * f == n * f - f;
    } else {
      NeighboursApart(days, f, frames);
      QuotientsFit(TimeRange(days), n, DividedAndRounded(TimeRange(days), n));
    }
  }

  /**
   How many samples, and how far apart: one a period if there are frames enough, otherwise one a frame, spread over the
   whole range to the microsecond.
   */
  lemma Spacing(days: nat, f: int, frames: int)
    requires Known(f) && frames >= 1
    ensures var range, planned := days * 86_400_000_000 + 86_399_000_000, (days + 1) * (86_400_000_000 / f);
            var n, d := TotalSteps(days, f, frames), Delta(days, f, frames);
            if frames < planned then n == frames && -n <= 2 * n * d - 2 * range <= n
            else n == planned && d == f
  {
    DataStepsExact(days, f);
  }

  /** A capped film reaches the end of the range: its last sample is one spacing before it, up to rounding. */
  lemma CappedFilmReachesTheEnd(days: nat, f: int, frames: int)
    requires Known(f) && 1 <= frames < (days + 1) * (86_400_000_000 / f)
    ensures var range, d := days * 86_400_000_000 + 86_399_000_000, Delta(days, f, frames);
            -frames <= 2 * (range - (frames - 1) * d) - 2 * d <= frames
  {
    Spacing(days, f, frames);
    LastBeforeEnd(frames, Delta(days, f, frames), days * 86_400_000_000 + 86_399_000_000);
  }

  lemma LastBeforeEnd(n: int, d: int, range: int)
    requires -n <= 2 * n * d - 2 * range <= n
    ensures -n <= 2 * (range - (n - 1) * d) - 2 * d <= n
  {
    assert (n - 1) * d == n * d - d;
    assert 2 * n * d == 2 * (n * d);
  }

  /** Every planned sample lies between the start and the end of the last day. */
  lemma SampleInRange(days: nat, f: int, frames: int, i: nat)
    requires Known(f) && 1 <= frames <= 1800 && i < TotalSteps(days, f, frames)
    ensures 0 <= i * Delta(days, f, frames) <= TimeRange(days)
  {
    LastSampleInRange(days, f, frames);
    NeighboursApart(days, f, frames);
    Scaled(i, TotalSteps(days, f, frames) - 1, Delta(days, f, frames));
    Scaled(0, i, Delta(days, f, frames));
  }

  /**
   The quotient of the two durations is a floating point number; rounding it cannot change its integer part for any
   dates a datetime can hold.
   */
  lemma FloatQuotientHarmless(days: nat, f: int, quotient: real)
    requires Known(f) && days <= 3_652_058
    requires var exact := TimeRange(days) as real / f as real;
             exact - exact / 9007199254740992.0 <= quotient <= exact + exact / 9007199254740992.0
    ensures quotient.Floor == TimeRange(days) / f
  {
    var exact, d := TimeRange(days) as real / f as real, DataSteps(days, f);
    RangeInSteps(days, f);
    DataStepsExact(days, f);
    assert d <= 3_652_059 * 1440;
    assert exact == d as real - SECOND as real / f as real by {
      assert TimeRange(days) as real == d as real * f as real - SECOND as real;
    }
    assert 1.0 / 86_400.0 <= SECOND as real / f as real <= 1.0 / 60.0;
    assert exact <= 6_000_000_000.0;
    assert d as real - 1.0 <= quotient < d as real;
  }

  // ---------------------------------------------------------------- frames

  lemma WholeParts(frames: int, n: int)
    requires 1 <= n <= frames
    ensures var written := n * (frames / n);
            && frames / n >= 1
            && written == frames - frames % n
            && written <= frames < 2 * written
            && (n == frames ==> written == frames)
  {
    var q, r := frames / n, frames % n;
    assert frames == n * q + r;
    if q <= 0 {
      Scaled(q, 0, n);
    }
    Scaled(1, q, n);
  }

  /** Frames written, against the number asked for. */
  lemma FrameConservation(days: int, f: int, frames: int)
    requires Known(f) && frames >= 1
    ensures var n := TotalSteps(days, f, frames);
            var written := n * FramesPerStep(frames, n);
            && 1 <= n <= frames
            && written == frames - frames % n
            && written <= frames < 2 * written
            && (written == frames <==> frames % n == 0)
            && (n < DataSteps(days, f) ==> written == frames)
  {
    WholeParts(frames, TotalSteps(days, f, frames));
  }

  /** Each step fills a whole share of the frames. */
  lemma WholeShare(days: int, f: int, frames: int)
    requires Known(f) && frames >= 1
    ensures var n := TotalSteps(days, f, frames);
            n >= 1 && FramesPerStep(frames, n) == frames / n >= 1
  {
    WholeParts(frames, TotalSteps(days, f, frames));
  }

  /** The progress value printed after `step` steps is never capped by the minimum the program takes. */
  lemma ProgressUncapped(days: int, f: int, frames: int, step: nat)
    requires Known(f) && frames >= 1 && step <= TotalSteps(days, f, frames)
    ensures var per := FramesPerStep(frames, TotalSteps(days, f, frames));
            Min(frames, step * per) == step * per
  {
    FrameConservation(days, f, frames);
    var n := TotalSteps(days, f, frames);
    Scaled(step, n, FramesPerStep(frames, n));
  }
}
