/**
 The render loop (render_video in services/renderer/compositor.py, main in scripts/generate_video.py): sampling,
 filling of data gaps with the last good frame, drawing on the frame, writing and progress.

 Frames are objects: drawing changes them in place, and only a copy keeps what was there before.
 */
module RenderVideo {
  import opened Basics
  import opened Schedule

  /** A composited picture, known by a number, or the black canvas of the placeholder. */
  datatype Picture = Composite(id: nat) | Black

  datatype Mark =
    | AwaitingData(date: int)
    | DataGap(shown: int)
    | Hud(date: int, history: seq<real>)
    | Telemetry(date: int)

  /** What a viewer sees: a picture and everything drawn on it, in order. */
  datatype Shot = Shot(picture: Picture, marks: seq<Mark>)

  class Frame {
    var shot: Shot

    constructor (shot: Shot)
      ensures this.shot == shot
    {
      this.shot := shot;
    }

    method Copy() returns (f: Frame)
      ensures fresh(f) && f.shot == shot
    {
      f := new Frame(shot);
    }

    method Draw(mark: Mark)
      modifies this
      ensures shot == old(shot).(marks := old(shot).marks + [mark])
    {
      shot := shot.(marks := shot.marks + [mark]);
    }
  }

  /** Per step: the composite the layers gave, if any, the activity of the top layer, and whether telemetry is shown. */
  datatype Sample = Sample(composite: Option<nat>, metric: real, telemetry: bool)

  // ---------------------------------------------------------------- specification

  predicate IsGood(s: Sample, good: nat -> bool) {
    s.composite.Some? && good(s.composite.value)
  }

  /** The latest step before `i` with a good composite. */
  function LatestGood(samples: seq<Sample>, good: nat -> bool, i: nat): (j: Option<nat>)
    requires i <= |samples|
    ensures j.Some? ==> j.value < i && IsGood(samples[j.value], good)
    ensures forall k :: (if j.Some? then j.value + 1 else 0) <= k < i ==> !IsGood(samples[k], good)
  {
    if i == 0 then None
    else if IsGood(samples[i - 1], good) then Some(i - 1)
    else LatestGood(samples, good, i - 1)
  }

  function Metrics(samples: seq<Sample>, n: nat): seq<real>
    requires n <= |samples|
  {
    seq(n, i requires 0 <= i < n => samples[i].metric)
  }

  /** The picture shown at step `i`, with what is drawn on it before the HUD. */
  function Base(samples: seq<Sample>, good: nat -> bool, delta: int, i: nat): Shot
    requires i < |samples|
  {
    var j := LatestGood(samples, good, i);
    if IsGood(samples[i], good) then Shot(Composite(samples[i].composite.value), [])
    else if j.Some? then Shot(Composite(samples[j.value].composite.value), [DataGap(j.value * delta)])
    else if samples[i].composite.Some? then Shot(Composite(samples[i].composite.value), [])
    else Shot(Black, [AwaitingData(i * delta)])
  }

  /** What is written at step `i`. */
  function Emitted(samples: seq<Sample>, good: nat -> bool, delta: int, i: nat): Shot
    requires i < |samples|
  {
    var base := Base(samples, good, delta, i);
    base.(marks := base.marks + [Hud(i * delta, Metrics(samples, i + 1))] +
                   if samples[i].telemetry then [Telemetry(i * delta)] else [])
  }

  function Repeated(shot: Shot, n: nat): (s: seq<Shot>)
    ensures |s| == n && forall k :: 0 <= k < n ==> s[k] == shot
  {
    if n == 0 then [] else Repeated(shot, n - 1) + [shot]
  }

  /** The first `i` steps of the film, each written `per` times. */
  function Film(samples: seq<Sample>, good: nat -> bool, delta: int, per: nat, i: nat): seq<Shot>
    requires i <= |samples|
  {
    if i == 0 then []
    else Film(samples, good, delta, per, i - 1) + Repeated(Emitted(samples, good, delta, i - 1), per)
  }

  lemma {:induction false} FilmSize(samples: seq<Sample>, good: nat -> bool, delta: int, per: nat, i: nat)
    requires i <= |samples|
    ensures |Film(samples, good, delta, per, i)| == i * per
  {
    if i > 0 {
      FilmSize(samples, good, delta, per, i - 1);
      assert i * per == (i - 1) * per + per;
    }
  }

  lemma Position(i: nat, j: nat, k: nat, per: nat)
    requires j < i && k < per
    ensures 0 <= j * per + k < i * per && i * per == (i - 1) * per + per
    ensures j < i - 1 ==> j * per + k < (i - 1) * per
  {
    Scaled(j + 1, i, per);
    assert (j + 1) * per == j * per + per;
    if j < i - 1 {
      Scaled(j + 1, i - 1, per);
    }
  }

  lemma TailOf(a: seq<Shot>, b: seq<Shot>, k: nat)
    requires k < |b|
    ensures (a + b)[|a| + k] == b[k]
  {
  }

  lemma HeadOf(a: seq<Shot>, b: seq<Shot>, k: nat)
    requires k < |a|
    ensures (a + b)[k] == a[k]
  {
  }

  /** Frame `k` of step `j` shows the shot of step `j`. */
  lemma {:induction false} FilmAt(samples: seq<Sample>, good: nat -> bool, delta: int, per: nat, i: nat, j: nat, k: nat)
    requires j < i <= |samples| && k < per
    ensures 0 <= j * per + k < |Film(samples, good, delta, per, i)|
    ensures Film(samples, good, delta, per, i)[j * per + k] == Emitted(samples, good, delta, j)
  {
    var before, last := Film(samples, good, delta, per, i - 1), Repeated(Emitted(samples, good, delta, i - 1), per);
    assert Film(samples, good, delta, per, i) == before + last;
    FilmSize(samples, good, delta, per, i);
    FilmSize(samples, good, delta, per, i - 1);
    Position(i, j, k, per);
    if j < i - 1 {
      FilmAt(samples, good, delta, per, i - 1, j, k);
      HeadOf(before, last, j * per + k);
    } else {
      TailOf(before, last, k);
    }
  }

  /**
   Whatever was drawn on earlier frames, a shot carries at most one placeholder or gap mark, its own HUD, and its own
   telemetry; and a gap mark exactly when an older good picture stands in.
   */
  lemma MarksAreOwn(samples: seq<Sample>, good: nat -> bool, delta: int, i: nat)
    requires i < |samples|
    ensures var shot := Emitted(samples, good, delta, i);
            var gap := !IsGood(samples[i], good) && LatestGood(samples, good, i).Some?;
            && 1 <= |shot.marks| <= 3
            && (forall k :: 0 <= k < |shot.marks| && (shot.marks[k].Hud? || shot.marks[k].Telemetry?) ==>
                  shot.marks[k].date == i * delta)
            && (gap <==> exists k :: 0 <= k < |shot.marks| && shot.marks[k].DataGap?)
            && (forall k :: 0 <= k < |shot.marks| && shot.marks[k].Hud? ==> |shot.marks[k].history| == i + 1)
            && (shot.picture.Black? <==>
                forall k :: 0 <= k <= i ==> !IsGood(samples[k], good) && (k == i ==> samples[k].composite.None?))
  {
    var shot, j := Emitted(samples, good, delta, i), LatestGood(samples, good, i);
    if !IsGood(samples[i], good) && j.Some? {
      assert shot.marks[0].DataGap?;
      assert IsGood(samples[j.value], good);
    }
  }

  lemma LatestIs(samples: seq<Sample>, good: nat -> bool, i: nat, j: nat)
    requires j < i <= |samples| && IsGood(samples[j], good)
    requires forall k :: j < k < i ==> !IsGood(samples[k], good)
    ensures LatestGood(samples, good, i) == Some(j)
  {
    var latest := LatestGood(samples, good, i);
    if latest.Some? {
      assert IsGood(samples[latest.value], good);
    }
  }

  lemma LatestIsNone(samples: seq<Sample>, good: nat -> bool, i: nat)
    requires i <= |samples| && forall k :: 0 <= k < i ==> !IsGood(samples[k], good)
    ensures LatestGood(samples, good, i) == None
  {
  }

  /** The picture of a good sample is its own, unmarked. */
  lemma OwnPicture(samples: seq<Sample>, good: nat -> bool, delta: int, i: nat)
    requires i < |samples| && samples[i].composite.Some?
    requires var own := samples[i].composite.value;
             good(own) || forall k :: 0 <= k < i ==> !(samples[k].composite.Some? && good(samples[k].composite.value))
    ensures var shot := Emitted(samples, good, delta, i);
            shot.picture == Composite(samples[i].composite.value) && shot.marks[0].Hud?
  {
    if !good(samples[i].composite.value) {
      LatestIsNone(samples, good, i);
    }
  }

  /** For a sample that is not good the latest good one before it stands in, and its date is shown. */
  lemma OlderPicture(samples: seq<Sample>, good: nat -> bool, delta: int, i: nat, j: nat)
    requires j < i < |samples| && samples[j].composite.Some? && good(samples[j].composite.value)
    requires forall k :: j < k <= i ==> !(samples[k].composite.Some? && good(samples[k].composite.value))
    ensures var shot := Emitted(samples, good, delta, i);
            shot.picture == Composite(samples[j].composite.value) && shot.marks[0] == DataGap(j * delta)
  {
    LatestIs(samples, good, i, j);
  }

  /** Without any picture, black and the date awaited. */
  lemma NoPicture(samples: seq<Sample>, good: nat -> bool, delta: int, i: nat)
    requires i < |samples| && samples[i].composite.None?
    requires forall k :: 0 <= k < i ==> !(samples[k].composite.Some? && good(samples[k].composite.value))
    ensures var shot := Emitted(samples, good, delta, i);
            shot.picture == Black && shot.marks[0] == AwaitingData(i * delta)
  {
    LatestIsNone(samples, good, i);
  }

  /** After at most one mark on the picture comes the HUD of the step, with all metrics so far, then the telemetry. */
  lemma HudAndTelemetry(samples: seq<Sample>, good: nat -> bool, delta: int, i: nat)
    requires i < |samples|
    ensures var shot := Emitted(samples, good, delta, i);
            var p := if shot.marks[0].Hud? then 0 else 1;
            && |shot.marks| == p + 1 + (if samples[i].telemetry then 1 else 0)
            && shot.marks[p].Hud? && shot.marks[p].date == i * delta && |shot.marks[p].history| == i + 1
            && (forall k :: 0 <= k <= i ==> shot.marks[p].history[k] == samples[k].metric)
            && (samples[i].telemetry ==> shot.marks[p + 1] == Telemetry(i * delta))
  {
  }

  // ---------------------------------------------------------------- the loop

  /** One pass of the gap logic: the frame to draw on, and the frame remembered for the next gap. */
  method Fill(sample: Sample, date: int, good: nat -> bool, last: Frame?, lastDate: int)
      returns (frame: Frame, last': Frame?, lastDate': int)
    ensures fresh(frame) && (last' == last || fresh(last')) && last' != frame
    ensures IsGood(sample, good) ==>
              && last' != null && last'.shot == Shot(Composite(sample.composite.value), []) && lastDate' == date
              && frame.shot == Shot(Composite(sample.composite.value), [])
    ensures !IsGood(sample, good) ==> last' == last && lastDate' == lastDate
    ensures !IsGood(sample, good) && last != null ==>
              frame.shot == Shot(last.shot.picture, last.shot.marks + [DataGap(lastDate)])
    ensures !IsGood(sample, good) && last == null ==>
              frame.shot == if sample.composite.Some? then Shot(Composite(sample.composite.value), [])
                            else Shot(Black, [AwaitingData(date)])
    ensures last != null ==> last.shot == old(last.shot)
  {
    last', lastDate' := last, lastDate;
    var isGap := false;
    if sample.composite.Some? {
      frame := new Frame(Shot(Composite(sample.composite.value), []));
      if good(sample.composite.value) {
        last' := frame.Copy();
        lastDate' := date;
      } else if last' != null {
        frame := last'.Copy();
        isGap := true;
      }
    } else if last' != null {
      frame := last'.Copy();
      isGap := true;
    } else {
      frame := new Frame(Shot(Black, []));
      frame.Draw(AwaitingData(date));
    }
    if isGap {
      frame.Draw(DataGap(lastDate'));
    }
  }

  /** astype, the HUD, and the telemetry panel. */
  method Decorate(plain: Frame, date: int, history: seq<real>, telemetry: bool) returns (frame: Frame)
    ensures fresh(frame)
    ensures frame.shot == Shot(plain.shot.picture, plain.shot.marks + [Hud(date, history)] +
                                                   if telemetry then [Telemetry(date)] else [])
  {
    frame := plain.Copy();
    frame.Draw(Hud(date, history));
    if telemetry {
      frame.Draw(Telemetry(date));
    }
  }

  method Write(out: seq<Shot>, frame: Frame, times: nat) returns (out': seq<Shot>)
    ensures out' == out + Repeated(frame.shot, times)
  {
    out' := out;
    for k := 0 to times
      invariant out' == out + Repeated(frame.shot, k)
    {
      out' := out' + [frame.shot];
    }
  }

  /** The remembered frame is the latest good composite, with nothing drawn on it. */
  ghost predicate Remembers(samples: seq<Sample>, good: nat -> bool, delta: int, i: nat, last: Frame?, lastDate: int)
    requires i <= |samples|
    reads last
  {
    var j := LatestGood(samples, good, i);
    && (last == null <==> j.None?)
    && (j.Some? ==> last != null && last.shot == Shot(Composite(samples[j.value].composite.value), []) &&
                    lastDate == j.value * delta)
  }

  /** One pass of the loop, for the sample at `step`. */
  method RenderStep(samples: seq<Sample>, good: nat -> bool, delta: int, per: nat, step: nat, film: seq<Shot>,
                    metrics: seq<real>, last: Frame?, lastDate: int)
      returns (film': seq<Shot>, metrics': seq<real>, last': Frame?, lastDate': int)
    requires step < |samples| && Remembers(samples, good, delta, step, last, lastDate)
    requires film == Film(samples, good, delta, per, step) && metrics == Metrics(samples, step)
    ensures film' == Film(samples, good, delta, per, step + 1) && metrics' == Metrics(samples, step + 1)
    ensures (last' == last || fresh(last')) && Remembers(samples, good, delta, step + 1, last', lastDate')
  {
    metrics' := metrics + [samples[step].metric];
    assert metrics' == Metrics(samples, step + 1);
    var plain;
    plain, last', lastDate' := Fill(samples[step], step * delta, good, last, lastDate);
    assert plain.shot == Base(samples, good, delta, step);
    var frame := Decorate(plain, step * delta, metrics', samples[step].telemetry);
    assert frame.shot == Emitted(samples, good, delta, step);
    film' := Write(film, frame, per);
  }

  /**
   The whole loop, for `frames` frames over `days` days. With an end date before the start date the guard fails
   at once and nothing is written; otherwise every planned step runs.
   */
  method Render(days: int, timeStep: string, frames: int, samples: seq<Sample>, good: nat -> bool)
      returns (film: seq<Shot>, metrics: seq<real>, dates: seq<int>, progress: seq<int>)
    requires 1 <= frames <= 1800 && |samples| == TotalSteps(days, Frequency(timeStep), frames)
    ensures var n, delta := if days < 0 then 0 else |samples|, Delta(days, Frequency(timeStep), frames);
            var per := FramesPerStep(frames, |samples|);
            && film == Film(samples, good, delta, per, n)
            && metrics == Metrics(samples, n)
            && |dates| == n && (forall i :: 0 <= i < n ==> dates[i] == i * delta)
            && |progress| == n && (forall i :: 0 <= i < n ==> progress[i] == (i + 1) * per)
    ensures |samples| >= 1 && FramesPerStep(frames, |samples|) == frames / |samples|
    ensures |metrics| == |dates| && forall i :: 0 <= i < |metrics| ==> metrics[i] == samples[i].metric
    ensures var f, range := Frequency(timeStep), days * 86_400_000_000 + 86_399_000_000;
            var planned := (days + 1) * (86_400_000_000 / f);
            days >= 0 ==>
              && |dates| == (if frames < planned then frames else planned)
              && dates[0] == 0
              && (|dates| > 1 ==>
                  var n, d := |dates|, dates[1];
                  && (forall i :: 0 <= i < n ==> dates[i] == i * d)
                  && (if frames < planned then -n <= 2 * n * d - 2 * range <= n else d == f))
  {
    var f := Frequency(timeStep);
    film, metrics, dates, progress := RenderAt(days, f, frames, samples, good);
    WholeShare(days, f, frames);
    if days >= 0 {
      DatesSpread(days, f, frames, dates);
    }
  }

  /** The loop, for the period `f` that the time step means. */
  method RenderAt(days: int, f: int, frames: int, samples: seq<Sample>, good: nat -> bool)
      returns (film: seq<Shot>, metrics: seq<real>, dates: seq<int>, progress: seq<int>)
    requires Known(f) && 1 <= frames <= 1800 && |samples| == TotalSteps(days, f, frames)
    ensures var n, delta := if days < 0 then 0 else |samples|, Delta(days, f, frames);
            var per := FramesPerStep(frames, |samples|);
            && film == Film(samples, good, delta, per, n)
            && metrics == Metrics(samples, n)
            && |dates| == n && (forall i :: 0 <= i < n ==> dates[i] == i * delta)
            && |progress| == n && (forall i :: 0 <= i < n ==> progress[i] == (i + 1) * per)
  {
    var totalSteps := Min(frames, DataSteps(days, f));
    var delta := Delta(days, f, frames);
    var framesPerStep := FramesPerStep(frames, totalSteps);
    var end := TimeRange(days);
    var last: Frame?, lastDate := null, 0;
    var current, step := 0, 0;
    film, metrics, dates, progress := [], [], [], [];
    while current <= end && step < totalSteps
      invariant 0 <= step <= totalSteps && (days < 0 ==> step == 0)
      invariant current == step * delta
      invariant last == null || fresh(last)
      invariant Remembers(samples, good, delta, step, last, lastDate)
      invariant film == Film(samples, good, delta, framesPerStep, step)
      invariant metrics == Metrics(samples, step)
      invariant |dates| == step && forall i :: 0 <= i < step ==> dates[i] == i * delta
      invariant |progress| == step && forall i :: 0 <= i < step ==> progress[i] == (i + 1) * framesPerStep
      decreases totalSteps - step
    {
      film, metrics, last, lastDate :=
        RenderStep(samples, good, delta, framesPerStep, step, film, metrics, last, lastDate);
      dates := dates + [current];
      NextDate(step, delta);
      current := current + delta;
      step := step + 1;
      ProgressUncapped(days, f, frames, step);
      progress := progress + [Min(frames, step * framesPerStep)];
    }
    if days >= 0 && step < totalSteps {
      SampleInRange(days, f, frames, step);
    }
  }

  /** Dates that follow the schedule are as many as it plans, and spread as it promises. */
  lemma DatesSpread(days: nat, f: int, frames: int, dates: seq<int>)
    requires Known(f) && frames >= 1 && |dates| == TotalSteps(days, f, frames)
    requires forall i :: 0 <= i < |dates| ==> dates[i] == i * Delta(days, f, frames)
    ensures var range, planned := days * 86_400_000_000 + 86_399_000_000, (days + 1) * (86_400_000_000 / f);
            && |dates| == (if frames < planned then frames else planned)
            && |dates| >= 1 && dates[0] == 0
            && (|dates| > 1 ==>
                var n, d := |dates|, dates[1];
                && (forall i :: 0 <= i < n ==> dates[i] == i * d)
                && (if frames < planned then -n <= 2 * n * d - 2 * range <= n else d == f))
  {
    Spacing(days, f, frames);
    WholeShare(days, f, frames);
    var d := Delta(days, f, frames);
    assert 0 * d == 0 && 1 * d == d;
  }

  lemma NextDate(step: nat, delta: int)
    ensures step * delta + delta == (step + 1) * delta
  {
  }

  /**
   What a finished video is worth: as many frames as the schedule promises, progress strictly increasing up to exactly
   that number, samples a period apart inside the requested days.
   */
  lemma RenderedVideo(days: nat, f: int, frames: int, samples: seq<Sample>, good: nat -> bool, i: nat)
    requires Known(f) && 1 <= frames <= 1800 && |samples| == TotalSteps(days, f, frames)
    requires i < |samples|
    ensures var n, delta := |samples|, Delta(days, f, frames);
            var per := FramesPerStep(frames, n);
            && |Film(samples, good, delta, per, n)| == frames - frames % n
            && i * per < (i + 1) * per <= frames
            && (i + 1 == n ==> (i + 1) * per == |Film(samples, good, delta, per, n)|)
            && 0 <= i * delta <= TimeRange(days)
            && i * delta + f <= (i + 1) * delta
  {
    var n, delta := |samples|, Delta(days, f, frames);
    var per := FramesPerStep(frames, n);
    FilmSize(samples, good, delta, per, n);
    FrameConservation(days, f, frames);
    ProgressUncapped(days, f, frames, i + 1);
    SampleInRange(days, f, frames, i);
    NeighboursApart(days, f, frames);
    NextDate(i, delta);
    NextDate(i, per);
  }
}
