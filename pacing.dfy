/**
 * The frame-pacing loop of `play_video_file`: each pass reads the
 * transport state, waits for or catches up with the schedule (skipping at
 * most five frames), reads one frame, renders it and advances the
 * schedule by one frame interval at the current speed.
 *
 * Time is a `real` clock reading handed to each pass; sleeping is not
 * modelled, so a pass that is early renders at once, as it would after
 * its sleep.
 */
module Pacing {
  import opened Common
  import opened Ansi
  import opened Render
  import opened Keys
  import opened FrameSource
  import opened Geometry

  /** The most frames one pass skips to catch up. */
  const MaxSkip: nat := 5

  /** `base_frame_time / speed`: the interval between frames at the current speed. */
  function TargetDt(base: real, t: Transport): (dt: real)
    requires base > 0.0 && SpeedInRange(t)
    ensures dt > 0.0
    ensures dt * Speed(t) == base
  {
    base / Speed(t)
  }

  /** `b`, which is `q` times a positive `dt`, lies between `lo * dt` and `hi * dt` when `q` lies between `lo` and `hi`. */
  lemma ScaleBetween(b: real, q: real, lo: real, hi: real, dt: real)
    requires lo <= q < hi && dt > 0.0 && q * dt == b
    ensures lo * dt <= b < hi * dt
  {
  }

  lemma AtLeastOne(b: real, dt: real)
    requires b >= dt > 0.0
    ensures b / dt >= 1.0
  {
  }

  lemma FloorMul(behind: real, dt: real)
    requires behind >= 0.0 && dt > 0.0
    ensures (behind / dt).Floor >= 0
    ensures behind >= dt ==> (behind / dt).Floor >= 1
    ensures (behind / dt).Floor as real * dt <= behind < ((behind / dt).Floor + 1) as real * dt
  {
    var q := behind / dt;
    if behind >= dt {
      AtLeastOne(behind, dt);
    }
    ScaleBetween(behind, q, q.Floor as real, (q.Floor + 1) as real, dt);
  }

  lemma MulLeq(a: real, b: real, dt: real, c: real)
    requires a <= b && dt > 0.0 && b * dt <= c
    ensures a * dt <= c
  {
  }

  /**
   * How many frames a pass skips: none unless it is more than one interval
   * behind schedule, then the whole intervals it is behind, at most five.
   */
  function SkipWanted(now: real, due: real, dt: real): (k: nat)
    requires dt > 0.0
    ensures k <= MaxSkip
    ensures k > 0 <==> now >= due && now - due > dt
    ensures due + k as real * dt <= now || k == 0
    ensures k < MaxSkip ==> now - (due + k as real * dt) <= dt
    ensures 0 < k < MaxSkip ==> now - (due + k as real * dt) < dt
  {
    if now < due then 0
    else
      var behind := now - due;
      if behind > dt then
        FloorMul(behind, dt);
        var n := (behind / dt).Floor;
        var k := Min(n, MaxSkip);
        MulLeq(k as real, n as real, dt, behind);
        assert (n + 1) as real * dt == n as real * dt + dt;
        k
      else 0
  }

  /**
   * The catch-up branch of a pass starting at pipe position `pos` of `len`
   * bytes: the frames it skipped, the new position and the new schedule.
   * When the stream ends while skipping, the pipe is drained, no frame
   * counts as skipped and the schedule stays.
   */
  function CatchUpState(now: real, due: real, dt: real, pos: nat, len: nat, frameSize: nat): (nat, nat, real)
    requires dt > 0.0
  {
    var k := SkipWanted(now, due, dt);
    if pos + k * frameSize <= len then (k, pos + k * frameSize, due + dt * k as real) else (0, len, due)
  }

  /** What a pass of the loop ended with. */
  datatype Outcome = Stopped | Paused | Ended | Shown(skipped: nat)

  /**
   * One pass as a function of the transport state, the schedule `due`, the
   * clock `now`, the bytes left in the pipe and the size of a frame:
   * the outcome, the new schedule and the bytes consumed.
   */
  function PaceStep(t: Transport, due: real, now: real, base: real, remaining: nat, frameSize: nat)
    : (r: (Outcome, real, nat))
    requires base > 0.0 && SpeedInRange(t)
    ensures r.2 <= remaining
  {
    if t.quit then (Stopped, due, 0)
    else if t.pause then (Paused, now, 0)
    else
      var dt := TargetDt(base, t);
      var k := SkipWanted(now, due, dt);
      if k * frameSize > remaining then
        (Ended, due, remaining)
      else
        var due' := due + dt * k as real;
        if frameSize > remaining - k * frameSize then (Ended, due', remaining)
        else (Shown(k), due' + dt, (k + 1) * frameSize)
  }

  /** Quit wins over everything; pause only moves the schedule to now. */
  lemma StopAndPause(t: Transport, due: real, now: real, base: real, remaining: nat, frameSize: nat)
    requires base > 0.0 && SpeedInRange(t)
    ensures t.quit ==> PaceStep(t, due, now, base, remaining, frameSize) == (Stopped, due, 0)
    ensures !t.quit && t.pause ==> PaceStep(t, due, now, base, remaining, frameSize) == (Paused, now, 0)
    ensures !t.quit && !t.pause ==> PaceStep(t, due, now, base, remaining, frameSize).0 in {Ended, Shown(SkipWanted(now, due, TargetDt(base, t)))}
  {
  }

  /**
   * A pass shows a frame exactly when the pipe holds the skipped frames
   * and one more; it then consumes exactly those, and otherwise drains the pipe.
   */
  lemma {:induction false} ShownIffEnoughFrames(t: Transport, due: real, now: real, base: real, remaining: nat, frameSize: nat)
    requires base > 0.0 && SpeedInRange(t) && !t.quit && !t.pause
    ensures var k := SkipWanted(now, due, TargetDt(base, t));
            var (o, _, used) := PaceStep(t, due, now, base, remaining, frameSize);
            (o.Shown? <==> (k + 1) * frameSize <= remaining) &&
            (o.Shown? ==> o.skipped == k && used == (k + 1) * frameSize) &&
            (!o.Shown? ==> o == Ended && used == remaining)
  {
    var k := SkipWanted(now, due, TargetDt(base, t));
    assert (k + 1) * frameSize == k * frameSize + frameSize;
  }

  /**
   * Showing a frame moves the schedule ahead by one interval per frame
   * consumed, and unless the skip cap was hit, the next frame is not yet
   * late: the schedule has caught up with the clock.
   */
  lemma {:induction false} ShownCatchesUp(t: Transport, due: real, now: real, base: real, remaining: nat, frameSize: nat)
    requires base > 0.0 && SpeedInRange(t)
    requires PaceStep(t, due, now, base, remaining, frameSize).0.Shown?
    ensures var dt := TargetDt(base, t);
            var (o, due', _) := PaceStep(t, due, now, base, remaining, frameSize);
            o.skipped <= MaxSkip &&
            due' == due + (o.skipped + 1) as real * dt &&
            (o.skipped < MaxSkip ==> now <= due')
  {
    var dt := TargetDt(base, t);
    var k := SkipWanted(now, due, dt);
    assert due + dt * k as real + dt == due + (k + 1) as real * dt;
  }

  /** After a pause, a pass within one interval of the reset skips nothing. */
  lemma ResumeSkipsNothing(t: Transport, due: real, paused: real, now: real, base: real, remaining: nat, frameSize: nat)
    requires base > 0.0 && SpeedInRange(t) && t.pause && !t.quit
    requires now - paused <= TargetDt(base, t)
    ensures var (_, due', _) := PaceStep(t, due, paused, base, remaining, frameSize);
            SkipWanted(now, due', TargetDt(base, t)) == 0
  {
  }

  /**
   * The playback loop's state: the input object, the decoder's pipe, the
   * fixed geometry, and the schedule, last lines and frame count it updates.
   */
  class Player {
    const keys: KeyInput
    const pipe: Pipe
    const width: nat
    const height: nat
    const truecolor: bool
    const leftPad: int
    const topPad: int
    const baseFrameTime: real
    var due: real
    var prevLines: Option<seq<string>>
    var frameIndex: nat

    ghost predicate Valid()
      reads this, keys, pipe
    {
      pipe.Valid() && SpeedInRange(keys.State()) && baseFrameTime > 0.0
    }

    /** `frame_bytes`. */
    function FrameSize(): nat
    {
      width * height * 3
    }

    /** The pass `PaceStep` predicts from the current state at clock reading `now`. */
    ghost function Pass(now: real): (Outcome, real, nat)
      reads this, keys, pipe
      requires Valid()
    {
      PaceStep(keys.State(), due, now, baseFrameTime, pipe.Remaining(), FrameSize())
    }

    /**
     * The set-up before the loop: the pads centre a `width` by `height`
     * picture in a terminal of `termCols` by `termRows`, and the base
     * interval is one over the capped frame rate.
     */
    constructor (keys: KeyInput, pipe: Pipe, width: nat, height: nat, truecolor: bool,
                 termCols: int, termRows: int, fpsLimit: int, sourceFps: int, now: real)
      requires pipe.Valid() && SpeedInRange(keys.State())
      ensures Valid()
      ensures this.keys == keys && this.pipe == pipe && this.width == width && this.height == height
      ensures this.truecolor == truecolor
      ensures leftPad == LeftPad(termCols, width) && topPad == TopPad(termRows, height)
      ensures baseFrameTime == BaseFrameTime(FpsCap(fpsLimit, sourceFps))
      ensures baseFrameTime * FpsCap(fpsLimit, sourceFps) as real == 1.0
      ensures due == now && prevLines == None && frameIndex == 0
    {
      this.keys := keys;
      this.pipe := pipe;
      this.width := width;
      this.height := height;
      this.truecolor := truecolor;
      leftPad := LeftPad(termCols, width);
      topPad := TopPad(termRows, height);
      baseFrameTime := BaseFrameTime(FpsCap(fpsLimit, sourceFps));
      due := now;
      prevLines := None;
      frameIndex := 0;
    }

    /** The skipping loop: up to `n` frames read and dropped; false if the stream ended. */
    method SkipFrames(n: nat) returns (ok: bool)
      requires Valid()
      modifies pipe
      ensures Valid() && pipe.data == old(pipe.data)
      ensures ok <==> old(pipe.pos) + n * FrameSize() <= |pipe.data|
      ensures ok ==> pipe.pos == old(pipe.pos) + n * FrameSize()
      ensures !ok ==> pipe.pos == |pipe.data|
    {
      var i := 0;
      ok := true;
      while i < n && ok
        invariant 0 <= i <= n
        invariant Valid() && pipe.data == old(pipe.data)
        invariant ok ==> pipe.pos == old(pipe.pos) + i * FrameSize()
        invariant !ok ==> pipe.pos == |pipe.data| && old(pipe.pos) + n * FrameSize() > |pipe.data|
        decreases n - i, ok
      {
        var skipped := ReadExact(pipe, FrameSize());
        assert (i + 1) * FrameSize() == i * FrameSize() + FrameSize();
        if skipped.None? {
          assert (i + 1) * FrameSize() <= n * FrameSize() by {
            MulMono(i + 1, n, FrameSize());
          }
          ok := false;
        } else {
          i := i + 1;
        }
      }
    }

    /**
     * The catch-up branch: when more than one interval behind, read and
     * drop the frames wanted; if the stream ends meanwhile, count none.
     */
    method CatchUp(now: real, dt: real) returns (skipN: nat)
      requires Valid() && dt > 0.0
      modifies `due, pipe
      ensures Valid() && pipe.data == old(pipe.data)
      ensures (skipN, pipe.pos, due) == CatchUpState(now, old(due), dt, old(pipe.pos), |pipe.data|, FrameSize())
    {
      ghost var k := SkipWanted(now, due, dt);
      ghost var p0, len := pipe.pos, |pipe.data|;
      skipN := 0;
      if now < due {
        assert k == 0;
        return;
      }
      var behind := now - due;
      if behind > dt {
        var n := (behind / dt).Floor;
        assert k == Min(n, MaxSkip);
        if n > 0 {
          skipN := Min(n, MaxSkip);
          var ok := SkipFrames(skipN);
          if !ok {
            assert p0 + k * FrameSize() > len;
            skipN := 0;
          } else {
            assert p0 + k * FrameSize() <= len;
          }
          due := due + dt * skipN as real;
        }
      } else {
        assert k == 0;
      }
    }

    /** The terminal lines of a frame of raw bytes. */
    function LinesOf(raw: seq<Byte>): seq<string>
      requires |raw| == FrameSize()
    {
      ReshapeCovers(raw, width, height);
      FrameLines(Reshape(raw, width, height), width, height, truecolor)
    }

    /**
     * The part of a pass that neither quits nor pauses: catch up, then read
     * the frame to show.  The outcome is `Ended` or `Shown`.
     */
    method Fetch(now: real) returns (outcome: Outcome, raw: seq<Byte>)
      requires Valid() && !keys.quit && !keys.pause
      modifies `due, pipe
      ensures Valid() && pipe.data == old(pipe.data)
      ensures old(Pass(now)) == (outcome, due, pipe.pos - old(pipe.pos))
      ensures outcome.Shown? ==> FrameSize() <= pipe.pos && raw == pipe.data[pipe.pos - FrameSize()..pipe.pos]
    {
      var dt := baseFrameTime / Speed(keys.State());
      ghost var t := keys.State();
      ghost var p0 := pipe.pos;
      assert dt == TargetDt(baseFrameTime, t);
      ghost var due0, len := due, |pipe.data|;
      assert Pass(now) == PaceStep(t, due0, now, baseFrameTime, len - p0, FrameSize());
      var skipN := CatchUp(now, dt);
      ghost var due1, pos1 := due, pipe.pos;
      var frame := ReadExact(pipe, FrameSize());
      FetchOutcome(t, due0, now, baseFrameTime, dt, p0, len, FrameSize(), skipN, due1, pos1, pipe.pos, frame.Some?);
      if frame.None? {
        return Ended, [];
      }
      due := due + dt;
      return Shown(skipN), frame.value;
    }

    /** A pass that quits, or that pauses and moves the schedule to `now`. */
    method Hold(now: real) returns (outcome: Outcome)
      requires Valid() && (keys.quit || keys.pause)
      modifies `due
      ensures old(Pass(now)) == (outcome, due, 0)
      ensures !outcome.Shown?
    {
      StopAndPause(keys.State(), due, now, baseFrameTime, pipe.Remaining(), FrameSize());
      if keys.quit {
        return Stopped;
      }
      due := now;
      return Paused;
    }

    /**
     * The pacing half of one pass of the `while True` loop, at clock reading
     * `now`: quit, pause, or catch up and read the frame to show, `raw`.
     */
    method Step(now: real) returns (outcome: Outcome, raw: seq<Byte>)
      requires Valid()
      modifies `due, pipe
      ensures Valid() && pipe.data == old(pipe.data)
      ensures old(Pass(now)) == (outcome, due, pipe.pos - old(pipe.pos))
      ensures outcome.Shown? ==> FrameSize() <= pipe.pos && raw == pipe.data[pipe.pos - FrameSize()..pipe.pos]
    {
      if keys.quit || keys.pause {
        outcome := Hold(now);
        raw := [];
      } else {
        outcome, raw := Fetch(now);
      }
    }

    /**
     * The drawing half of a pass that shows a frame: reshape and render
     * `raw` against the lines last shown, and remember its lines.
     */
    method Present(raw: seq<Byte>) returns (out: string)
      requires |raw| == FrameSize()
      modifies `prevLines, `frameIndex
      ensures prevLines == Some(LinesOf(raw))
      ensures out == Compose(LinesOf(raw), old(prevLines), leftPad, topPad)
      ensures frameIndex == old(frameIndex) + 1
    {
      var rgb := Reshape(raw, width, height);
      ReshapeCovers(raw, width, height);
      var lines;
      out, lines := RenderFrame(rgb, width, height, truecolor, prevLines, leftPad, topPad);
      prevLines := Some(lines);
      frameIndex := frameIndex + 1;
    }
  }

  /** The pass of a loop that is neither stopped nor paused, case by case. */
  lemma RunningStep(t: Transport, due: real, now: real, base: real, remaining: nat, frameSize: nat)
    requires base > 0.0 && SpeedInRange(t) && !t.quit && !t.pause
    ensures var dt := TargetDt(base, t);
            var k := SkipWanted(now, due, dt);
            var r := PaceStep(t, due, now, base, remaining, frameSize);
            (k * frameSize > remaining ==> r == (Ended, due, remaining)) &&
            (k * frameSize <= remaining < (k + 1) * frameSize ==> r == (Ended, due + dt * k as real, remaining)) &&
            ((k + 1) * frameSize <= remaining ==> r == (Shown(k), due + dt * k as real + dt, (k + 1) * frameSize))
  {
    var dt := TargetDt(base, t);
    var k := SkipWanted(now, due, dt);
    var r := PaceStep(t, due, now, base, remaining, frameSize);
    assert (k + 1) * frameSize == k * frameSize + frameSize;
    if k * frameSize <= remaining {
      var due' := due + dt * k as real;
      if frameSize > remaining - k * frameSize {
        assert remaining < (k + 1) * frameSize;
        assert r == (Ended, due', remaining);
      } else {
        assert r == (Shown(k), due' + dt, (k + 1) * frameSize);
      }
    } else {
      assert r == (Ended, due, remaining);
    }
  }

  /**
   * The outcome of `Player.Fetch` from what its two reads did: the catch-up
   * moved the pipe from `p0` to `pos1` and the schedule to `due1`; the frame
   * read then moved the pipe to `pos2`, and `shown` says it found a whole frame.
   */
  lemma FetchOutcome(t: Transport, due: real, now: real, base: real, dt: real, p0: nat, len: nat, frameSize: nat,
                     skipN: nat, due1: real, pos1: nat, pos2: nat, shown: bool)
    requires base > 0.0 && SpeedInRange(t) && !t.quit && !t.pause && p0 <= len && dt == TargetDt(base, t)
    requires (skipN, pos1, due1) == CatchUpState(now, due, dt, p0, len, frameSize)
    requires pos1 + frameSize <= len ==> shown && pos2 == pos1 + frameSize
    requires pos1 + frameSize > len ==> !shown && pos2 == len
    ensures PaceStep(t, due, now, base, len - p0, frameSize)
            == (if shown then Shown(skipN) else Ended, if shown then due1 + dt else due1, pos2 - p0)
  {
    RunningStep(t, due, now, base, len - p0, frameSize);
    var k := SkipWanted(now, due, dt);
    assert (k + 1) * frameSize == k * frameSize + frameSize;
  }

  lemma MulMono(a: nat, b: nat, c: nat)
    requires a <= b
    ensures a * c <= b * c
  {
  }
}
