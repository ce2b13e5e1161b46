/**
 * The scheduler loop of ScreensaverBase (`start_loop` with `wait`) as a
 * state machine: one turn renders the next image on the next control of the
 * control cycle, preloads the image after it and then either counts a
 * warm-up turn or waits.  `Loop` gives the state after k turns; the lemmas
 * say what every turn did.
 *
 * The host's exit signal (the ExitMonitor callback) is a schedule `host`:
 * every read of `exit_requested` is one poll, and `host[p]` says whether the
 * host called `stop` before poll p.  A poll past the end of the schedule
 * always sees the signal, so every run of the loop ends.
 */
module Scheduler {
  import opened Prelude
  import opened Cycle
  import opened Dispatch
  import opened Geometry

  // ---------------------------------------------------------------- the exit schedule

  /** The host has raised the exit signal by poll p (the schedule ends with the signal held). */
  predicate Signal(host: seq<bool>, p: nat)
  {
    p >= |host| || host[p]
  }

  /** No exit signal at any poll in [a, b). */
  predicate Quiet(host: seq<bool>, a: int, b: int)
  {
    forall p: nat :: a <= p < b ==> !Signal(host, p)
  }

  /** A stretch starting at a non-negative poll is quiet exactly when its first poll and the rest are. */
  lemma QuietCons(host: seq<bool>, a: nat, b: int)
    requires a < b
    ensures Quiet(host, a, b) <==> !Signal(host, a) && Quiet(host, a + 1, b)
  {
  }

  /** A stretch inside a quiet one is quiet. */
  lemma QuietSub(host: seq<bool>, a: int, b: int, c: int, d: int)
    requires a <= c && d <= b && Quiet(host, a, b)
    ensures Quiet(host, c, d)
  {
  }

  /** Quiet stretches of the schedule join up. */
  lemma QuietJoin(host: seq<bool>, a: int, b: int, c: int)
    requires a <= b <= c && Quiet(host, a, b) && Quiet(host, b, c)
    ensures Quiet(host, a, c)
  {
  }

  // ---------------------------------------------------------------- wait

  /** The length of one chunk of `wait`, in milliseconds. */
  const ChunkMs: int := 500

  /** `xrange(NEXT_IMAGE_TIME / 500)` runs this many times: the whole 500 ms chunks in the pacing time. */
  function Chunks(t: int): (c: nat)
    ensures c * ChunkMs <= (if t < 0 then 0 else t) < (c + 1) * ChunkMs
    ensures t < ChunkMs ==> c == 0
  {
    if t < 0 then 0 else t / ChunkMs
  }

  /** The sleeps `wait` did, the next poll, and `exit_requested` afterwards. */
  datatype Pacing = Pacing(slept: nat, polls: nat, exit: bool)

  /**
   * `wait` from poll p with `left` chunks to go and `slept` sleeps done:
   * each chunk reads `exit_requested` (one poll) and returns if it is set,
   * else sleeps.
   */
  function Waited(exit: bool, host: seq<bool>, p: nat, slept: nat, left: nat): Pacing
    decreases left
  {
    if left == 0 then Pacing(slept, p, exit)
    else if exit || Signal(host, p) then Pacing(slept, p + 1, true)
    else Waited(false, host, p + 1, slept + 1, left - 1)
  }

  /**
   * `wait` sleeps only while no exit is requested, sleeps every chunk unless
   * it sees the request, and reads the flag once more only when it stops
   * early.
   */
  lemma {:induction false} WaitedFacts(exit: bool, host: seq<bool>, p: nat, slept: nat, left: nat)
    ensures var w := Waited(exit, host, p, slept, left);
      slept <= w.slept <= slept + left &&
      w.polls == p + (w.slept - slept) + (if w.slept < slept + left then 1 else 0) &&
      (w.slept > slept ==> !exit) &&
      Quiet(host, p, p + (w.slept - slept)) &&
      (w.slept < slept + left ==> w.exit) &&
      w.exit == (exit || !Quiet(host, p, w.polls))
    decreases left
  {
    var w := Waited(exit, host, p, slept, left);
    if left > 0 && !(exit || Signal(host, p)) {
      WaitedFacts(false, host, p + 1, slept + 1, left - 1);
      QuietCons(host, p, w.polls);
      QuietCons(host, p, p + (w.slept - slept));
    } else if left > 0 {
      QuietCons(host, p, p + 1);
    }
  }

  // ---------------------------------------------------------------- one turn

  /** What one turn of the scheduler loop did. */
  datatype Step = Step(
    slot: nat,          // index into image_controls of the control drawn from the control cycle
    url: string,        // the image rendered
    count: nat,         // image_count when process_image ran
    paint: Paint,       // what process_image did
    preloaded: string,  // the url handed to preload_image
    waited: bool,       // whether wait() was called
    slept: nat,         // the 500 ms sleeps wait() performed
    poll: nat)          // the poll of the loop test that let this turn start

  /** The class constants the loop reads: MODE, FAST_IMAGE_COUNT, EFFECT_TIME and NEXT_IMAGE_TIME. */
  datatype Config = Config(mode: Mode, fast: nat, effectTime: int, pacing: int)

  /**
   * The state the loop works on: the image controls, the window's stack of
   * control ids, the preload control's image, `image_count`, `exit_requested`,
   * the next poll, and the turns so far.
   */
  datatype Run = Run(controls: seq<Control>, window: seq<nat>, preloaded: string, imageCount: nat,
                     exit: bool, polls: nat, steps: seq<Step>)

  /** The control in slot i after the turns `steps`: the last one painted there, else the initial one. */
  function Current(init: seq<Control>, steps: seq<Step>, i: nat): Control
    requires i < |init|
  {
    if steps == [] then init[i]
    else if steps[|steps| - 1].slot == i then steps[|steps| - 1].paint.control
    else Current(init, steps[..|steps| - 1], i)
  }

  /**
   * One loop body followed by the loop test: render `url` on control `slot`,
   * restack it where the mode does, preload `next`, then count the turn or
   * wait, and poll `exit_requested`.
   */
  function TurnSpec(cfg: Config, r: Run, slot: nat, url: string, next: string, d: Draw, host: seq<bool>): Run
    requires slot < |r.controls| && DrawFits(cfg.mode, d) && 1 <= r.polls
  {
    var paint := Render(cfg.mode, r.controls[slot], url, r.imageCount, cfg.fast, cfg.effectTime, d);
    var t := Tock(cfg, Timing(r), host);
    Run(r.controls[slot := paint.control],
        if Restacks(cfg.mode) then Restack(r.window, paint.control.id) else r.window,
        next,
        t.count,
        t.exit,
        t.polls,
        r.steps + [Step(slot, url, r.imageCount, paint, next, r.imageCount >= cfg.fast,
                        Pace(cfg, Timing(r), host).slept, r.polls - 1)])
  }

  /** The part of the loop state that decides its timing: `image_count`, `exit_requested` and the next poll. */
  datatype Beat = Beat(count: nat, exit: bool, polls: nat)

  function Timing(r: Run): Beat
  {
    Beat(r.imageCount, r.exit, r.polls)
  }

  /** The pacing part of a turn: `wait` once the warm-up turns are over, else nothing. */
  function Pace(cfg: Config, b: Beat, host: seq<bool>): Pacing
  {
    if b.count >= cfg.fast then Waited(b.exit, host, b.polls, 0, Chunks(cfg.pacing))
    else Pacing(0, b.polls, b.exit)
  }

  /** The timing after a turn: the count climbs during the warm-up, and the loop test polls once after the pacing. */
  function Tock(cfg: Config, b: Beat, host: seq<bool>): Beat
  {
    var w := Pace(cfg, b, host);
    Beat(if b.count >= cfg.fast then b.count else b.count + 1, w.exit || Signal(host, w.polls), w.polls + 1)
  }

  /**
   * A turn that does not wait sleeps nothing and polls nothing; one that
   * waits sleeps at most its pacing time, and all of it unless it sees the
   * exit.
   */
  lemma PaceFacts(cfg: Config, b: Beat, host: seq<bool>)
    ensures var w := Pace(cfg, b, host);
      (b.count < cfg.fast ==> w == Pacing(0, b.polls, b.exit)) &&
      w.slept <= Chunks(cfg.pacing) && b.polls <= w.polls &&
      (b.count >= cfg.fast && !w.exit ==> w.slept == Chunks(cfg.pacing) && w.polls == b.polls + w.slept) &&
      Quiet(host, b.polls, b.polls + w.slept) &&
      w.exit == (b.exit || !Quiet(host, b.polls, w.polls))
  {
    WaitedFacts(b.exit, host, b.polls, 0, Chunks(cfg.pacing));
  }

  function Without(w: seq<nat>, id: nat): (r: seq<nat>)
    ensures forall x :: x in r <==> x in w && x != id
  {
    if w == [] then []
    else if w[0] == id then Without(w[1..], id)
    else [w[0]] + Without(w[1..], id)
  }

  /** Removing a control that is not in the window leaves the window as it was. */
  lemma {:induction false} WithoutAbsent(w: seq<nat>, id: nat)
    requires id !in w
    ensures Without(w, id) == w
  {
    if w != [] {
      WithoutAbsent(w[1..], id);
      assert w == [w[0]] + w[1..];
    }
  }

  /** Removal works id by id: removing from a concatenation concatenates the parts removed from. */
  lemma {:induction false} WithoutAppend(a: seq<nat>, b: seq<nat>, id: nat)
    ensures Without(a + b, id) == Without(a, id) + Without(b, id)
    decreases |a|
  {
    if a != [] {
      assert (a + b)[0] == a[0] && (a + b)[1..] == a[1..] + b;
      WithoutAppend(a[1..], b, id);
    } else {
      assert a + b == b;
    }
  }

  /**
   * In a window that holds the control once, removing it leaves the controls
   * below it and those above it in their order.
   */
  lemma WithoutAt(below: seq<nat>, id: nat, above: seq<nat>)
    requires id !in below && id !in above
    ensures Without(below + [id] + above, id) == below + above
  {
    WithoutAppend(below + [id], above, id);
    WithoutAppend(below, [id], id);
    assert Without([id], id) == [] by {
      assert [id][1..] == [];
    }
    WithoutAbsent(below, id);
    WithoutAbsent(above, id);
  }

  /** `removeControl` then `addControl`: the control moves to the top of the window. */
  function Restack(w: seq<nat>, id: nat): (r: seq<nat>)
    ensures r != [] && r[|r| - 1] == id
    ensures forall x :: x in r <==> x in w || x == id
  {
    Without(w, id) + [id]
  }

  /**
   * Restacking a control that the window holds once keeps the order of all
   * the others and puts it on top.
   */
  lemma RestackAt(below: seq<nat>, id: nat, above: seq<nat>)
    requires id !in below && id !in above
    ensures Restack(below + [id] + above, id) == below + above + [id]
  {
    WithoutAt(below, id, above);
  }

  // ---------------------------------------------------------------- k turns

  /** The loop can start from `start`: images and controls exist, no turn yet, the first test polled. */
  predicate Ready(cfg: Config, start: Run, urls: seq<string>, draws: seq<Draw>)
  {
    urls != [] && |start.controls| > 0 && start.steps == [] && 1 <= start.polls &&
    forall j :: 0 <= j < |draws| ==> DrawFits(cfg.mode, draws[j])
  }

  /**
   * The state after k turns: turn j draws slot j mod N from the control
   * cycle and image j from the url cycle, and preloads image j + 1.
   */
  function Loop(cfg: Config, start: Run, urls: seq<string>, host: seq<bool>, draws: seq<Draw>, k: nat): (r: Run)
    requires Ready(cfg, start, urls, draws) && k <= |draws|
    ensures |r.controls| == |start.controls| && |r.steps| == k && 1 <= r.polls
    decreases k
  {
    if k == 0 then start
    else
      var r := Loop(cfg, start, urls, host, draws, k - 1);
      TurnSpec(cfg, r, (k - 1) % |start.controls|, CycleAt(urls, k - 1), CycleAt(urls, k), draws[k - 1], host)
  }

  /** Turn k of the loop, as one step from the state after k turns. */
  lemma LoopNext(cfg: Config, start: Run, urls: seq<string>, host: seq<bool>, draws: seq<Draw>, k: nat)
    requires Ready(cfg, start, urls, draws) && k < |draws|
    ensures Loop(cfg, start, urls, host, draws, k + 1) ==
      TurnSpec(cfg, Loop(cfg, start, urls, host, draws, k), k % |start.controls|,
               CycleAt(urls, k), CycleAt(urls, k + 1), draws[k], host)
  {
  }

  /** The timing after k turns from `b`. */
  function Clock(cfg: Config, b: Beat, host: seq<bool>, k: nat): Beat
    decreases k
  {
    if k == 0 then b else Tock(cfg, Clock(cfg, b, host, k - 1), host)
  }

  /** The timing of the loop depends on the exit schedule alone: what the turns paint never changes it. */
  lemma {:induction false} LoopClock(cfg: Config, start: Run, urls: seq<string>, host: seq<bool>,
                                     draws: seq<Draw>, k: nat)
    requires Ready(cfg, start, urls, draws) && k <= |draws|
    ensures Timing(Loop(cfg, start, urls, host, draws, k)) == Clock(cfg, Timing(start), host, k)
    decreases k
  {
    if k > 0 {
      LoopClock(cfg, start, urls, host, draws, k - 1);
    }
  }

  /** No turn before turn k ended with the exit requested: the loop test let all k run. */
  predicate Running(cfg: Config, b: Beat, host: seq<bool>, k: nat)
    decreases k
  {
    k == 0 || (Running(cfg, b, host, k - 1) && !Clock(cfg, b, host, k - 1).exit)
  }

  /** A run that let k turns run let every earlier turn run, and none of those turns saw the exit. */
  lemma {:induction false} RunningPrefix(cfg: Config, b: Beat, host: seq<bool>, j: nat, k: nat)
    requires j <= k && Running(cfg, b, host, k)
    ensures Running(cfg, b, host, j)
    ensures j < k ==> !Clock(cfg, b, host, j).exit
    decreases k
  {
    if j < k - 1 {
      RunningPrefix(cfg, b, host, j, k - 1);
      RunningPrefix(cfg, b, host, j + 1, k - 1);
    }
  }

  /**
   * The loop after k turns, none stopped by the exit, with the exit still
   * not requested: running turn k (slot k mod N, image k, preloading image
   * k + 1) gives the state after k + 1 turns.
   */
  lemma Advance(cfg: Config, start: Run, urls: seq<string>, host: seq<bool>, draws: seq<Draw>, k: nat,
                r: Run, slot: nat, url: string, next: string)
    requires Ready(cfg, start, urls, draws) && k < |draws|
    requires r == Loop(cfg, start, urls, host, draws, k) && Running(cfg, Timing(start), host, k) && !r.exit
    requires slot == k % |start.controls| && url == CycleAt(urls, k) && next == CycleAt(urls, k + 1)
    ensures slot < |r.controls| && 1 <= r.polls
    ensures TurnSpec(cfg, r, slot, url, next, draws[k], host) == Loop(cfg, start, urls, host, draws, k + 1)
    ensures Running(cfg, Timing(start), host, k + 1)
  {
    LoopNext(cfg, start, urls, host, draws, k);
    LoopClock(cfg, start, urls, host, draws, k);
  }

  /** A turn appends one step to the record. */
  lemma LoopGrows(cfg: Config, start: Run, urls: seq<string>, host: seq<bool>, draws: seq<Draw>, k: nat)
    requires Ready(cfg, start, urls, draws) && k < |draws|
    ensures Loop(cfg, start, urls, host, draws, k + 1).steps[..k] == Loop(cfg, start, urls, host, draws, k).steps
  {
    var q := Loop(cfg, start, urls, host, draws, k);
    assert (q.steps + [Loop(cfg, start, urls, host, draws, k + 1).steps[k]])[..k] == q.steps;
  }

  /** What turn j appended to the record. */
  lemma LoopStepAt(cfg: Config, start: Run, urls: seq<string>, host: seq<bool>, draws: seq<Draw>, j: nat)
    requires Ready(cfg, start, urls, draws) && j < |draws|
    ensures var r := Loop(cfg, start, urls, host, draws, j);
      Loop(cfg, start, urls, host, draws, j + 1).steps[j] ==
        Step(j % |start.controls|, CycleAt(urls, j), r.imageCount,
             Render(cfg.mode, r.controls[j % |start.controls|], CycleAt(urls, j), r.imageCount, cfg.fast, cfg.effectTime, draws[j]),
             CycleAt(urls, j + 1), r.imageCount >= cfg.fast, Pace(cfg, Timing(r), host).slept, r.polls - 1)
  {
  }

  /** Later turns only append to the record of earlier ones. */
  lemma {:induction false} LoopPrefix(cfg: Config, start: Run, urls: seq<string>, host: seq<bool>,
                                      draws: seq<Draw>, j: nat, k: nat)
    requires Ready(cfg, start, urls, draws) && j <= k <= |draws|
    ensures Loop(cfg, start, urls, host, draws, k).steps[..j] == Loop(cfg, start, urls, host, draws, j).steps
    decreases k
  {
    var a := Loop(cfg, start, urls, host, draws, k).steps;
    if j < k {
      var b := Loop(cfg, start, urls, host, draws, k - 1).steps;
      LoopPrefix(cfg, start, urls, host, draws, j, k - 1);
      LoopGrows(cfg, start, urls, host, draws, k - 1);
      PrefixOfPrefix(a, b, j);
      assert a[..j] == b[..j];
      assert b[..j] == Loop(cfg, start, urls, host, draws, j).steps;
    } else {
      assert a[..j] == a;
    }
  }

  /** The step turn j recorded stays in the record. */
  lemma LoopRecorded(cfg: Config, start: Run, urls: seq<string>, host: seq<bool>, draws: seq<Draw>, j: nat, k: nat)
    requires Ready(cfg, start, urls, draws) && j < k <= |draws|
    ensures Loop(cfg, start, urls, host, draws, k).steps[j] == Loop(cfg, start, urls, host, draws, j + 1).steps[j]
  {
    LoopPrefix(cfg, start, urls, host, draws, j + 1, k);
    PrefixAt(Loop(cfg, start, urls, host, draws, k).steps, Loop(cfg, start, urls, host, draws, j + 1).steps, j);
  }

  /** A step in the record after j turns stays in the record after k >= j turns. */
  lemma LoopKept(cfg: Config, start: Run, urls: seq<string>, host: seq<bool>, draws: seq<Draw>, i: nat, j: nat, k: nat)
    requires Ready(cfg, start, urls, draws) && i < j <= k <= |draws|
    ensures Loop(cfg, start, urls, host, draws, k).steps[i] == Loop(cfg, start, urls, host, draws, j).steps[i]
  {
    LoopPrefix(cfg, start, urls, host, draws, j, k);
    PrefixAt(Loop(cfg, start, urls, host, draws, k).steps, Loop(cfg, start, urls, host, draws, j).steps, i);
  }

  /**
   * Turn j, as recorded after k turns: it drew slot j mod N and image j,
   * preloaded image j + 1, and ran `process_image` with the image count
   * then current on the control in that slot.
   */
  lemma LoopTurn(cfg: Config, start: Run, urls: seq<string>, host: seq<bool>, draws: seq<Draw>, j: nat, k: nat)
    requires Ready(cfg, start, urls, draws) && j < k <= |draws|
    ensures var r, s := Loop(cfg, start, urls, host, draws, j), Loop(cfg, start, urls, host, draws, k).steps[j];
      s.slot == j % |start.controls| && s.url == CycleAt(urls, j) && s.preloaded == CycleAt(urls, j + 1) &&
      s.count == r.imageCount &&
      s.paint == Render(cfg.mode, r.controls[s.slot], s.url, s.count, cfg.fast, cfg.effectTime, draws[j])
  {
    LoopRecorded(cfg, start, urls, host, draws, j, k);
    LoopStepAt(cfg, start, urls, host, draws, j);
  }

  /**
   * The timing of turn j, as recorded after k turns: it saw the count of the
   * clock, waited exactly when the warm-up turns were over, slept as its
   * pacing did, and started at the poll just taken.
   */
  lemma LoopTiming(cfg: Config, start: Run, urls: seq<string>, host: seq<bool>, draws: seq<Draw>, j: nat, k: nat)
    requires Ready(cfg, start, urls, draws) && j < k <= |draws|
    ensures var c, s := Clock(cfg, Timing(start), host, j), Loop(cfg, start, urls, host, draws, k).steps[j];
      s.count == c.count && s.waited == (c.count >= cfg.fast) &&
      s.slept == Pace(cfg, c, host).slept && s.poll + 1 == c.polls
  {
    LoopRecorded(cfg, start, urls, host, draws, j, k);
    LoopStepAt(cfg, start, urls, host, draws, j);
    LoopClock(cfg, start, urls, host, draws, j);
  }

  /** The image count climbs by one per turn until it reaches FAST_IMAGE_COUNT, and stays there. */
  lemma {:induction false} ClockCount(cfg: Config, b: Beat, host: seq<bool>, k: nat)
    requires b.count <= cfg.fast
    ensures Clock(cfg, b, host, k).count == Min(b.count + k, cfg.fast)
  {
    if k > 0 {
      ClockCount(cfg, b, host, k - 1);
    }
  }

  /** Each slot holds the control as the last turn that drew it left it (or the initial one). */
  lemma {:induction false} LoopControls(cfg: Config, start: Run, urls: seq<string>, host: seq<bool>,
                                        draws: seq<Draw>, k: nat, i: nat)
    requires Ready(cfg, start, urls, draws) && k <= |draws| && i < |start.controls|
    ensures var r := Loop(cfg, start, urls, host, draws, k);
      r.controls[i] == Current(start.controls, r.steps, i)
  {
    if k > 0 {
      var q := Loop(cfg, start, urls, host, draws, k - 1);
      var r := Loop(cfg, start, urls, host, draws, k);
      LoopControls(cfg, start, urls, host, draws, k - 1, i);
      assert r.steps[..k - 1] == q.steps;
    }
  }

  /** Turn l drew slot l mod N. */
  lemma LoopSlots(cfg: Config, start: Run, urls: seq<string>, host: seq<bool>, draws: seq<Draw>, k: nat)
    requires Ready(cfg, start, urls, draws) && k <= |draws|
    ensures var steps := Loop(cfg, start, urls, host, draws, k).steps;
      forall l :: 0 <= l < |steps| ==> steps[l].slot == l % |start.controls|
  {
    forall l | 0 <= l < k
      ensures Loop(cfg, start, urls, host, draws, k).steps[l].slot == l % |start.controls|
    {
      LoopRecorded(cfg, start, urls, host, draws, l, k);
      LoopStepAt(cfg, start, urls, host, draws, l);
    }
  }

  /**
   * After j turns the slot turn j draws holds its initial control if no
   * turn has drawn it yet, and otherwise what turn j - N painted there.
   */
  lemma LoopNextControl(cfg: Config, start: Run, urls: seq<string>, host: seq<bool>, draws: seq<Draw>, j: nat)
    requires Ready(cfg, start, urls, draws) && j <= |draws|
    ensures var n, r := |start.controls|, Loop(cfg, start, urls, host, draws, j);
      r.controls[j % n] == if j >= n then r.steps[j - n].paint.control else start.controls[j]
  {
    var n, r := |start.controls|, Loop(cfg, start, urls, host, draws, j);
    LoopControls(cfg, start, urls, host, draws, j, j % n);
    LoopSlots(cfg, start, urls, host, draws, j);
    ReusedControl(start.controls, r.steps);
  }

  /**
   * The control cycle hands turn j the initial control of its slot in the
   * first pass over the slots, and afterwards the control as the turn N
   * earlier left it.
   */
  lemma LoopDrawn(cfg: Config, start: Run, urls: seq<string>, host: seq<bool>, draws: seq<Draw>, j: nat, k: nat)
    requires Ready(cfg, start, urls, draws) && j < k <= |draws|
    ensures var n := |start.controls|;
      Loop(cfg, start, urls, host, draws, j).controls[j % n] ==
        if j >= n then Loop(cfg, start, urls, host, draws, k).steps[j - n].paint.control else start.controls[j]
  {
    var n := |start.controls|;
    LoopNextControl(cfg, start, urls, host, draws, j);
    if j >= n {
      LoopKept(cfg, start, urls, host, draws, j - n, j, k);
    }
  }

  /** What a turn paints: `process_image` on the control the cycle handed it. */
  lemma LoopReuse(cfg: Config, start: Run, urls: seq<string>, host: seq<bool>, draws: seq<Draw>, j: nat, k: nat)
    requires Ready(cfg, start, urls, draws) && j < k <= |draws|
    ensures var n, steps := |start.controls|, Loop(cfg, start, urls, host, draws, k).steps;
      steps[j].paint == Render(cfg.mode, if j >= n then steps[j - n].paint.control else start.controls[j],
                               steps[j].url, steps[j].count, cfg.fast, cfg.effectTime, draws[j])
  {
    LoopTurn(cfg, start, urls, host, draws, j, k);
    LoopDrawn(cfg, start, urls, host, draws, j, k);
  }

  /** The preload control holds the image after the last one rendered. */
  lemma LoopPreload(cfg: Config, start: Run, urls: seq<string>, host: seq<bool>, draws: seq<Draw>, k: nat)
    requires Ready(cfg, start, urls, draws) && k <= |draws|
    ensures Loop(cfg, start, urls, host, draws, k).preloaded == if k == 0 then start.preloaded else CycleAt(urls, k)
  {
  }

  /** Modes that restack bring the control just painted to the top of the window; the others never touch it. */
  lemma {:induction false} LoopWindow(cfg: Config, start: Run, urls: seq<string>, host: seq<bool>,
                                      draws: seq<Draw>, k: nat)
    requires Ready(cfg, start, urls, draws) && k <= |draws|
    ensures var r := Loop(cfg, start, urls, host, draws, k);
      (Restacks(cfg.mode) && k > 0 ==> r.window != [] && r.window[|r.window| - 1] == r.steps[k - 1].paint.control.id) &&
      (!Restacks(cfg.mode) ==> r.window == start.window)
  {
    if k > 0 {
      LoopWindow(cfg, start, urls, host, draws, k - 1);
    }
  }

  /**
   * While no exit has been seen: every turn takes at least one poll,
   * `exit_requested` is set exactly when some poll since the start has seen
   * the signal, and a run that goes on has not reached the end of the
   * schedule.
   */
  lemma {:induction false} ClockExit(cfg: Config, b: Beat, host: seq<bool>, k: nat)
    requires b.exit || b.polls <= |host|
    requires Running(cfg, b, host, k)
    ensures var c := Clock(cfg, b, host, k);
      b.polls + k <= c.polls &&
      c.exit == (b.exit || !Quiet(host, b.polls, c.polls)) &&
      (c.exit || c.polls <= |host|)
  {
    if k > 0 {
      var q := Clock(cfg, b, host, k - 1);
      var c := Clock(cfg, b, host, k);
      ClockExit(cfg, b, host, k - 1);
      var w := Pace(cfg, q, host);
      PaceFacts(cfg, q, host);
      if !c.exit {
        QuietJoin(host, b.polls, q.polls, w.polls);
        QuietCons(host, w.polls, w.polls + 1);
        QuietJoin(host, b.polls, w.polls, w.polls + 1);
      } else if w.exit {
        if Quiet(host, b.polls, c.polls) {
          QuietSub(host, b.polls, c.polls, q.polls, w.polls);
        }
      }
    }
  }

  /** The exit facts of the clock, for the loop state after k turns. */
  lemma LoopExit(cfg: Config, start: Run, urls: seq<string>, host: seq<bool>, draws: seq<Draw>, k: nat)
    requires Ready(cfg, start, urls, draws) && k <= |draws|
    requires start.exit || start.polls <= |host|
    requires Running(cfg, Timing(start), host, k)
    ensures var r := Loop(cfg, start, urls, host, draws, k);
      start.polls + k <= r.polls &&
      r.exit == (start.exit || !Quiet(host, start.polls, r.polls)) &&
      (r.exit || r.polls <= |host|)
  {
    LoopClock(cfg, start, urls, host, draws, k);
    ClockExit(cfg, Timing(start), host, k);
  }

  /** Every turn before the last one slept only while no signal had come since the first loop test. */
  lemma ClockQuiet(cfg: Config, b: Beat, host: seq<bool>, j: nat, k: nat)
    requires j < k && (b.exit || b.polls <= |host|) && Running(cfg, b, host, k)
    ensures var c := Clock(cfg, b, host, j);
      Quiet(host, b.polls, c.polls + Pace(cfg, c, host).slept)
  {
    var c := Clock(cfg, b, host, j);
    RunningPrefix(cfg, b, host, j, k);
    ClockExit(cfg, b, host, j);
    PaceFacts(cfg, c, host);
    QuietJoin(host, b.polls, c.polls, c.polls + Pace(cfg, c, host).slept);
  }

  /**
   * A turn followed by another one took its loop test right after its
   * sleeps, and slept its whole pacing time if it waited.
   */
  lemma ClockNext(cfg: Config, b: Beat, host: seq<bool>, j: nat, k: nat)
    requires j + 1 < k && Running(cfg, b, host, k)
    ensures var c := Clock(cfg, b, host, j);
      var w := Pace(cfg, c, host);
      Clock(cfg, b, host, j + 1).polls == c.polls + w.slept + 1 &&
      (c.count >= cfg.fast ==> w.slept == Chunks(cfg.pacing))
  {
    RunningPrefix(cfg, b, host, j + 1, k);
    PaceFacts(cfg, Clock(cfg, b, host, j), host);
  }

  /**
   * Every turn of a run without an earlier exit slept only while no signal
   * had come since the first loop test.
   */
  lemma LoopSleptQuiet(cfg: Config, start: Run, urls: seq<string>, host: seq<bool>,
                       draws: seq<Draw>, j: nat, k: nat)
    requires Ready(cfg, start, urls, draws) && j < k <= |draws|
    requires start.exit || start.polls <= |host|
    requires Running(cfg, Timing(start), host, k)
    ensures var s := Loop(cfg, start, urls, host, draws, k).steps[j];
      Quiet(host, start.polls, s.poll + 1 + s.slept)
  {
    LoopTiming(cfg, start, urls, host, draws, j, k);
    ClockQuiet(cfg, Timing(start), host, j, k);
  }

  /**
   * In a run without an earlier exit each turn after the first starts right
   * after the loop test and the sleeps of the turn before, and a turn that
   * waited slept its whole pacing time.
   */
  lemma LoopNextPoll(cfg: Config, start: Run, urls: seq<string>, host: seq<bool>,
                     draws: seq<Draw>, j: nat, k: nat)
    requires Ready(cfg, start, urls, draws) && j + 1 < k <= |draws|
    requires Running(cfg, Timing(start), host, k)
    ensures var steps := Loop(cfg, start, urls, host, draws, k).steps;
      steps[j + 1].poll == steps[j].poll + 1 + steps[j].slept &&
      (steps[j].waited ==> steps[j].slept == Chunks(cfg.pacing))
  {
    LoopTiming(cfg, start, urls, host, draws, j, k);
    LoopTiming(cfg, start, urls, host, draws, j + 1, k);
    ClockNext(cfg, Timing(start), host, j, k);
  }

  /** GridSwitch fades the previous image out exactly on the turns after the warm-up, which are the turns that wait. */
  lemma GridWarmUp(cfg: Config, start: Run, urls: seq<string>, host: seq<bool>, draws: seq<Draw>, j: nat, k: nat)
    requires Ready(cfg, start, urls, draws) && j < k <= |draws|
    requires cfg.mode == GridSwitch && start.imageCount <= cfg.fast
    ensures var s := Loop(cfg, start, urls, host, draws, k).steps[j];
      ((FadeOut(GridEffectTime) in s.paint.applied) <==> start.imageCount + j >= cfg.fast) &&
      ((FadeOut(GridEffectTime) in s.paint.applied) <==> s.waited)
  {
    LoopTurn(cfg, start, urls, host, draws, j, k);
    LoopTiming(cfg, start, urls, host, draws, j, k);
    ClockCount(cfg, Timing(start), host, j);
  }

  // ---------------------------------------------------------------- the control cycle

  /** Turns after position m that paint other slots do not change what slot i holds. */
  lemma {:induction false} CurrentSkip(init: seq<Control>, steps: seq<Step>, m: nat, i: nat)
    requires i < |init| && m <= |steps|
    requires forall j :: m <= j < |steps| ==> steps[j].slot != i
    ensures Current(init, steps, i) == Current(init, steps[..m], i)
    decreases |steps| - m
  {
    if |steps| > m {
      var front := steps[..|steps| - 1];
      assert front[..m] == steps[..m];
      assert forall j :: m <= j < |front| ==> front[j] == steps[j];
      CurrentSkip(init, front, m, i);
    } else {
      assert steps[..m] == steps;
    }
  }

  /**
   * The control cycle hands out slot k mod N at turn k, so the control a turn
   * draws is the initial one in the first pass, and afterwards exactly the
   * one painted N turns earlier.
   */
  lemma ReusedControl(init: seq<Control>, steps: seq<Step>)
    requires |init| > 0
    requires forall j :: 0 <= j < |steps| ==> steps[j].slot == j % |init|
    ensures var k := |steps|;
      Current(init, steps, k % |init|) == if k >= |init| then steps[k - |init|].paint.control else init[k]
  {
    var k, n := |steps|, |init|;
    if k >= n {
      var m := k - n + 1;
      forall j | m <= j < k
        ensures steps[j].slot != k % n
      {
        ResiduesDistinct(j, k, n);
      }
      CurrentSkip(init, steps, m, k % n);
      ModShift(k, n);
      assert steps[..m][m - 1] == steps[k - n];
    } else {
      ModUnique(k, n, 0, k);
      forall j | 0 <= j < k
        ensures steps[j].slot != k % n
      {
        ModUnique(j, n, 0, j);
      }
      CurrentSkip(init, steps, 0, k % n);
    }
  }
}
