/**
 * ScreensaverBase with its per-mode start-up: the scheduler loop
 * `start_loop`, the chunked `wait`, `stop`, `del_controls`, the creation of
 * the image controls and the three `stack_cycle_controls` variants.
 *
 * The host's exit signal (the ExitMonitor callback) is a schedule `host`:
 * every read of `exit_requested` is one poll, and `host[p]` says whether the
 * host called `stop` before poll p.  A poll past the end of the schedule
 * always sees the signal, so every run of the loop ends.
 */
module Screensavers {
  import opened Prelude
  import opened Cycle
  import opened Shuffling
  import opened Dispatch
  import opened Geometry
  import opened Scheduler

  /**
   * The settings `load_settings` reads, as the integers `int()` makes of
   * them: any integer, a negative grid size included.
   */
  datatype Settings = Settings(wait: int, effect: int, rows: int)

  /** IMAGE_CONTROL_COUNT of each class (GridSwitch: rows squared, so a GridSwitch has no controls exactly when rows is 0). */
  function ControlCount(mode: Mode, rows: int): (n: nat)
    ensures mode == GridSwitch ==> (n == 0 <==> rows == 0)
    ensures mode != GridSwitch ==> 6 <= n <= 35
  {
    match mode
    case TableDrop => 20
    case StarWars => 6
    case RandomZoomIn => 7
    case AppleTVLike => 35
    case GridSwitch => Square(rows)
  }

  /**
   * FAST_IMAGE_COUNT of each class: renders that skip the pacing wait at
   * start-up.  There are never more of them than controls; GridSwitch fills
   * every control once before it waits.
   */
  function FastCount(mode: Mode, rows: int): (n: nat)
    ensures n <= ControlCount(mode, rows)
    ensures mode == GridSwitch ==> n == ControlCount(mode, rows)
  {
    match mode
    case AppleTVLike => 2
    case GridSwitch => Square(rows)
    case _ => 0
  }

  /** NEXT_IMAGE_TIME after `load_settings`: StarWars keeps its class value, the others load theirs. */
  function PacingTime(mode: Mode, s: Settings): int
  {
    if mode == StarWars then 2800 else s.wait
  }

  /** EFFECT_TIME: loaded by RandomZoomIn, fixed for GridSwitch, unused by the others. */
  function EffectTime(mode: Mode, s: Settings): int
  {
    match mode
    case RandomZoomIn => s.effect
    case GridSwitch => GridEffectTime
    case _ => 0
  }

  /**
   * The `count` new image controls of `init_cycle_controls`, numbered from
   * `first`: each at (0, 0), of size 0 x 0, with no image and no animation.
   */
  function Blank(first: nat, count: nat): (r: seq<Control>)
    ensures |r| == count
    ensures forall j, k :: 0 <= j < k < count ==> r[j].id != r[k].id
    ensures forall k :: 0 <= k < count ==>
      first <= r[k].id < first + count && r[k].image == "" && r[k].width == 0 && r[k].height == 0 && r[k].effects == []
  {
    seq(count, k requires 0 <= k < count => Control(first + k, 0, 0, 0, 0, "", true, []))
  }

  /** The ids of the controls, in list order. */
  function Ids(s: seq<Control>): seq<nat>
  {
    seq(|s|, k requires 0 <= k < |s| => s[k].id)
  }

  /** The slot numbers 0 .. n - 1 that the control cycle walks. */
  function Slots(n: nat): seq<nat>
  {
    seq(n, k requires 0 <= k < n => k)
  }

  /**
   * The two `next()` calls of a pass: the control cycle first, then the url
   * cycle (whose draw process_image does not depend on).  With no controls
   * the control cycle raises StopIteration and the url cycle is not touched.
   */
  method NextPair(slotCycle: CycleGen<nat>, urlCycle: CycleGen<string>, ghost k: nat, ghost n: nat,
                  ghost urls: seq<string>)
      returns (slot: Option<nat>, url: string)
    requires slotCycle.Valid() && slotCycle.source == Slots(n) && slotCycle.emitted == k
    requires urlCycle.Valid() && urlCycle.source == urls && urls != [] && urlCycle.emitted == k + 1
    modifies slotCycle, urlCycle
    ensures slotCycle.Valid() && urlCycle.Valid()
    ensures slot.None? <==> n == 0
    ensures slot.None? ==> slotCycle.emitted == k && urlCycle.emitted == k + 1
    ensures slot.Some? ==>
      slot.value == k % n && url == CycleAt(urls, k + 1) && slotCycle.emitted == k + 1 && urlCycle.emitted == k + 2
  {
    slot := slotCycle.Next();
    url := "";
    if slot.Some? {
      var u := urlCycle.Next();
      url := u.value;
    }
  }

  datatype Outcome = Finished | Raised(error: Exception)

  class Screensaver {
    const mode: Mode
    const nextImageTime: int
    const effectTime: int
    const rows: int
    const controlCount: nat
    const fastImageCount: nat

    var exitRequested: bool
    var monitorAttached: bool        // exit_monitor is not None
    var imageCount: nat
    var controls: seq<Control>       // image_controls
    var window: seq<nat>             // the image controls added to the window, bottom to top
    var globalControls: bool         // preload, background and loading controls exist
    var preloaded: string            // the image of the preload control

    ghost predicate Valid()
      reads this
    {
      imageCount <= fastImageCount && (monitorAttached <==> !exitRequested)
    }

    /** `__init__` of the chosen class; `zooms` and `order` are the random draws of `stack_cycle_controls`. */
    constructor (m: Mode, s: Settings, zooms: seq<nat>, order: seq<nat>)
      requires |zooms| == ControlCount(m, s.rows) && forall k :: 0 <= k < |zooms| ==> zooms[k] <= 40
      requires DrawsFit(order, ControlCount(m, s.rows))
      ensures Valid() && mode == m && rows == s.rows
      ensures nextImageTime == PacingTime(m, s) && effectTime == EffectTime(m, s)
      ensures controlCount == ControlCount(m, s.rows) && fastImageCount == FastCount(m, s.rows)
      ensures !exitRequested && imageCount == 0 && globalControls && preloaded == ""
      ensures m == GridSwitch ==>
        window == Ids(Blank(0, controlCount)) &&
        controls == Shuffle(GridLayout(Blank(0, controlCount), rows), order)
      ensures m == AppleTVLike ==>
        var sorted := SortByWidth(DepthWidths(Blank(0, controlCount), zooms));
        window == Ids(sorted) && controls == Shuffle(sorted, order)
      ensures m != GridSwitch && m != AppleTVLike ==>
        window == Ids(Blank(0, controlCount)) && controls == Blank(0, controlCount)
    {
      mode := m;
      rows := s.rows;
      nextImageTime := PacingTime(m, s);
      effectTime := EffectTime(m, s);
      controlCount := ControlCount(m, s.rows);
      fastImageCount := FastCount(m, s.rows);
      exitRequested := false;
      monitorAttached := true;
      imageCount := 0;
      controls := [];
      window := [];
      globalControls := true;
      preloaded := "";
      new;
      InitCycleControls();
      assert controls == Blank(0, controlCount);
      if m == AppleTVLike {
        StackByDepth(zooms, order);
      } else {
        StackInOrder();
        if m == GridSwitch {
          LayoutGrid(order);
        }
      }
    }

    /** `init_cycle_controls`: append IMAGE_CONTROL_COUNT blank controls. */
    method InitCycleControls()
      modifies this
      ensures controls == old(controls) + Blank(|old(controls)|, controlCount)
      ensures window == old(window) && imageCount == old(imageCount) && preloaded == old(preloaded)
      ensures exitRequested == old(exitRequested) && monitorAttached == old(monitorAttached)
      ensures globalControls == old(globalControls)
    {
      var first := |controls|;
      var i := 0;
      while i < controlCount
        invariant 0 <= i <= controlCount
        invariant controls == old(controls) + Blank(first, i)
        invariant window == old(window) && imageCount == old(imageCount) && preloaded == old(preloaded)
        invariant exitRequested == old(exitRequested) && monitorAttached == old(monitorAttached)
        invariant globalControls == old(globalControls)
      {
        controls := controls + [Control(first + i, 0, 0, 0, 0, "", true, [])];
        i := i + 1;
        assert Blank(first, i) == Blank(first, i - 1) + [Control(first + i - 1, 0, 0, 0, 0, "", true, [])];
      }
    }

    /** The base `stack_cycle_controls`: add the controls to the window in list order, so later ones are in front. */
    method StackInOrder()
      modifies this
      ensures window == old(window) + Ids(controls)
      ensures controls == old(controls) && imageCount == old(imageCount) && preloaded == old(preloaded)
      ensures exitRequested == old(exitRequested) && monitorAttached == old(monitorAttached)
      ensures globalControls == old(globalControls)
    {
      window := window + Ids(controls);
    }

    /** GridSwitch's `stack_cycle_controls` after the base one: place control i on tile i, then shuffle the list. */
    method LayoutGrid(order: seq<nat>)
      requires rows != 0 || controls == []
      requires DrawsFit(order, |controls|)
      modifies this
      ensures controls == Shuffle(GridLayout(old(controls), rows), order)
      ensures window == old(window) && imageCount == old(imageCount) && preloaded == old(preloaded)
      ensures exitRequested == old(exitRequested) && monitorAttached == old(monitorAttached)
      ensures globalControls == old(globalControls)
    {
      ghost var laid := GridLayout(controls, rows);
      var i := 0;
      while i < |controls|
        invariant 0 <= i <= |controls| == |old(controls)|
        invariant forall k :: 0 <= k < i ==> controls[k] == laid[k]
        invariant forall k :: i <= k < |controls| ==> controls[k] == old(controls)[k]
        invariant window == old(window) && imageCount == old(imageCount) && preloaded == old(preloaded)
        invariant exitRequested == old(exitRequested) && monitorAttached == old(monitorAttached)
        invariant globalControls == old(globalControls)
      {
        var tile := GridTile(i, rows);
        controls := controls[i := controls[i].(x := tile.x, y := tile.y, width := tile.w, height := tile.h)];
        i := i + 1;
      }
      assert controls == laid;
      controls := Shuffle(controls, order);
    }

    /**
     * AppleTVLike's `stack_cycle_controls`: give every control the width of
     * its depth draw, add them to the window sorted by width (nearer, wider
     * ones in front), then shuffle the list.
     */
    method StackByDepth(zooms: seq<nat>, order: seq<nat>)
      requires |zooms| == |controls| && forall k :: 0 <= k < |zooms| ==> zooms[k] <= 40
      requires DrawsFit(order, |controls|)
      modifies this
      ensures var sorted := SortByWidth(DepthWidths(old(controls), zooms));
        window == old(window) + Ids(sorted) && controls == Shuffle(sorted, order)
      ensures imageCount == old(imageCount) && preloaded == old(preloaded)
      ensures exitRequested == old(exitRequested) && monitorAttached == old(monitorAttached)
      ensures globalControls == old(globalControls)
    {
      ghost var sized := DepthWidths(controls, zooms);
      var i := 0;
      while i < |controls|
        invariant 0 <= i <= |controls| == |old(controls)|
        invariant forall k :: 0 <= k < i ==> controls[k] == sized[k]
        invariant forall k :: i <= k < |controls| ==> controls[k] == old(controls)[k]
        invariant window == old(window) && imageCount == old(imageCount) && preloaded == old(preloaded)
        invariant exitRequested == old(exitRequested) && monitorAttached == old(monitorAttached)
        invariant globalControls == old(globalControls)
      {
        var zoom := zooms[i] + 10;
        var width := (ScreenWidth / 100) * zoom;
        controls := controls[i := controls[i].(width := width)];
        i := i + 1;
      }
      assert controls == sized;
      controls := SortByWidth(controls);
      window := window + Ids(controls);
      controls := Shuffle(controls, order);
    }

    /** `stop`: request the exit and drop the exit monitor; calling it again changes nothing. */
    method Stop()
      modifies this
      ensures exitRequested && !monitorAttached
      ensures controls == old(controls) && window == old(window) && imageCount == old(imageCount)
      ensures preloaded == old(preloaded) && globalControls == old(globalControls)
    {
      exitRequested := true;
      monitorAttached := false;
    }

    /** One read of `exit_requested`, after the host has had the chance to call `stop`. */
    method PollExit(host: seq<bool>, p: nat) returns (exit: bool, q: nat)
      requires Valid()
      modifies this
      ensures Valid()
      ensures q == p + 1 && exit == exitRequested
      ensures exitRequested == (old(exitRequested) || Signal(host, p))
      ensures controls == old(controls) && window == old(window) && imageCount == old(imageCount)
      ensures preloaded == old(preloaded) && globalControls == old(globalControls)
    {
      if Signal(host, p) {
        Stop();
      }
      exit := exitRequested;
      q := p + 1;
    }

    /**
     * `wait`: up to NEXT_IMAGE_TIME / 500 sleeps of 500 ms, checking
     * `exit_requested` before each one and returning as soon as it is set.
     * Starting at poll p it returns the sleeps done and the next poll.
     */
    method Wait(host: seq<bool>, p: nat) returns (slept: nat, q: nat)
      requires Valid()
      modifies this
      ensures Valid()
      ensures Pacing(slept, q, exitRequested) == Waited(old(exitRequested), host, p, 0, Chunks(nextImageTime))
      ensures controls == old(controls) && window == old(window) && imageCount == old(imageCount)
      ensures preloaded == old(preloaded) && globalControls == old(globalControls)
    {
      var chunks := Chunks(nextImageTime);
      slept, q := 0, p;
      var i := 0;
      while i < chunks
        invariant 0 <= i <= chunks && slept == i && q == p + i && Valid()
        invariant Waited(exitRequested, host, q, slept, chunks - i) == Waited(old(exitRequested), host, p, 0, chunks)
        invariant controls == old(controls) && window == old(window) && imageCount == old(imageCount)
        invariant preloaded == old(preloaded) && globalControls == old(globalControls)
      {
        var exit;
        exit, q := PollExit(host, q);
        if exit {
          return;
        }
        // xbmc.sleep(500)
        slept := slept + 1;
        i := i + 1;
      }
    }

    /** The constants the scheduler loop reads. */
    function Cfg(): Config
    {
      Config(mode, fastImageCount, effectTime, nextImageTime)
    }

    /** The loop state: these fields together with the poll count and the turns so far. */
    ghost function State(polls: nat, steps: seq<Step>): Run
      reads this
    {
      Run(controls, window, preloaded, imageCount, exitRequested, polls, steps)
    }

    /**
     * One pass of the loop body of `start_loop` and the loop test after it:
     * `process_image` of image `url` on control `slot` with the turn's random
     * values `d`, `preload_image(next)`, then count the turn while
     * `image_count < FAST_IMAGE_COUNT`, else `wait`.
     */
    method Turn(slot: nat, url: string, next: string, d: Draw, host: seq<bool>, polls: nat, steps: seq<Step>)
        returns (steps': seq<Step>, polls': nat, exit: bool)
      requires Valid() && slot < |controls| && DrawFits(mode, d) && 1 <= polls && !exitRequested
      modifies this
      ensures Valid()
      ensures State(polls', steps') == TurnSpec(Cfg(), old(State(polls, steps)), slot, url, next, d, host)
      ensures exit == exitRequested && polls < polls' && (exit || polls' <= |host|)
      ensures globalControls == old(globalControls)
    {
      ghost var r := State(polls, steps);
      var count := imageCount;
      var paint := Render(mode, controls[slot], url, imageCount, fastImageCount, effectTime, d);
      controls := controls[slot := paint.control];
      if Restacks(mode) {
        window := Restack(window, paint.control.id);
      }
      preloaded := next;
      var waited, slept, q := false, 0, polls;
      if imageCount < fastImageCount {
        imageCount := imageCount + 1;
      } else {
        waited := true;
        slept, q := Wait(host, polls);
        WaitedFacts(r.exit, host, r.polls, 0, Chunks(nextImageTime));
      }
      steps' := steps + [Step(slot, url, count, paint, next, waited, slept, polls - 1)];
      exit, polls' := PollExit(host, q);
    }

    /**
     * The turn of a pass, proved against the turns of the loop: from the
     * state after k turns, none stopped by the exit, it reaches the state
     * after k + 1 turns.
     */
    method Pass(slot: nat, url: string, next: string, draws: seq<Draw>, host: seq<bool>, polls: nat, steps: seq<Step>,
                ghost cfg: Config, ghost start: Run, ghost urls: seq<string>)
        returns (steps': seq<Step>, polls': nat, exit: bool)
      requires Valid() && !exitRequested && cfg == Cfg() && Ready(cfg, start, urls, draws) && |steps| < |draws|
      requires State(polls, steps) == Loop(cfg, start, urls, host, draws, |steps|) && Running(cfg, Timing(start), host, |steps|)
      requires slot == |steps| % |start.controls| && url == CycleAt(urls, |steps|) && next == CycleAt(urls, |steps| + 1)
      modifies this
      ensures Valid() && globalControls == old(globalControls) && |steps'| == |steps| + 1
      ensures State(polls', steps') == Loop(cfg, start, urls, host, draws, |steps| + 1)
      ensures Running(cfg, Timing(start), host, |steps| + 1)
      ensures exit == exitRequested && polls < polls' && (exit || polls' <= |host|)
    {
      Advance(cfg, start, urls, host, draws, |steps|, State(polls, steps), slot, url, next);
      steps', polls', exit := Turn(slot, url, next, draws[|steps|], host, polls, steps);
    }

    /**
     * The while loop of `start_loop`, entered after the first loop test
     * (`polls` reads so far) with the first url drawn: passes until a loop
     * test sees the exit requested, or the control cycle raises.
     */
    method RunLoop(urlCycle: CycleGen<string>, slotCycle: CycleGen<nat>, first: string, draws: seq<Draw>,
                   host: seq<bool>, polls: nat, ghost cfg: Config, ghost start: Run, ghost urls: seq<string>)
        returns (outcome: Outcome, steps: seq<Step>, polls': nat)
      requires Valid() && urlCycle.Valid() && slotCycle.Valid() && cfg == Cfg()
      requires urls != [] && first == CycleAt(urls, 0)
      requires urlCycle.source == urls && urlCycle.emitted == 1
      requires slotCycle.source == Slots(|start.controls|) && slotCycle.emitted == 0
      requires State(polls, []) == start && 1 <= polls && (exitRequested || polls <= |host|)
      requires |start.controls| > 0 ==> Ready(cfg, start, urls, draws)
      requires |host| <= |draws|
      modifies this, urlCycle, slotCycle
      ensures Valid() && |steps| <= |host| && globalControls == old(globalControls)
      ensures outcome.Raised? <==> |start.controls| == 0 && !start.exit
      ensures outcome.Raised? ==> outcome.error == StopIteration && steps == []
      ensures |start.controls| == 0 ==> steps == []
      ensures steps == [] ==> State(polls', steps) == start
      ensures |start.controls| > 0 ==>
        State(polls', steps) == Loop(cfg, start, urls, host, draws, |steps|) &&
        (outcome == Finished ==> Running(cfg, Timing(start), host, |steps|))
      ensures outcome == Finished ==> exitRequested
    {
      steps, polls' := [], polls;
      var url, exit := first, exitRequested;
      while !exit
        invariant Valid() && urlCycle.Valid() && urlCycle.emitted == |steps| + 1
        invariant slotCycle.Valid() && slotCycle.emitted == |steps|
        invariant url == CycleAt(urls, |steps|)
        invariant exit == exitRequested && |steps| < polls' && |steps| <= |host| && (exit || polls' <= |host|)
        invariant steps == [] ==> State(polls', steps) == start
        invariant steps != [] ==> |start.controls| > 0
        invariant |start.controls| > 0 ==>
          State(polls', steps) == Loop(cfg, start, urls, host, draws, |steps|) &&
          Running(cfg, Timing(start), host, |steps|)
        invariant globalControls == old(globalControls)
        decreases |host| + 1 - polls'
      {
        var drawn, next := NextPair(slotCycle, urlCycle, |steps|, |start.controls|, urls);
        if drawn.None? {
          return Raised(StopIteration), steps, polls';
        }
        steps, polls', exit := Pass(drawn.value, url, next, draws, host, polls', steps, cfg, start, urls);
        url := next;
      }
      outcome := Finished;
    }

    /**
     * `start_loop` on the images `get_images` returned: shuffle them (draws
     * `order`), then until the exit is requested run turns of the loop (the
     * random values of turn j are `draws[j]`).  `steps` records the turns and
     * `polls` the reads of `exit_requested` made.
     */
    method StartLoop(images: seq<string>, order: seq<nat>, draws: seq<Draw>, host: seq<bool>)
        returns (outcome: Outcome, steps: seq<Step>, polls: nat)
      requires Valid() && DrawsFit(order, |images|)
      requires |host| <= |draws| && forall k :: 0 <= k < |draws| ==> DrawFits(mode, draws[k])
      modifies this
      ensures Valid() && |steps| <= |host|
      // a cycle that has nothing to yield raises StopIteration; nothing else is raised
      ensures outcome.Raised? <==>
        (images == [] || (|old(controls)| == 0 && !old(exitRequested) && !Signal(host, 0)))
      ensures outcome.Raised? ==> outcome.error == StopIteration && steps == []
      ensures steps == [] ==> controls == old(controls) && window == old(window) && imageCount == old(imageCount)
      ensures steps == [] ==> preloaded == old(preloaded)
      ensures |old(controls)| == 0 ==> steps == []
      ensures images == [] ==> exitRequested == old(exitRequested)
      ensures outcome.Raised? ==> exitRequested == old(exitRequested) && monitorAttached == old(monitorAttached)
      // the state after the turns is the one the turns prescribe ...
      ensures images != [] && |old(controls)| > 0 ==>
        var start := old(State(1, [])).(exit := old(exitRequested) || Signal(host, 0));
        State(polls, steps) == Loop(Cfg(), start, Shuffle(images, order), host, draws, |steps|) &&
        // ... and the loop stopped at the first turn that ended with the exit requested
        (outcome == Finished ==>
           exitRequested && Running(Cfg(), Timing(start), host, |steps|))
      ensures outcome == Finished ==> exitRequested
      ensures globalControls == old(globalControls)
    {
      ghost var start := State(1, []);
      var urls := Shuffle(images, order);
      var urlCycle := new CycleGen(urls);
      var slotCycle := new CycleGen(Slots(|controls|));
      steps, polls := [], 0;
      var first := urlCycle.Next();
      if first.None? {
        outcome := Raised(StopIteration);
        return;
      }
      var url := first.value;
      var exit;
      exit, polls := PollExit(host, 0);
      start := start.(exit := exitRequested);
      outcome, steps, polls := RunLoop(urlCycle, slotCycle, url, draws, host, polls, Cfg(), start, urls);
    }

    /** `del_controls`: take every control out of the window and forget them, the preload control included. */
    method DelControls()
      modifies this
      ensures controls == [] && window == [] && !globalControls && preloaded == ""
      ensures exitRequested == old(exitRequested) && monitorAttached == old(monitorAttached)
      ensures imageCount == old(imageCount)
    {
      window := [];
      controls := [];
      globalControls := false;
      preloaded := "";
    }
  }
}
