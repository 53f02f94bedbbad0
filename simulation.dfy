/**
 * The simulation engine: the command channel and the frame controller's
 * long-lived state, updated in place once per real-time iteration.
 */
module Simulation {
  import opened SimConfig
  import opened StateModel
  import opened Interpolation
  import opened FrameSpec

  class Engine {
    var current: SystemState
    var previous: SystemState
    var lastTickMs: int
    var accumulator: real
    /** The command channel, oldest command first. */
    var queue: seq<Command>

    /** The engine's state as a value. */
    function Snapshot(): Frame
      reads this
    {
      Frame(current, previous, lastTickMs, accumulator, queue)
    }

    /** Bounded channel, accumulator below one tick, physical states. */
    ghost predicate Valid()
      reads this
    {
      && |queue| <= MAX_COMMAND_QUEUE_SIZE
      && 0.0 <= accumulator < FIXED_DT_SECONDS
      && Physical(current)
      && Physical(previous)
    }

    /** Starts at rest-position 0 moving at 1.0, with the clock read at `startMs`. */
    constructor (startMs: int)
      ensures Valid()
      ensures Snapshot() == Frame(SystemState(0.0, 1.0, true), SystemState(0.0, 1.0, true), startMs, 0.0, [])
    {
      current := SystemState(0.0, 1.0, true);
      previous := current;
      lastTickMs := startMs;
      accumulator := 0.0;
      queue := [];
    }

    /** Offers a command to the channel; a full channel refuses it. */
    method EnqueueCommand(cmd: Command) returns (accepted: bool)
      modifies this
      ensures accepted <==> |old(queue)| < MAX_COMMAND_QUEUE_SIZE
      ensures queue == if accepted then old(queue) + [cmd] else old(queue)
      ensures queue == Offer(old(queue), cmd)
      ensures current == old(current) && previous == old(previous)
      ensures lastTickMs == old(lastTickMs) && accumulator == old(accumulator)
      ensures old(Valid()) ==> Valid()
    {
      if |queue| >= MAX_COMMAND_QUEUE_SIZE {
        return false;
      }
      queue := queue + [cmd];
      return true;
    }

    /**
     * One fixed step: snapshot, drain at most four commands from the front,
     * evolve by FIXED_DT_SECONDS, spend one tick.
     */
    method RunFixedStep()
      modifies this
      ensures Snapshot() == FixedStep(old(Snapshot()))
    {
      previous := current;
      ghost var start, pending := current, queue;
      var processed := 0;
      while queue != [] && processed < MAX_COMMANDS_PER_STEP
        invariant processed <= MAX_COMMANDS_PER_STEP && processed <= |pending|
        invariant queue == pending[processed..]
        invariant current == ApplyAll(start, pending[..processed])
        invariant previous == start
        invariant lastTickMs == old(lastTickMs) && accumulator == old(accumulator)
        decreases |queue|
      {
        ApplyAllSnoc(start, pending[..processed], queue[0]);
        assert pending[..processed] + [queue[0]] == pending[..processed + 1];
        current := ApplyCommand(current, queue[0]);
        queue := queue[1..];
        processed := processed + 1;
      }
      assert processed == DrainCount(pending);
      current := UpdateSystem(current, FIXED_DT_SECONDS);
      accumulator := accumulator - FIXED_DT_SECONDS;
    }

    /**
     * The fixed-step loop: step while a whole tick is banked, at most
     * MAX_SIMULATION_STEPS_PER_FRAME times.
     */
    method RunStepLoop() returns (steps: nat)
      modifies this
      ensures steps == StepCount(old(accumulator), 0)
      ensures Snapshot() == Steps(old(Snapshot()), steps)
    {
      ghost var start := Snapshot();
      steps := 0;
      while accumulator >= FIXED_DT_SECONDS && steps < MAX_SIMULATION_STEPS_PER_FRAME
        invariant steps <= MAX_SIMULATION_STEPS_PER_FRAME
        invariant Snapshot() == Steps(start, steps)
        invariant StepCount(accumulator, steps) == StepCount(start.accumulator, 0)
        decreases MAX_SIMULATION_STEPS_PER_FRAME - steps
      {
        ghost var before := Snapshot();
        RunFixedStep();
        assert Snapshot() == FixedStep(before);
        steps := steps + 1;
      }
    }

    /**
     * Measures the time since the last iteration, moves the temporal anchor to
     * `nowMs` and banks the elapsed time, clamped to MAX_DT_SECONDS.
     */
    method MeasureAndBank(nowMs: int) returns (dtMs: int)
      modifies this
      ensures dtMs == nowMs - old(lastTickMs)
      ensures Snapshot() == Bank(old(Snapshot()), nowMs)
    {
      dtMs := nowMs - lastTickMs;
      lastTickMs := nowMs;
      var dtSeconds := dtMs as real / 1000.0;
      if dtSeconds > MAX_DT_SECONDS {
        dtSeconds := MAX_DT_SECONDS;
      }
      accumulator := accumulator + dtSeconds;
    }

    /**
     * One real-time iteration at clock reading `nowMs`: returns the elapsed
     * milliseconds, the number of fixed steps run and the display state.
     */
    method AdvanceOneIteration(nowMs: int) returns (dtMs: int, steps: nat, display: SystemState)
      requires Valid()
      requires lastTickMs <= nowMs
      modifies this
      ensures Valid()
      ensures Iteration(Snapshot(), dtMs, steps, display) == Advance(old(Snapshot()), nowMs)
    {
      ghost var f := Snapshot();
      dtMs := MeasureAndBank(nowMs);
      ghost var banked := Snapshot();
      steps := RunStepLoop();
      assert steps == StepCount(banked.accumulator, 0);
      ghost var loop := Snapshot();
      if steps == MAX_SIMULATION_STEPS_PER_FRAME {
        accumulator := 0.0;
      }
      assert Snapshot() == Settle(loop, steps);
      var alpha := accumulator / FIXED_DT_SECONDS;
      display := InterpolateState(previous, current, alpha);
    }

    /** The simulated input burst: ten Accelerate(0.1) commands offered to the channel in turn. */
    method InputBurst()
      modifies this
      ensures queue == Admit(old(queue), BurstCommands())
      ensures current == old(current) && previous == old(previous)
      ensures lastTickMs == old(lastTickMs) && accumulator == old(accumulator)
      ensures old(Valid()) ==> Valid()
    {
      var burst := BurstCommands();
      for i := 0 to |burst|
        invariant Admit(queue, burst[i..]) == Admit(old(queue), burst)
        invariant current == old(current) && previous == old(previous)
        invariant lastTickMs == old(lastTickMs) && accumulator == old(accumulator)
        invariant old(Valid()) ==> Valid()
      {
        assert burst[i..][1..] == burst[i + 1..];
        var accepted := EnqueueCommand(burst[i]);
      }
    }

    /**
     * One pass of the main loop at clock reading `nowMs`: the real-time
     * iteration followed by the input burst. The display state does not read
     * the channel, so it is the same whether taken before or after the burst.
     */
    method RunIteration(nowMs: int) returns (dtMs: int, steps: nat, display: SystemState)
      requires Valid()
      requires lastTickMs <= nowMs
      modifies this
      ensures Valid()
      ensures var it := Advance(old(Snapshot()), nowMs);
        && dtMs == it.dtMs && steps == it.steps && display == it.display
        && Snapshot() == it.frame.(queue := Admit(it.frame.queue, BurstCommands()))
    {
      dtMs, steps, display := AdvanceOneIteration(nowMs);
      InputBurst();
    }
  }

  /** Thirty-two commands fill the channel; the thirty-third is refused. */
  method FullQueueScenario() returns (accepted: bool, length: nat)
    ensures !accepted && length == MAX_COMMAND_QUEUE_SIZE
  {
    var engine := new Engine(0);
    for i := 0 to MAX_COMMAND_QUEUE_SIZE
      invariant |engine.queue| == i
    {
      var ok := engine.EnqueueCommand(Command(Accelerate, 0.1));
    }
    accepted := engine.EnqueueCommand(Command(Accelerate, 0.1));
    length := |engine.queue|;
  }

  /** A 200 ms stall runs exactly the capped 5 steps and keeps no backlog. */
  method StallScenario() returns (steps: nat, accumulator: real)
    ensures steps == MAX_SIMULATION_STEPS_PER_FRAME && accumulator == 0.0
  {
    var engine := new Engine(0);
    ghost var f := engine.Snapshot();
    var dtMs, display;
    dtMs, steps, display := engine.AdvanceOneIteration(200);
    AdvanceLongDelta(f, 200);
    accumulator := engine.accumulator;
  }

  /**
   * main.cpp's main loop: a burst of ten Accelerate(0.1)
   * commands, then an iteration 16 ms later. One step runs, it applies the
   * four oldest commands, and six wait.
   */
  method BurstScenario() returns (steps: nat, waiting: nat, velocity: real)
    ensures steps == 1 && waiting == 6 && velocity == 1.4
  {
    var engine := new Engine(0);
    engine.InputBurst();
    assert engine.queue == BurstCommands();
    var dtMs, display;
    dtMs, steps, display := engine.AdvanceOneIteration(16);
    BurstIteration();
    waiting := |engine.queue|;
    velocity := engine.current.velocity;
  }
}
