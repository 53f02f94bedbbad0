/** Commands, the physical state, and the per-tick rules that evolve it. */
module StateModel {

  datatype CommandType = Accelerate | Stop

  /** A small, time-agnostic intent; `value` is the acceleration magnitude. */
  datatype Command = Command(kind: CommandType, value: real)

  datatype SystemState = SystemState(position: real, velocity: real, valid: bool)

  /** The state invariant: a valid state never has a negative position. */
  predicate Physical(s: SystemState) {
    s.valid ==> s.position >= 0.0
  }

  /** Velocity-only effect of one command; an invalid state ignores commands. */
  function ApplyCommand(s: SystemState, cmd: Command): (r: SystemState)
    ensures r.position == s.position && r.valid == s.valid
    ensures !s.valid ==> r == s
    ensures s.valid && cmd.kind == Accelerate ==> r.velocity == s.velocity + cmd.value
    ensures s.valid && cmd.kind == Stop ==> r.velocity == 0.0
    ensures Physical(r) <==> Physical(s)
  {
    if !s.valid then s
    else
      match cmd.kind
      case Accelerate => s.(velocity := s.velocity + cmd.value)
      case Stop => s.(velocity := 0.0)
  }

  /** First-order Euler step; a negative position is a terminal fault. */
  function UpdateSystem(s: SystemState, dtSeconds: real): (r: SystemState)
    ensures !s.valid ==> r == s
    ensures s.valid && s.position + s.velocity * dtSeconds >= 0.0 ==>
              r == SystemState(s.position + s.velocity * dtSeconds, s.velocity, true)
    ensures s.valid && s.position + s.velocity * dtSeconds < 0.0 ==>
              r == SystemState(0.0, 0.0, false)
    ensures s.valid ==> r.position >= 0.0
    ensures Physical(s) ==> Physical(r)
  {
    if !s.valid then s
    else
      var p := s.position + s.velocity * dtSeconds;
      if p < 0.0 then SystemState(0.0, 0.0, false) else SystemState(p, s.velocity, true)
  }

  /** The commands `cmds` applied one after another, front first (FIFO order). */
  function ApplyAll(s: SystemState, cmds: seq<Command>): (r: SystemState)
    ensures r.position == s.position && r.valid == s.valid
    ensures !s.valid ==> r == s
    ensures Physical(r) <==> Physical(s)
    decreases |cmds|
  {
    if cmds == [] then s else ApplyAll(ApplyCommand(s, cmds[0]), cmds[1..])
  }

  /** Applying one more command at the back is applying it to the state reached so far. */
  lemma {:induction false} ApplyAllSnoc(s: SystemState, cmds: seq<Command>, c: Command)
    ensures ApplyAll(s, cmds + [c]) == ApplyCommand(ApplyAll(s, cmds), c)
    decreases |cmds|
  {
    if cmds == [] {
      assert cmds + [c] == [c];
      assert [c][1..] == [];
    } else {
      assert (cmds + [c])[0] == cmds[0];
      assert (cmds + [c])[1..] == cmds[1..] + [c];
      ApplyAllSnoc(ApplyCommand(s, cmds[0]), cmds[1..], c);
    }
  }

  /** A batch splits into two batches applied in order. */
  lemma {:induction false} ApplyAllConcat(s: SystemState, a: seq<Command>, b: seq<Command>)
    ensures ApplyAll(s, a + b) == ApplyAll(ApplyAll(s, a), b)
    decreases |a|
  {
    if a == [] {
      assert a + b == b;
    } else {
      assert (a + b)[0] == a[0];
      assert (a + b)[1..] == a[1..] + b;
      ApplyAllConcat(ApplyCommand(s, a[0]), a[1..], b);
    }
  }

  /** A Stop anywhere in a batch erases every acceleration before it. */
  lemma {:induction false} StopResetsVelocity(s: SystemState, before: seq<Command>, v: real, after: seq<Command>)
    requires s.valid
    ensures ApplyAll(s, before + [Command(Stop, v)] + after) == ApplyAll(s.(velocity := 0.0), after)
  {
    ApplyAllConcat(s, before + [Command(Stop, v)], after);
    ApplyAllSnoc(s, before, Command(Stop, v));
  }

  /** Once invalid, no number of ticks or commands changes the state. */
  lemma FrozenWhenInvalid(s: SystemState, cmds: seq<Command>, dtSeconds: real)
    requires !s.valid
    ensures UpdateSystem(ApplyAll(s, cmds), dtSeconds) == s
  {
  }

  /** A forward Euler step from position 0, and a step that drives the position negative. */
  lemma EvolveScenarios()
    ensures UpdateSystem(SystemState(0.0, 1.0, true), 0.01) == SystemState(0.01, 1.0, true)
    ensures UpdateSystem(SystemState(0.0, -5.0, true), 0.01) == SystemState(0.0, 0.0, false)
  {
  }
}
