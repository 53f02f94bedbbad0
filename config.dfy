/** Fixed configuration of the simulation core. All durations are in seconds. */
module SimConfig {
  /** Largest slice of real time one iteration may hand to the accumulator. */
  const MAX_DT_SECONDS: real := 0.05
  /** The simulation tick: every state evolution advances by exactly this much. */
  const FIXED_DT_SECONDS: real := 0.01
  /** Hard cap on fixed steps per real-time iteration (anti-spiral-of-death). */
  const MAX_SIMULATION_STEPS_PER_FRAME: nat := 5
  /** Capacity of the command channel. */
  const MAX_COMMAND_QUEUE_SIZE: nat := 32
  /** Commands drained and applied before each fixed step. */
  const MAX_COMMANDS_PER_STEP: nat := 4
}
