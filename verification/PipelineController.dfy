/**
 The adaptive pipeline depth controller: slow start, additive increase and
 multiplicative decrease, with `real` standing for the program's `Double`.
 */
module Pipeline {
  import opened Common

  datatype Phase = SlowStart | Steady

  /** The value of a controller: what its fields hold between two calls. */
  datatype Control = Control(depth: real, ssthresh: real, phase: Phase, minDepth: int, maxDepth: int)

  const DEFAULT_DEPTH := 2.0
  const DEFAULT_SSTHRESH := 16.0
  const DEFAULT_MIN_DEPTH := 1
  const DEFAULT_MAX_DEPTH := 32

  function Default(): Control {
    Control(DEFAULT_DEPTH, DEFAULT_SSTHRESH, SlowStart, DEFAULT_MIN_DEPTH, DEFAULT_MAX_DEPTH)
  }

  /** Conversion of a `Double` to an `Int`: truncation toward zero. */
  function Truncate(r: real): int {
    if r >= 0.0 then r.Floor else -(-r).Floor
  }

  function IntegerDepth(c: Control): int {
    Max(c.minDepth, Min(Truncate(c.depth), c.maxDepth))
  }

  /** The additive increase, clamped; 1/0 is the floating-point infinity, which the clamp turns into the maximum. */
  function Increase(depth: real, maxDepth: int): real {
    if depth == 0.0 then maxDepth as real else RealMin(depth + 1.0 / depth, maxDepth as real)
  }

  function Succeeded(c: Control): Control {
    match c.phase
    case SlowStart =>
      var doubled := c.depth * 2.0;
      c.(depth := RealMin(doubled, c.maxDepth as real),
         phase := if doubled >= c.ssthresh then Steady else SlowStart)
    case Steady =>
      c.(depth := Increase(c.depth, c.maxDepth))
  }

  function Failed(c: Control): Control {
    var halved := RealMax(c.minDepth as real, c.depth / 2.0);
    c.(depth := halved, ssthresh := halved, phase := Steady)
  }

  function Restarted(c: Control): Control {
    c.(depth := DEFAULT_DEPTH, ssthresh := DEFAULT_SSTHRESH, phase := SlowStart)
  }

  function Record(c: Control, success: bool): Control {
    if success then Succeeded(c) else Failed(c)
  }

  /** The controller after a whole history of outcomes, oldest first. */
  function Replay(c: Control, outcomes: seq<bool>): Control
    decreases |outcomes|
  {
    if outcomes == [] then c else Replay(Record(c, outcomes[0]), outcomes[1..])
  }

  /** `k` equal outcomes in a row. */
  function Repeat(c: Control, success: bool, k: nat): Control {
    if k == 0 then c else Record(Repeat(c, success, k - 1), success)
  }

  /** The depth lies between sensible bounds. */
  predicate InRange(c: Control) {
    1 <= c.minDepth <= c.maxDepth && c.minDepth as real <= c.depth <= c.maxDepth as real
  }

  class PipelineController {
    var depth: real
    var ssthresh: real
    var phase: Phase
    const minDepth: int
    const maxDepth: int

    ghost function View(): Control
      reads this
    {
      Control(depth, ssthresh, phase, minDepth, maxDepth)
    }

    constructor (depth: real := DEFAULT_DEPTH, ssthresh: real := DEFAULT_SSTHRESH, phase: Phase := SlowStart,
                 minDepth: int := DEFAULT_MIN_DEPTH, maxDepth: int := DEFAULT_MAX_DEPTH)
      ensures View() == Control(depth, ssthresh, phase, minDepth, maxDepth)
    {
      this.depth := depth;
      this.ssthresh := ssthresh;
      this.phase := phase;
      this.minDepth := minDepth;
      this.maxDepth := maxDepth;
    }

    method EffectiveDepth() returns (d: int)
      ensures d == IntegerDepth(View())
      ensures minDepth <= maxDepth ==> minDepth <= d <= maxDepth
    {
      d := Max(minDepth, Min(Truncate(depth), maxDepth));
    }

    method RecordSuccess()
      modifies this
      ensures View() == Succeeded(old(View()))
    {
      match phase {
        case SlowStart =>
          depth := depth * 2.0;
          if depth >= ssthresh {
            phase := Steady;
          }
        case Steady =>
          depth := if depth == 0.0 then maxDepth as real else depth + 1.0 / depth;
      }
      depth := RealMin(depth, maxDepth as real);
    }

    method RecordFailure()
      modifies this
      ensures View() == Failed(old(View()))
    {
      ssthresh := RealMax(minDepth as real, depth / 2.0);
      depth := RealMax(minDepth as real, depth / 2.0);
      phase := Steady;
    }

    method Reset()
      modifies this
      ensures View() == Restarted(old(View()))
    {
      depth := DEFAULT_DEPTH;
      ssthresh := DEFAULT_SSTHRESH;
      phase := SlowStart;
    }
  }
}
