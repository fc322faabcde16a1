/**
 The cool-off gate that limits how often a reactive fleet policy may fire
 (cooloff.js). A gate is open (`ready`) or counting down; `Fire` succeeds
 only on an open gate and closes it for `limit` ticks.
 */
module Cooloff {

  datatype Gate = Gate(limit: int, count: int, ready: bool)

  datatype Fired = Fired(ok: bool, gate: Gate)

  /** The shape every gate keeps while its limit is at least one: the gate is open exactly
      when the countdown has reached zero. */
  predicate Valid(g: Gate) {
    g.limit >= 1 && g.count >= 0 && (g.ready <==> g.count == 0)
  }

  /** A freshly constructed gate: open, nothing counted. */
  function New(limit: int): (g: Gate)
    ensures g.ready && g.count == 0 && g.limit == limit
    ensures limit >= 1 ==> Valid(g)
  {
    Gate(limit, 0, true)
  }

  /** One step of the countdown; reaching zero (or below) clamps at zero and reopens. */
  function Tick(g: Gate): (r: Gate)
    ensures r.limit == g.limit
    ensures r.count >= 0
    ensures g.count >= 1 ==> r.count == g.count - 1
    ensures g.count <= 1 ==> r.count == 0 && r.ready
    ensures g.count > 1 ==> r.ready == g.ready
    ensures Valid(g) ==> Valid(r)
  {
    var c := g.count - 1;
    if c <= 0 then g.(count := 0, ready := true) else g.(count := c)
  }

  /** Try to pass the gate: an open gate lets the caller through and starts a countdown of
      `limit` ticks; a closed one refuses and is left exactly as it was. */
  function Fire(g: Gate): (r: Fired)
    ensures r.ok <==> g.ready
    ensures r.ok ==> r.gate == Gate(g.limit, g.limit, false)
    ensures !r.ok ==> r.gate == g
    ensures Valid(g) ==> Valid(r.gate)
  {
    if g.ready then Fired(true, g.(ready := false, count := g.limit)) else Fired(false, g)
  }

  lemma NewGateFiresOnce(limit: int)
    requires limit >= 1
    ensures Fire(New(limit)).ok
    ensures !Fire(Fire(New(limit)).gate).ok
  {
  }

  // -----------------------------------------------------------------------
  // Interleavings of ticks and fire attempts

  datatype Op = TickOp | FireOp

  datatype Trace = Trace(gate: Gate, results: seq<bool>)

  /** Apply `ops` in order; `results` holds the answer of each fire attempt. */
  function Run(g: Gate, ops: seq<Op>): Trace
    decreases |ops|
  {
    if |ops| == 0 then Trace(g, [])
    else if ops[0] == TickOp then Run(Tick(g), ops[1..])
    else
      var f := Fire(g);
      var rest := Run(f.gate, ops[1..]);
      Trace(rest.gate, [f.ok] + rest.results)
  }

  function TickCount(ops: seq<Op>): nat {
    if |ops| == 0 then 0 else (if ops[0] == TickOp then 1 else 0) + TickCount(ops[1..])
  }

  predicate NoneTrue(results: seq<bool>) {
    forall k :: 0 <= k < |results| ==> !results[k]
  }

  /** A closed gate with `c` ticks to go refuses every attempt while fewer than `c` ticks
      happen, and its countdown goes down by exactly the number of ticks. */
  lemma {:induction false} RefusedWhileCounting(g: Gate, ops: seq<Op>)
    requires Valid(g) && !g.ready
    requires TickCount(ops) < g.count
    ensures NoneTrue(Run(g, ops).results)
    ensures Run(g, ops).gate == g.(count := g.count - TickCount(ops))
    decreases |ops|
  {
    if |ops| > 0 {
      if ops[0] == TickOp {
        RefusedWhileCounting(Tick(g), ops[1..]);
      } else {
        RefusedWhileCounting(g, ops[1..]);
      }
    }
  }

  /** Once the last of the `c` outstanding ticks has happened the gate is open again,
      whatever fire attempts were made in between (all of which were refused). */
  lemma {:induction false} OpenAfterCounting(g: Gate, ops: seq<Op>)
    requires Valid(g) && !g.ready
    requires |ops| > 0 && ops[|ops| - 1] == TickOp
    requires TickCount(ops) == g.count
    ensures NoneTrue(Run(g, ops).results)
    ensures Run(g, ops).gate.ready && Run(g, ops).gate.count == 0
    decreases |ops|
  {
    if ops[0] == TickOp {
      if |ops| > 1 {
        EndingInTickCounts(ops[1..]);
        OpenAfterCounting(Tick(g), ops[1..]);
      }
    } else {
      OpenAfterCounting(g, ops[1..]);
    }
  }

  lemma EndingInTickCounts(ops: seq<Op>)
    requires |ops| > 0 && ops[|ops| - 1] == TickOp
    ensures TickCount(ops) >= 1
  {
  }

  /** The exact re-arm property: after a successful fire on a gate with limit L, every
      attempt fails until exactly L ticks have elapsed, and the first attempt after the L-th
      tick succeeds. */
  lemma ExactRearm(g: Gate, ops: seq<Op>)
    requires Valid(g) && g.ready
    ensures var closed := Fire(g).gate;
      && (TickCount(ops) < g.limit ==>
            NoneTrue(Run(closed, ops).results) && !Run(closed, ops).gate.ready)
      && (TickCount(ops) == g.limit && |ops| > 0 && ops[|ops| - 1] == TickOp ==>
            NoneTrue(Run(closed, ops).results) && Fire(Run(closed, ops).gate).ok)
  {
    var closed := Fire(g).gate;
    if TickCount(ops) < g.limit {
      RefusedWhileCounting(closed, ops);
    }
    if TickCount(ops) == g.limit && |ops| > 0 && ops[|ops| - 1] == TickOp {
      OpenAfterCounting(closed, ops);
    }
  }
}
