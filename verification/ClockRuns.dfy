/** Time and refused calls over whole runs of the coordinator, told by the calls alone. */
module ClockRuns {
  import opened Prelude
  import opened Coordination

  /** The clock after a run: all the time that was let pass, up to the last value. */
  function Clock(calls: seq<Call>): (now: u64) {
    if calls == [] then 0
    else
      var before := Clock(calls[..|calls| - 1]);
      match calls[|calls| - 1]
      case CallAdvance(seconds) => if before + seconds < U64_MAX then before + seconds else U64_MAX
      case _ => before
  }

  lemma ClockStep(s: State, c: Call)
    ensures Exec(s, c).state.now == if c.CallAdvance? then SaturatingAdd(s.now, c.seconds) else s.now
  {
  }

  lemma {:induction false} ClockIsTheTimePassed(calls: seq<Call>)
    ensures Run(INITIAL, calls).now == Clock(calls)
  {
    hide Exec;
    if calls != [] {
      ClockIsTheTimePassed(calls[..|calls| - 1]);
      ClockStep(Run(INITIAL, calls[..|calls| - 1]), calls[|calls| - 1]);
    }
  }
}
