/**
 The probing of neighbours in `TTBroadcasterDiscovery`
 (engine/src/TTBroadcasterDiscovery.cpp:92-186): the trial counters against the history of
 what was tried.
 */
module Discovery {

  const INACTIVITY_TRIALS: nat := 5
  const DISCOVERY_TRIALS: nat := 3

  /** Outcome of one heartbeat probe: no stub, an answer with an identity, or anything else. */
  datatype Probe = NoStub | Answered | Silent

  /** A dynamic neighbour and the probes made since it was created. */
  datatype Dynamic = Dynamic(trials: nat, probes: seq<Probe>)

  const NEWCOMER := Dynamic(INACTIVITY_TRIALS, [])

  /** The body of the loop for an expired timer: a success tops the counter up before it is decremented. */
  function Probed(d: Dynamic, p: Probe): Dynamic
  {
    if d.trials == 0 then d
    else
      var topped := if p == Answered then INACTIVITY_TRIALS + 1 else d.trials;
      Dynamic(topped - 1, d.probes + [p])
  }

  /** Unsuccessful probes since the last successful one, or since creation. */
  function Misses(probes: seq<Probe>): nat
  {
    if probes == [] || probes[|probes| - 1] == Answered then 0 else 1 + Misses(probes[..|probes| - 1])
  }

  ghost predicate DynamicInv(d: Dynamic)
  {
    d.trials + Misses(d.probes) == INACTIVITY_TRIALS
  }

  lemma ProbedKeepsInv(d: Dynamic, p: Probe)
    requires DynamicInv(d)
    ensures DynamicInv(Probed(d, p))
    ensures |Probed(d, p).probes| > |d.probes| <==> Misses(d.probes) < INACTIVITY_TRIALS
  {
    if d.trials > 0 {
      assert (d.probes + [p])[..|d.probes|] == d.probes;
    }
  }

  function ProbeAll(d: Dynamic, probes: seq<Probe>): Dynamic
  {
    if probes == [] then d else Probed(ProbeAll(d, probes[..|probes| - 1]), probes[|probes| - 1])
  }

  /**
   Over any sequence of opportunities to probe, the counter is five minus the misses in a row,
   and after exactly five misses in a row probing has stopped for good.
   */
  lemma {:induction false} TrialsCountMisses(opportunities: seq<Probe>, later: seq<Probe>)
    ensures var d := ProbeAll(NEWCOMER, opportunities);
            && d.trials == INACTIVITY_TRIALS - Misses(d.probes)
            && (Misses(d.probes) == INACTIVITY_TRIALS ==> ProbeAll(d, later) == d)
    decreases |opportunities| + |later|
  {
    if opportunities != [] {
      TrialsCountMisses(opportunities[..|opportunities| - 1], []);
      ProbedKeepsInv(ProbeAll(NEWCOMER, opportunities[..|opportunities| - 1]), opportunities[|opportunities| - 1]);
    }
    var d := ProbeAll(NEWCOMER, opportunities);
    if d.trials == 0 { ExhaustedStays(d, later); }
  }

  lemma {:induction false} ExhaustedStays(d: Dynamic, later: seq<Probe>)
    requires d.trials == 0
    ensures ProbeAll(d, later) == d
  {
    if later != [] { ExhaustedStays(d, later[..|later| - 1]); }
  }

  // ------------------------------------------------------------------ static

  /** Outcome of one attempt to greet: no stub, refused (or incomplete), or added. */
  datatype Greeting = NoGreet | Refused | Welcomed

  datatype Static = Static(trials: nat, attempts: seq<Greeting>)

  const UNTRIED := Static(DISCOVERY_TRIALS, [])

  function Greeted(s: Static, g: Greeting): Static
  {
    if s.trials == 0 then s
    else Static(if g == Welcomed then 0 else s.trials - 1, s.attempts + [g])
  }

  function GreetAll(s: Static, greetings: seq<Greeting>): Static
  {
    if greetings == [] then s else Greeted(GreetAll(s, greetings[..|greetings| - 1]), greetings[|greetings| - 1])
  }

  /** At most three attempts, none after a welcome, and none left exactly when done. */
  lemma {:induction false} GreetsAreBounded(greetings: seq<Greeting>)
    ensures var s := GreetAll(UNTRIED, greetings);
            && |s.attempts| <= DISCOVERY_TRIALS
            && (forall i :: 0 <= i < |s.attempts| - 1 ==> s.attempts[i] != Welcomed)
            && (s.trials == 0 <==> |s.attempts| == DISCOVERY_TRIALS || (s.attempts != [] && s.attempts[|s.attempts| - 1] == Welcomed))
            && (s.trials > 0 ==> s.trials == DISCOVERY_TRIALS - |s.attempts|)
  {
    if greetings != [] { GreetsAreBounded(greetings[..|greetings| - 1]); }
  }
}
