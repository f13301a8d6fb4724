/** Reading the phase of a persisted takeover state (lib/takeover-state.js 43-59, 79-110). */
module TakeoverState {
  import opened JsonString
  import Text

  datatype Kind = DirectCli | CcSwitch

  /** A state file's fields as far as the phase needs them; "" stands for an absent status or phase,
      `fields` for having a list of applied files or changes. */
  datatype State = State(status: string, phase: string, snapshot: bool, fields: bool)

  const ACTIVE_PHASES := ["applying", "active", "restoring", "conflict", "rollback-required"]
  const INACTIVE_PHASES := ["inactive", "restored", "full-restored"]

  function StatePhase(state: Option<State>): string {
    if state.None? then "inactive"
    else
      var explicit := Text.Lower(if state.value.status != "" then state.value.status else state.value.phase);
      if explicit != "" then explicit
      else if state.value.snapshot || state.value.fields then "active"
      else "inactive"
  }

  predicate IsActive(state: Option<State>) {
    var phase := StatePhase(state);
    if phase in ACTIVE_PHASES then true else if phase in INACTIVE_PHASES then false else state.Some?
  }

  /** The guard fails closed: a state counts as inactive only when there is none, when it names one of
      the inactive phases, or when it names no phase and shows no trace of a takeover. */
  lemma InactiveIff(state: Option<State>)
    ensures !IsActive(state) <==>
            state.None? ||
            Text.Lower(if state.value.status != "" then state.value.status else state.value.phase) in INACTIVE_PHASES ||
            (state.value.status == "" && state.value.phase == "" && !state.value.snapshot && !state.value.fields)
  {
    var raw := if state.None? then "" else if state.value.status != "" then state.value.status else state.value.phase;
    assert |Text.Lower(raw)| == |raw|;
    assert INACTIVE_PHASES[0] == "inactive" && ACTIVE_PHASES[1] == "active";
    forall p | p in INACTIVE_PHASES ensures p !in ACTIVE_PHASES && p != "" {
      assert p == "inactive" || p == "restored" || p == "full-restored";
      forall q | q in ACTIVE_PHASES ensures p != q {
        assert |p| != |q| || p[0] != q[0];
      }
    }
  }

  /** Stopping is allowed only when none of the three takeovers is active. */
  predicate CanStop(ccSwitch: Option<State>, claude: Option<State>, codex: Option<State>) {
    !IsActive(ccSwitch) && !IsActive(claude) && !IsActive(codex)
  }
}
