/** The lifecycle guard over all takeovers of one home (lib/takeover-state.js 79-110). */
module Lifecycle {
  import JsonString
  import Direct = DirectTakeover
  import Phases = CcSwitchPhases
  import Ops = CcSwitchOps
  import TakeoverState
  import Text

  function PhaseName(p: Direct.Phase): string {
    match p
    case Applying => "applying"
    case Active => "active"
    case Restoring => "restoring"
    case RollbackRequired => "rollback-required"
  }

  function Persisted(record: Direct.Option<Direct.Record>): JsonString.Option<TakeoverState.State> {
    if record.None? then JsonString.None else JsonString.Some(TakeoverState.State("", PhaseName(record.value.phase), true, true))
  }

  lemma NamesTell(p: Direct.Phase, q: Direct.Phase)
    requires PhaseName(p) == PhaseName(q)
    ensures p == q
  {
    assert |PhaseName(p)| == |PhaseName(q)| && PhaseName(p)[0] == PhaseName(q)[0] && PhaseName(p)[1] == PhaseName(q)[1];
  }

  lemma GuardReadsRecord(record: Direct.Option<Direct.Record>)
    ensures TakeoverState.IsActive(Persisted(record)) <==> record.Some?
  {
    if record.Some? {
      var name := PhaseName(record.value.phase);
      assert Text.Lower(name) == name;
      assert TakeoverState.ACTIVE_PHASES[0] == "applying" && TakeoverState.ACTIVE_PHASES[1] == "active"
          && TakeoverState.ACTIVE_PHASES[2] == "restoring" && TakeoverState.ACTIVE_PHASES[4] == "rollback-required";
    }
  }

  /** Stop is allowed exactly when no takeover of the database or of either CLI is recorded. */
  lemma StopAllowedIff(cc: Phases.World, claude: Direct.World, codex: Direct.World)
    ensures TakeoverState.CanStop(Phases.Persisted(cc.state), Persisted(claude.record), Persisted(codex.record)) <==>
            (cc.state.None? || cc.state.value.status == Phases.Restored) && claude.record.None? && codex.record.None?
  {
    Phases.GuardReadsPhase(cc.state);
    GuardReadsRecord(claude.record);
    GuardReadsRecord(codex.record);
  }

  /** Stop never strands a takeover: when the guard lets the service stop, the CC-Switch database and
      the files of both native CLIs are as they were before any takeover, whatever ran and crashed. */
  lemma StopStrandsNothing(cc: Phases.World, claude: Direct.World, codex: Direct.World, db: Ops.Db,
                           claudeFiles: map<Direct.Path, Direct.Bytes>, codexFiles: map<Direct.Path, Direct.Bytes>)
    requires Phases.Consistent(cc, db) && Direct.Consistent(claude, claudeFiles) && Direct.Consistent(codex, codexFiles)
    requires TakeoverState.CanStop(Phases.Persisted(cc.state), Persisted(claude.record), Persisted(codex.record))
    ensures cc.db == db && claude.files == claudeFiles && codex.files == codexFiles
  {
    Phases.GuardReadsPhase(cc.state);
    GuardReadsRecord(claude.record);
    GuardReadsRecord(codex.record);
  }
}
