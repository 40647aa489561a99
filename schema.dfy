/**
 The schema-version state machine run at startup by `check_sql_engine`,
 stored in SQLite's `user_version`: 0 is the schema before `num_tx`, 1 adds
 `num_tx`, 2 adds `votes`. The version is read once, so the second test sees
 the value from before the first step.
 */
module Schema {

  /** The newest schema version. */
  const Current: nat := 2

  /** `user_version` after one startup. */
  function Startup(version: nat): (r: nat)
    ensures version < Current ==> r == version + 1
    ensures version >= Current ==> r == version
  {
    var afterFirst := if version == 0 then 1 else version;
    if version == 1 then 2 else afterFirst
  }

  /** `user_version` after `runs` startups. */
  function Startups(version: nat, runs: nat): nat
    decreases runs
  {
    if runs == 0 then version else Startup(Startups(version, runs - 1))
  }

  /** Every startup advances an old store by exactly one version, up to the current one. */
  lemma {:induction false} StartupsReachCurrent(version: nat, runs: nat)
    requires version <= Current
    ensures Startups(version, runs) == if version + runs <= Current then version + runs else Current
  {
    if runs > 0 {
      StartupsReachCurrent(version, runs - 1);
    }
  }
}
