/** The confirmation window of a check: one result is not yet an outage, one success not yet a
    recovery.  The thresholds are at least 1, as the table requires. */
module Confirmation {
  import opened Options

  datatype Result = Healthy | Degraded | Down

  datatype CheckState = IsHealthy | IsDegraded | IsDown | IsUnknown

  datatype Config = Config(failureConfirmations: nat, recoveryConfirmations: nat)

  datatype Confirmed = Confirmed(state: CheckState, failures: nat, successes: nat)

  predicate IsConfig(config: Config) {
    config.failureConfirmations >= 1 && config.recoveryConfirmations >= 1
  }

  function StateFor(result: Result): CheckState {
    match result
    case Healthy => IsHealthy
    case Degraded => IsDegraded
    case Down => IsDown
  }

  /** `applyConfirmationWindow`. */
  function ApplyConfirmationWindow(config: Config, previous: Option<Confirmed>, result: Result): Confirmed {
    if result == Healthy then
      var successes := (if previous.None? then 0 else previous.value.successes) + 1;
      var priorState := if previous.None? then IsHealthy else previous.value.state;
      var confirmed := previous.None? || priorState == IsHealthy || successes >= config.recoveryConfirmations;
      Confirmed(if confirmed then IsHealthy else priorState, 0, successes)
    else
      var failures := (if previous.None? then 0 else previous.value.failures) + 1;
      var priorState := if previous.None? then IsUnknown else previous.value.state;
      var alreadyFailed := priorState == IsDown || priorState == IsDegraded;
      var confirmed := alreadyFailed || failures >= config.failureConfirmations;
      var state := if priorState == IsDown && result == Degraded then IsDown
                   else if confirmed then StateFor(result) else priorState;
      Confirmed(state, failures, 0)
  }

  /** The stored row after a history of results; None before the first. */
  function Latest(config: Config, history: seq<Result>): Option<Confirmed> {
    if history == [] then None
    else Some(ApplyConfirmationWindow(config, Latest(config, history[..|history| - 1]), history[|history| - 1]))
  }

  // ---- what a history means -----------------------------------------------------------------

  /** How many failures in a row the history ends with. */
  function FailureRun(history: seq<Result>): nat {
    if history == [] || history[|history| - 1] == Healthy then 0 else 1 + FailureRun(history[..|history| - 1])
  }

  function SuccessRun(history: seq<Result>): nat {
    if history == [] || history[|history| - 1] != Healthy then 0 else 1 + SuccessRun(history[..|history| - 1])
  }

  /** Enough failures in a row after `i` results. */
  ghost predicate FailedAt(config: Config, history: seq<Result>, i: nat)
    requires i <= |history|
  {
    FailureRun(history[..i]) >= config.failureConfirmations
  }

  ghost predicate RecoveredAt(config: Config, history: seq<Result>, i: nat)
    requires i <= |history|
  {
    SuccessRun(history[..i]) >= config.recoveryConfirmations
  }

  /** An outage confirmed after `i` results has not ended. */
  ghost predicate OutageFrom(config: Config, history: seq<Result>, i: nat) {
    i <= |history| && FailedAt(config, history, i) && forall j | i < j <= |history| :: !RecoveredAt(config, history, j)
  }

  ghost predicate InOutage(config: Config, history: seq<Result>) {
    exists i: nat :: OutageFrom(config, history, i)
  }

  predicate DownAt(history: seq<Result>, k: nat) { 0 < k <= |history| && history[k - 1] == Down }

  /** Some result since the outage was confirmed was down. */
  ghost predicate SawDown(config: Config, history: seq<Result>) {
    exists i: nat, k: nat :: OutageFrom(config, history, i) && i <= k && DownAt(history, k)
  }

  ghost predicate EverRecovered(config: Config, history: seq<Result>) {
    exists j: nat | j <= |history| :: RecoveredAt(config, history, j)
  }

  /** The state told from the whole history. */
  ghost function Meaning(config: Config, history: seq<Result>): CheckState
    requires history != []
  {
    if InOutage(config, history) then (if SawDown(config, history) then IsDown else IsDegraded)
    else if history[0] == Healthy || EverRecovered(config, history) then IsHealthy
    else IsUnknown
  }

  // ---- one more result ----------------------------------------------------------------------

  lemma PrefixesStay(history: seq<Result>, r: Result)
    ensures forall i | 0 <= i <= |history| :: (history + [r])[..i] == history[..i]
    ensures (history + [r])[..|history| + 1] == history + [r]
  {
  }

  lemma RunsOneMore(history: seq<Result>, r: Result)
    ensures FailureRun(history + [r]) == if r == Healthy then 0 else 1 + FailureRun(history)
    ensures SuccessRun(history + [r]) == if r == Healthy then 1 + SuccessRun(history) else 0
  {
    assert (history + [r])[..|history|] == history;
  }

  lemma OutageContinues(config: Config, history: seq<Result>, r: Result, i: nat)
    requires IsConfig(config) && i <= |history|
    ensures var longer := history + [r];
      OutageFrom(config, longer, i)
      <==> OutageFrom(config, history, i) && SuccessRun(longer) < config.recoveryConfirmations
  {
    var longer := history + [r];
    PrefixesStay(history, r);
    assert forall j | 0 <= j <= |history| :: RecoveredAt(config, longer, j) == RecoveredAt(config, history, j);
    assert RecoveredAt(config, longer, |longer|) == (SuccessRun(longer) >= config.recoveryConfirmations);
    assert FailedAt(config, longer, i) == FailedAt(config, history, i);
    if OutageFrom(config, history, i) && SuccessRun(longer) < config.recoveryConfirmations {
      forall j | i < j <= |longer| ensures !RecoveredAt(config, longer, j) {
        if j <= |history| { assert !RecoveredAt(config, history, j); }
      }
    }
    if OutageFrom(config, longer, i) {
      assert !RecoveredAt(config, longer, |longer|);
      forall j | i < j <= |history| ensures !RecoveredAt(config, history, j) {
        assert !RecoveredAt(config, longer, j);
      }
    }
  }

  lemma OutageBegins(config: Config, history: seq<Result>)
    ensures OutageFrom(config, history, |history|) <==> FailureRun(history) >= config.failureConfirmations
  {
    assert history[..|history|] == history;
  }

  lemma OutageOneMore(config: Config, history: seq<Result>, r: Result)
    requires IsConfig(config)
    ensures var longer := history + [r];
      InOutage(config, longer) <==>
        (InOutage(config, history) && SuccessRun(longer) < config.recoveryConfirmations)
        || FailureRun(longer) >= config.failureConfirmations
  {
    hide FailureRun, SuccessRun, OutageFrom;
    var longer := history + [r];
    OutageBegins(config, longer);
    if i: nat :| OutageFrom(config, longer, i) {
      Within(config, longer, i);
      if i <= |history| { OutageContinues(config, history, r, i); }
    }
    if i: nat :| OutageFrom(config, history, i) {
      Within(config, history, i);
      OutageContinues(config, history, r, i);
    }
  }

  lemma Within(config: Config, history: seq<Result>, i: nat)
    requires OutageFrom(config, history, i)
    ensures i <= |history|
  {
  }

  lemma DownOneMore(config: Config, history: seq<Result>, r: Result)
    requires IsConfig(config)
    ensures var longer := history + [r];
      SawDown(config, longer) <==>
        (SawDown(config, history) && SuccessRun(longer) < config.recoveryConfirmations)
        || (InOutage(config, longer) && r == Down)
  {
    hide FailureRun, SuccessRun, OutageFrom;
    var longer := history + [r];
    if i: nat, k: nat :| OutageFrom(config, longer, i) && i <= k && DownAt(longer, k) {
      if k <= |history| {
        assert DownAt(history, k);
        OutageContinues(config, history, r, i);
      }
    }
    if i: nat, k: nat :| OutageFrom(config, history, i) && i <= k && DownAt(history, k) {
      OutageContinues(config, history, r, i);
      assert DownAt(longer, k);
    }
    if InOutage(config, longer) && r == Down {
      var i: nat :| OutageFrom(config, longer, i);
      Within(config, longer, i);
      assert DownAt(longer, |longer|);
    }
  }

  lemma RecoveredOneMore(config: Config, history: seq<Result>, r: Result)
    ensures var longer := history + [r];
      EverRecovered(config, longer) <==> EverRecovered(config, history) || SuccessRun(longer) >= config.recoveryConfirmations
  {
    var longer := history + [r];
    PrefixesStay(history, r);
    assert forall j | 0 <= j <= |history| :: RecoveredAt(config, longer, j) == RecoveredAt(config, history, j);
    assert RecoveredAt(config, longer, |longer|) == (SuccessRun(longer) >= config.recoveryConfirmations);
    if j: nat :| j <= |history| && RecoveredAt(config, history, j) {
      assert RecoveredAt(config, longer, j);
    }
  }

  // ---- main results -------------------------------------------------------------------------

  /** For every history and any thresholds: the counters are the lengths of the runs the history
      ends with, and the state is what the history means. */
  lemma {:induction false} FoldHasMeaning(config: Config, history: seq<Result>)
    requires IsConfig(config) && history != []
    ensures var latest := Latest(config, history).value;
      && latest.failures == FailureRun(history) && latest.successes == SuccessRun(history)
      && latest.state == Meaning(config, history)
    decreases |history|
  {
    hide InOutage, SawDown, EverRecovered, FailureRun, SuccessRun;
    var init, r := history[..|history| - 1], history[|history| - 1];
    assert history == init + [r];
    RunsOneMore(init, r);
    OutageOneMore(config, init, r);
    DownOneMore(config, init, r);
    RecoveredOneMore(config, init, r);
    if init == [] {
      NothingAtFirst(config);
    } else {
      FoldHasMeaning(config, init);
      DownMeansOutage(config, init);
    }
  }

  lemma NothingAtFirst(config: Config)
    requires IsConfig(config)
    ensures !InOutage(config, []) && !SawDown(config, []) && !EverRecovered(config, [])
    ensures FailureRun([]) == 0 && SuccessRun([]) == 0
  {
  }

  lemma DownMeansOutage(config: Config, history: seq<Result>)
    ensures SawDown(config, history) ==> InOutage(config, history)
  {
  }

  /** A check leaves the healthy state only after enough failures in a row, and comes back from an
      outage only after enough successes in a row. */
  lemma ChangesAreConfirmed(config: Config, history: seq<Result>, r: Result)
    requires IsConfig(config) && history != []
    ensures var before, after := Latest(config, history).value.state, Latest(config, history + [r]).value.state;
      && (before == IsHealthy && after != IsHealthy ==> FailureRun(history + [r]) >= config.failureConfirmations)
      && (before != IsHealthy && after == IsHealthy ==> SuccessRun(history + [r]) >= config.recoveryConfirmations)
      && (after == IsUnknown ==> before == IsUnknown)
  {
    hide InOutage, SawDown, EverRecovered, FailureRun, SuccessRun, Meaning;
    FoldHasMeaning(config, history);
    FoldHasMeaning(config, history + [r]);
    RunsOneMore(history, r);
    assert (history + [r])[..|history|] == history;
  }
}
