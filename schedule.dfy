/**
 * The stop test shared by both watch loops (src/bin/watcher_tui/tui/mod.rs
 * and src/bin/watcher.rs): after every pass, first a stop request, then the
 * watch duration.
 */
module Schedule {
  import opened Wrappers

  const NANOS_PER_MILLI: nat := 1_000_000

  /**
   * What a watch loop reads after a pass: whether a stop was requested (the
   * close flag, or a pending interrupt) and the exact time elapsed since the
   * loop's start checkpoint.
   */
  datatype Observation = Observation(stopRequested: bool, elapsedNanos: nat)

  /** The duration test `duration < elapsed`: strict, and never true without a duration. */
  predicate DurationExceeded(watchDurationMs: Option<nat>, elapsedNanos: nat) {
    watchDurationMs.Some? && watchDurationMs.value * NANOS_PER_MILLI < elapsedNanos
  }

  /** The loop breaks after a pass on a stop request or once the duration is exceeded. */
  predicate StopsAfter(o: Observation, watchDurationMs: Option<nat>) {
    o.stopRequested || DurationExceeded(watchDurationMs, o.elapsedNanos)
  }

  /** No observation among the first `k` asks the loop to stop. */
  predicate NoStopBefore(observations: seq<Observation>, k: nat, watchDurationMs: Option<nat>)
    requires k <= |observations|
  {
    forall j :: 0 <= j < k ==> !StopsAfter(observations[j], watchDurationMs)
  }

  /** A first observation that does not ask to stop extends a stretch of such observations after it. */
  lemma NoStopBeforeCons(observations: seq<Observation>, k: nat, watchDurationMs: Option<nat>)
    requires observations != [] && !StopsAfter(observations[0], watchDurationMs)
    requires k < |observations| && NoStopBefore(observations[1..], k, watchDurationMs)
    ensures NoStopBefore(observations, k + 1, watchDurationMs)
  {
    forall j | 0 < j < k + 1 ensures !StopsAfter(observations[j], watchDurationMs) {
      assert observations[j] == observations[1..][j - 1];
    }
  }
}
