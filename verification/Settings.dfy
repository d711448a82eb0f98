/** The settings the services share, with the limits internal/config/config.go enforces.
    Times and durations are milliseconds on one clock. */
module Settings {
  import opened Hysteresis

  datatype Config = Config(
    policy: Policy,
    queueLease: int, runTimeout: int, maxAttempts: int,
    outboxLease: int, outboxBatch: int,
    probeRegion: string, probeStaleAfter: int, probeJobTtl: int, probeJobLease: int,
    probeEvidenceFresh: int, probeBatch: int)
  {
    predicate Valid() {
      && policy.Valid()
      && queueLease > 0 && runTimeout > 0 && 1 <= maxAttempts <= 100
      && outboxLease > 0 && 1 <= outboxBatch <= 1000
      && probeStaleAfter > 0 && 0 < probeJobLease < probeJobTtl
      && probeEvidenceFresh > 0 && 1 <= probeBatch <= 1000
    }
  }
}
