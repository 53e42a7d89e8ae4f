/**
 Account and instruction types of the on-chain program. They are generic in the key type: the ledger
 model instantiates it with derivation-tracking addresses, the codec with 32 raw bytes.
 */
module Accounts {
  import opened Bytes

  const MAX_COHORT_SIZE: U32 := 100_000
  const POOL_ACCOUNT_SIZE := 256
  const ROUND_ACCOUNT_SIZE := 256
  const RECORD_ACCOUNT_SIZE := 96

  datatype Backend = TransparentRegistry | MerkleCohort

  datatype State =
    | Registration | ThresholdReached | Sealed | ReleaseScheduled | ExecutionWindow
    | Finalizing | Completed | Cancelled | Expired

  datatype PoolAccount<K> = PoolAccount(
    version: Byte, bump: Byte, authority: K, poolId: Digest, templateHash: Digest,
    minParticipants: U32, maxParticipants: U32,
    minReleaseDelay: U64, maxReleaseDelay: U64, executionWindow: U64,
    backend: Backend, nextRound: U64, paused: bool)

  datatype RoundAccount<K> = RoundAccount(
    version: Byte, bump: Byte, pool: K, roundId: U64, state: State,
    registrationDeadline: U64, templateHash: Digest, acceptedCount: U32, cohortRoot: Digest,
    releaseSlot: U64, windowEndSlot: U64, metricsHash: Digest)

  datatype ParticipantRecord<K> = ParticipantRecord(
    version: Byte, bump: Byte, round: K, coordinationKey: Digest)

  datatype Instruction =
    | InitializePool(poolId: Digest, templateHash: Digest, minParticipants: U32, maxParticipants: U32,
                     minReleaseDelay: U64, maxReleaseDelay: U64, executionWindow: U64,
                     backend: Backend, bump: Byte)
    | OpenRound(roundId: U64, registrationDeadline: U64, roundTemplateHash: Digest, roundBump: Byte)
    | RegisterTransparent(coordinationKey: Digest, recordBump: Byte)
    | PublishCohortRoot(root: Digest, acceptedCount: U32)
    | SealRound
    | ScheduleRelease(releaseSlot: U64)
    | BeginExecutionWindow
    | FinalizeRound(metricsHash: Digest)
    | CancelRound
    | CloseRound
}
