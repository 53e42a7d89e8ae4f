/** The bytes of every account and instruction, written out: which bytes mean what. */
module WireBytes {
  import opened Bytes
  import opened Accounts
  import opened Codec

  /** Byte strings one after the other. */
  function Cat(parts: seq<seq<Byte>>): seq<Byte> {
    if parts == [] then [] else parts[0] + Cat(parts[1..])
  }

  /** The `i`th digit of a number to the base 256, the lowest first. */
  function Digit256(n: nat, i: nat): Byte {
    if i == 0 then n % 256 else Digit256(n / 256, i - 1)
  }

  /** Little-endian: byte `i` is digit `i`. */
  lemma {:induction false} LeByte(n: nat, k: nat, i: nat)
    requires i < k
    ensures Le(n, k)[i] == Digit256(n, i)
    decreases k
  {
    if i > 0 {
      LeByte(n / 256, k - 1, i - 1);
      assert Le(n, k)[i] == Le(n / 256, k - 1)[i - 1];
    }
  }

  lemma LeOne(n: nat)
    requires n < 256
    ensures Le(n, 1) == [n]
  {
    assert Le(n / 256, 0) == [];
  }

  lemma {:induction false} PutAllIsCat(ks: seq<Kind>, fs: seq<Field>, parts: seq<seq<Byte>>)
    requires |ks| == |fs| == |parts| && forall i :: 0 <= i < |ks| ==> parts[i] == PutField(ks[i], fs[i])
    ensures PutAll(ks, fs) == Cat(parts)
    decreases |ks|
  {
    if ks != [] {
      forall i | 0 <= i < |ks| - 1 ensures parts[1..][i] == PutField(ks[1..][i], fs[1..][i]) {
        assert parts[i + 1] == PutField(ks[i + 1], fs[i + 1]);
      }
      PutAllIsCat(ks[1..], fs[1..], parts[1..]);
    }
  }

  /** The number of each state. */
  function StateByte(s: State): Byte {
    match s
    case Registration => 0
    case ThresholdReached => 1
    case Sealed => 2
    case ReleaseScheduled => 3
    case ExecutionWindow => 4
    case Finalizing => 5
    case Completed => 6
    case Cancelled => 7
    case Expired => 8
  }

  function BackendByte(b: Backend): Byte { if b.TransparentRegistry? then 0 else 1 }

  lemma PoolBytesAre(p: PoolAccount<Key>)
    ensures PoolBytes(p) == Cat([
              [p.version], [p.bump], p.authority.bytes, p.poolId.bytes, p.templateHash.bytes,
              Le(p.minParticipants, 4), Le(p.maxParticipants, 4),
              Le(p.minReleaseDelay, 8), Le(p.maxReleaseDelay, 8), Le(p.executionWindow, 8),
              [BackendByte(p.backend)], Le(p.nextRound, 8), [if p.paused then 1 else 0]])
  {
    LeOne(p.version);
    LeOne(p.bump);
    LeOne(BackendByte(p.backend));
    LeOne(if p.paused then 1 else 0);
    PutAllIsCat(POOL, PoolFields(p), [
      [p.version], [p.bump], p.authority.bytes, p.poolId.bytes, p.templateHash.bytes,
      Le(p.minParticipants, 4), Le(p.maxParticipants, 4),
      Le(p.minReleaseDelay, 8), Le(p.maxReleaseDelay, 8), Le(p.executionWindow, 8),
      [BackendByte(p.backend)], Le(p.nextRound, 8), [if p.paused then 1 else 0]]);
  }

  lemma RoundBytesAre(r: RoundAccount<Key>)
    ensures RoundBytes(r) == Cat([
              [r.version], [r.bump], r.pool.bytes, Le(r.roundId, 8), [StateByte(r.state)],
              Le(r.registrationDeadline, 8), r.templateHash.bytes, Le(r.acceptedCount, 4), r.cohortRoot.bytes,
              Le(r.releaseSlot, 8), Le(r.windowEndSlot, 8), r.metricsHash.bytes])
  {
    LeOne(r.version);
    LeOne(r.bump);
    LeOne(StateByte(r.state));
    PutAllIsCat(ROUND, RoundFields(r), [
      [r.version], [r.bump], r.pool.bytes, Le(r.roundId, 8), [StateByte(r.state)],
      Le(r.registrationDeadline, 8), r.templateHash.bytes, Le(r.acceptedCount, 4), r.cohortRoot.bytes,
      Le(r.releaseSlot, 8), Le(r.windowEndSlot, 8), r.metricsHash.bytes]);
  }

  lemma RecordBytesAre(r: ParticipantRecord<Key>)
    ensures RecordBytes(r) == Cat([[r.version], [r.bump], r.round.bytes, r.coordinationKey.bytes])
  {
    LeOne(r.version);
    LeOne(r.bump);
    PutAllIsCat(RECORD, RecordFields(r), [[r.version], [r.bump], r.round.bytes, r.coordinationKey.bytes]);
  }

  /** The instructions without arguments are one byte each. */
  lemma BareInstructionBytes()
    ensures Encode(SealRound) == [4]
    ensures Encode(BeginExecutionWindow) == [6]
    ensures Encode(CancelRound) == [8]
    ensures Encode(CloseRound) == [9]
  {
    EncodedParts(SealRound, []);
    EncodedParts(BeginExecutionWindow, []);
    EncodedParts(CancelRound, []);
    EncodedParts(CloseRound, []);
  }

  /** An instruction's bytes are its number and its arguments. */
  lemma EncodedParts(i: Instruction, parts: seq<seq<Byte>>)
    requires var ks, fs := VariantKinds(VariantTag(i)), VariantFields(i);
             |parts| == |ks| == |fs| && forall j :: 0 <= j < |parts| ==> parts[j] == PutField(ks[j], fs[j])
    ensures Encode(i) == [VariantTag(i)] + Cat(parts)
  {
    PutAllIsCat(VariantKinds(VariantTag(i)), VariantFields(i), parts);
  }

  lemma InitializeBytesAre(i: Instruction)
    requires i.InitializePool?
    ensures Encode(i) == [0] + Cat([
              i.poolId.bytes, i.templateHash.bytes, Le(i.minParticipants, 4), Le(i.maxParticipants, 4),
              Le(i.minReleaseDelay, 8), Le(i.maxReleaseDelay, 8), Le(i.executionWindow, 8),
              [BackendByte(i.backend)], [i.bump]])
  {
    LeOne(BackendByte(i.backend));
    LeOne(i.bump);
    EncodedParts(i, [
      i.poolId.bytes, i.templateHash.bytes, Le(i.minParticipants, 4), Le(i.maxParticipants, 4),
      Le(i.minReleaseDelay, 8), Le(i.maxReleaseDelay, 8), Le(i.executionWindow, 8),
      [BackendByte(i.backend)], [i.bump]]);
  }

  lemma OpenBytesAre(i: Instruction)
    requires i.OpenRound?
    ensures Encode(i) == [1] + Cat([Le(i.roundId, 8), Le(i.registrationDeadline, 8), i.roundTemplateHash.bytes, [i.roundBump]])
  {
    LeOne(i.roundBump);
    EncodedParts(i, [Le(i.roundId, 8), Le(i.registrationDeadline, 8), i.roundTemplateHash.bytes, [i.roundBump]]);
  }

  lemma RegisterBytesAre(i: Instruction)
    requires i.RegisterTransparent?
    ensures Encode(i) == [2] + Cat([i.coordinationKey.bytes, [i.recordBump]])
  {
    LeOne(i.recordBump);
    EncodedParts(i, [i.coordinationKey.bytes, [i.recordBump]]);
  }

  lemma PublishBytesAre(root: Digest, count: U32)
    ensures Encode(PublishCohortRoot(root, count)) == [3] + Cat([root.bytes, Le(count, 4)])
  {
    EncodedParts(PublishCohortRoot(root, count), [root.bytes, Le(count, 4)]);
  }

  lemma ScheduleBytesAre(slot: U64)
    ensures Encode(ScheduleRelease(slot)) == [5] + Cat([Le(slot, 8)])
  {
    EncodedParts(ScheduleRelease(slot), [Le(slot, 8)]);
  }

  lemma FinalizeBytesAre(metrics: Digest)
    ensures Encode(FinalizeRound(metrics)) == [7] + Cat([metrics.bytes])
  {
    EncodedParts(FinalizeRound(metrics), [metrics.bytes]);
  }

  /** So the first byte alone tells what an instruction does. */
  lemma FirstByteTells(b: seq<Byte>)
    requires Decode(b).Some?
    ensures b != [] && match Decode(b).value
            case InitializePool(_, _, _, _, _, _, _, _, _) => b[0] == 0
            case OpenRound(_, _, _, _) => b[0] == 1
            case RegisterTransparent(_, _) => b[0] == 2
            case PublishCohortRoot(_, _) => b[0] == 3
            case SealRound => b[0] == 4
            case ScheduleRelease(_) => b[0] == 5
            case BeginExecutionWindow => b[0] == 6
            case FinalizeRound(_) => b[0] == 7
            case CancelRound => b[0] == 8
            case CloseRound => b[0] == 9
  {
    EncodeDecode(b);
  }
}
