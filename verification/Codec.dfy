/**
 Account and instruction bytes. Borsh writes a struct as its fields in order, integers little-endian,
 and an enum as its variant number followed by the variant's fields; reading takes the same fields off
 the front. The laws are proved once, for every list of fields, and then instantiated.
 */
module Codec {
  import opened Bytes
  import opened Accounts
  import opened Handlers

  // ---------- little-endian integers ----------

  function Le(n: nat, k: nat): (r: seq<Byte>)
    ensures |r| == k
  {
    if k == 0 then [] else [n % 256] + Le(n / 256, k - 1)
  }

  function Value(b: seq<Byte>): nat {
    if b == [] then 0 else b[0] + 256 * Value(b[1..])
  }

  function Pow256(k: nat): nat {
    if k == 0 then 1 else 256 * Pow256(k - 1)
  }

  lemma {:induction false} LeRoundTrip(n: nat, k: nat)
    requires n < Pow256(k)
    ensures Value(Le(n, k)) == n
    decreases k
  {
    if k > 0 {
      LeRoundTrip(n / 256, k - 1);
      assert Le(n, k)[1..] == Le(n / 256, k - 1);
    }
  }

  lemma LowByte(x: Byte, v: nat)
    ensures (x + 256 * v) % 256 == x && (x + 256 * v) / 256 == v
  {
  }

  lemma {:induction false} ValueRoundTrip(b: seq<Byte>)
    ensures Value(b) < Pow256(|b|) && Le(Value(b), |b|) == b
    decreases |b|
  {
    if b != [] {
      ValueRoundTrip(b[1..]);
      LowByte(b[0], Value(b[1..]));
      assert b == [b[0]] + b[1..];
    }
  }

  lemma Powers()
    ensures Pow256(1) == 0x100 && Pow256(4) == 0x1_0000_0000 && Pow256(8) == 0x1_0000_0000_0000_0000
  {
    assert Pow256(2) == 0x1_0000;
    assert Pow256(4) == 256 * (256 * Pow256(2));
    assert Pow256(6) == 256 * (256 * Pow256(4));
    assert Pow256(8) == 256 * (256 * Pow256(6));
  }

  // ---------- fields ----------

  /** `Tag(n)` is a one-byte choice among `n`: an enum without payload, or a boolean. */
  datatype Kind = KByte | KU32 | KU64 | KDigest | Tag(choices: nat) {
    function Size(): nat {
      match this
      case KByte => 1
      case KU32 => 4
      case KU64 => 8
      case KDigest => 32
      case Tag(_) => 1
    }
  }

  datatype Field = Num(n: nat) | Hash(d: Digest)

  predicate Fits(k: Kind, f: Field) {
    match k
    case KDigest => f.Hash?
    case Tag(c) => f.Num? && f.n < c && f.n < 256
    case _ => f.Num? && f.n < Pow256(k.Size())
  }

  function PutField(k: Kind, f: Field): (r: seq<Byte>)
    ensures |r| == if f.Hash? then 32 else k.Size()
  {
    match f
    case Num(n) => Le(n, k.Size())
    case Hash(d) => d.bytes
  }

  /** The field at the front and what follows it; fails on short input and on an unknown choice. */
  function TakeField(k: Kind, b: seq<Byte>): Option<(Field, seq<Byte>)> {
    if |b| < k.Size() then None
    else
      var front, rest := b[..k.Size()], b[k.Size()..];
      if k.KDigest? then Some((Hash(Digest(front)), rest))
      else if k.Tag? && Value(front) >= k.choices then None
      else Some((Num(Value(front)), rest))
  }

  lemma TakePut(k: Kind, f: Field, rest: seq<Byte>)
    requires Fits(k, f)
    ensures TakeField(k, PutField(k, f) + rest) == Some((f, rest))
  {
    var b := PutField(k, f) + rest;
    assert b[..k.Size()] == PutField(k, f) && b[k.Size()..] == rest;
    if f.Num? {
      Powers();
      LeRoundTrip(f.n, k.Size());
    }
  }

  lemma PutTake(k: Kind, b: seq<Byte>)
    requires TakeField(k, b).Some?
    ensures var (f, rest) := TakeField(k, b).value; Fits(k, f) && b == PutField(k, f) + rest
  {
    var front := b[..k.Size()];
    assert b == front + b[k.Size()..];
    if !k.KDigest? {
      ValueRoundTrip(front);
      Powers();
    }
  }

  predicate FitsAll(ks: seq<Kind>, fs: seq<Field>) {
    |ks| == |fs| && forall i :: 0 <= i < |ks| ==> Fits(ks[i], fs[i])
  }

  function PutAll(ks: seq<Kind>, fs: seq<Field>): seq<Byte>
    requires |ks| == |fs|
  {
    if ks == [] then [] else PutField(ks[0], fs[0]) + PutAll(ks[1..], fs[1..])
  }

  function TakeAll(ks: seq<Kind>, b: seq<Byte>): Option<(seq<Field>, seq<Byte>)> {
    if ks == [] then Some(([], b))
    else
      match TakeField(ks[0], b)
      case None => None
      case Some((f, rest)) =>
        match TakeAll(ks[1..], rest)
        case None => None
        case Some((fs, rest')) => Some(([f] + fs, rest'))
  }

  /** Reading undoes writing, whatever bytes follow. */
  lemma {:induction false} TakeAllPutAll(ks: seq<Kind>, fs: seq<Field>, rest: seq<Byte>)
    requires FitsAll(ks, fs)
    ensures TakeAll(ks, PutAll(ks, fs) + rest) == Some((fs, rest))
    decreases |ks|
  {
    if ks != [] {
      var tail := PutAll(ks[1..], fs[1..]) + rest;
      assert PutAll(ks, fs) + rest == PutField(ks[0], fs[0]) + tail;
      TakePut(ks[0], fs[0], tail);
      TakeAllPutAll(ks[1..], fs[1..], rest);
      assert fs == [fs[0]] + fs[1..];
    } else {
      assert fs == [] && PutAll(ks, fs) + rest == rest;
    }
  }

  /** One field in front of others that are canonical. */
  lemma PutFirst(ks: seq<Kind>, f: Field, fs: seq<Field>, rest: seq<Byte>)
    requires ks != [] && Fits(ks[0], f) && FitsAll(ks[1..], fs)
    ensures FitsAll(ks, [f] + fs)
    ensures PutAll(ks, [f] + fs) + rest == PutField(ks[0], f) + (PutAll(ks[1..], fs) + rest)
  {
    var all := [f] + fs;
    assert all[1..] == fs;
    forall i | 0 <= i < |ks| ensures Fits(ks[i], all[i]) {
      if i > 0 { assert Fits(ks[1..][i - 1], fs[i - 1]); }
    }
  }

  lemma TakeFirst(ks: seq<Kind>, b: seq<Byte>)
    requires ks != [] && TakeAll(ks, b).Some?
    ensures TakeField(ks[0], b).Some?
    ensures var (f, mid) := TakeField(ks[0], b).value;
            TakeAll(ks[1..], mid).Some? &&
            var (fs, rest) := TakeAll(ks[1..], mid).value; TakeAll(ks, b) == Some(([f] + fs, rest))
  {
  }

  /** Writing undoes reading: only the canonical bytes are accepted. */
  lemma {:induction false} PutAllTakeAll(ks: seq<Kind>, b: seq<Byte>)
    requires TakeAll(ks, b).Some?
    ensures var (fs, rest) := TakeAll(ks, b).value; FitsAll(ks, fs) && b == PutAll(ks, fs) + rest
    decreases |ks|
  {
    if ks != [] {
      TakeFirst(ks, b);
      var (f, mid) := TakeField(ks[0], b).value;
      var (fs, rest) := TakeAll(ks[1..], mid).value;
      PutTake(ks[0], b);
      PutAllTakeAll(ks[1..], mid);
      PutFirst(ks, f, fs, rest);
    }
  }

  /** Bytes taken by the fields from the `i`th on. */
  function SizeFrom(ks: seq<Kind>, i: nat): nat
    requires i <= |ks|
    decreases |ks| - i
  {
    if i == |ks| then 0 else ks[i].Size() + SizeFrom(ks, i + 1)
  }

  lemma {:induction false} PutAllSize(ks: seq<Kind>, fs: seq<Field>, i: nat)
    requires FitsAll(ks, fs) && i <= |ks|
    ensures |PutAll(ks[i..], fs[i..])| == SizeFrom(ks, i)
    decreases |ks| - i
  {
    if i < |ks| {
      PutAllSize(ks, fs, i + 1);
      assert ks[i..][1..] == ks[i + 1..] && fs[i..][1..] == fs[i + 1..];
      assert Fits(ks[i], fs[i]);
    }
  }

  // ---------- accounts ----------

  /** On the wire a key is its 32 bytes. */
  type Key = Digest

  const POOL: seq<Kind> :=
    [KByte, KByte, KDigest, KDigest, KDigest, KU32, KU32, KU64, KU64, KU64, Tag(2), KU64, Tag(2)]

  const ROUND: seq<Kind> :=
    [KByte, KByte, KDigest, KU64, Tag(9), KU64, KDigest, KU32, KDigest, KU64, KU64, KDigest]

  const RECORD: seq<Kind> := [KByte, KByte, KDigest, KDigest]

  function BackendTag(b: Backend): nat { if b == TransparentRegistry then 0 else 1 }

  function BackendOf(n: nat): Backend { if n == 0 then TransparentRegistry else MerkleCohort }

  function StateTag(s: State): nat {
    match s
    case Registration => 0
    case ThresholdReached => 1
    case Sealed => 2
    case ReleaseScheduled => 3
    case ExecutionWindow => 4
    case Finalizing => 5
    case Completed => 6
    case Cancelled => 7
    case Expired => 8
  }

  function StateOf(n: nat): State {
    if n == 0 then Registration
    else if n == 1 then ThresholdReached
    else if n == 2 then Sealed
    else if n == 3 then ReleaseScheduled
    else if n == 4 then ExecutionWindow
    else if n == 5 then Finalizing
    else if n == 6 then Completed
    else if n == 7 then Cancelled
    else Expired
  }

  function PoolFields(p: PoolAccount<Key>): seq<Field> {
    [Num(p.version), Num(p.bump), Hash(p.authority), Hash(p.poolId), Hash(p.templateHash),
     Num(p.minParticipants), Num(p.maxParticipants), Num(p.minReleaseDelay), Num(p.maxReleaseDelay),
     Num(p.executionWindow), Num(BackendTag(p.backend)), Num(p.nextRound), Num(if p.paused then 1 else 0)]
  }

  function RoundFields(r: RoundAccount<Key>): seq<Field> {
    [Num(r.version), Num(r.bump), Hash(r.pool), Num(r.roundId), Num(StateTag(r.state)),
     Num(r.registrationDeadline), Hash(r.templateHash), Num(r.acceptedCount), Hash(r.cohortRoot),
     Num(r.releaseSlot), Num(r.windowEndSlot), Hash(r.metricsHash)]
  }

  function RecordFields(r: ParticipantRecord<Key>): seq<Field> {
    [Num(r.version), Num(r.bump), Hash(r.round), Hash(r.coordinationKey)]
  }

  function PoolOf(fs: seq<Field>): PoolAccount<Key>
    requires FitsAll(POOL, fs)
  {
    Powers();
    PoolAccount(fs[0].n, fs[1].n, fs[2].d, fs[3].d, fs[4].d, fs[5].n, fs[6].n, fs[7].n, fs[8].n, fs[9].n,
                BackendOf(fs[10].n), fs[11].n, fs[12].n == 1)
  }

  function RoundOf(fs: seq<Field>): RoundAccount<Key>
    requires FitsAll(ROUND, fs)
  {
    Powers();
    RoundAccount(fs[0].n, fs[1].n, fs[2].d, fs[3].n, StateOf(fs[4].n), fs[5].n, fs[6].d, fs[7].n, fs[8].d,
                 fs[9].n, fs[10].n, fs[11].d)
  }

  function RecordOf(fs: seq<Field>): ParticipantRecord<Key>
    requires FitsAll(RECORD, fs)
  {
    Powers();
    ParticipantRecord(fs[0].n, fs[1].n, fs[2].d, fs[3].d)
  }

  function ReadPool(b: seq<Byte>): Option<PoolAccount<Key>> {
    match TakeAll(POOL, b)
    case None => None
    case Some((fs, _)) => PutAllTakeAll(POOL, b); Some(PoolOf(fs))
  }

  function ReadRound(b: seq<Byte>): Option<RoundAccount<Key>> {
    match TakeAll(ROUND, b)
    case None => None
    case Some((fs, _)) => PutAllTakeAll(ROUND, b); Some(RoundOf(fs))
  }

  function ReadRecord(b: seq<Byte>): Option<ParticipantRecord<Key>> {
    match TakeAll(RECORD, b)
    case None => None
    case Some((fs, _)) => PutAllTakeAll(RECORD, b); Some(RecordOf(fs))
  }

  function PoolBytes(p: PoolAccount<Key>): seq<Byte> { PutAll(POOL, PoolFields(p)) }
  function RoundBytes(r: RoundAccount<Key>): seq<Byte> { PutAll(ROUND, RoundFields(r)) }
  function RecordBytes(r: ParticipantRecord<Key>): seq<Byte> { PutAll(RECORD, RecordFields(r)) }

  lemma WholeSize(ks: seq<Kind>, fs: seq<Field>)
    requires FitsAll(ks, fs)
    ensures |PutAll(ks, fs)| == SizeFrom(ks, 0)
  {
    PutAllSize(ks, fs, 0);
    assert ks[0..] == ks && fs[0..] == fs;
  }

  lemma PoolLayout()
    ensures SizeFrom(POOL, 0) == 140
  {
    assert SizeFrom(POOL, 13) == 0;
    assert SizeFrom(POOL, 11) == 9;
    assert SizeFrom(POOL, 9) == 18;
    assert SizeFrom(POOL, 7) == 34;
    assert SizeFrom(POOL, 5) == 42;
    assert SizeFrom(POOL, 3) == 106;
    assert SizeFrom(POOL, 1) == 139;
  }

  lemma PoolFits(p: PoolAccount<Key>)
    ensures FitsAll(POOL, PoolFields(p))
  {
    Powers();
  }

  /** Pools take 140 bytes of the 256 they are given. */
  lemma PoolSize(p: PoolAccount<Key>)
    ensures |PoolBytes(p)| == 140 <= POOL_ACCOUNT_SIZE
  {
    PoolLayout();
    PoolFits(p);
    WholeSize(POOL, PoolFields(p));
  }

  lemma RoundLayout()
    ensures SizeFrom(ROUND, 0) == 167
  {
    assert SizeFrom(ROUND, 12) == 0;
    assert SizeFrom(ROUND, 10) == 40;
    assert SizeFrom(ROUND, 8) == 80;
    assert SizeFrom(ROUND, 6) == 116;
    assert SizeFrom(ROUND, 4) == 125;
    assert SizeFrom(ROUND, 2) == 165;
  }

  lemma RoundFits(r: RoundAccount<Key>)
    ensures FitsAll(ROUND, RoundFields(r))
  {
    Powers();
  }

  /** Rounds take 167 bytes of the 256 they are given. */
  lemma RoundSize(r: RoundAccount<Key>)
    ensures |RoundBytes(r)| == 167 <= ROUND_ACCOUNT_SIZE
  {
    RoundLayout();
    RoundFits(r);
    WholeSize(ROUND, RoundFields(r));
  }

  lemma RecordLayout()
    ensures SizeFrom(RECORD, 0) == 66
  {
    assert SizeFrom(RECORD, 4) == 0;
    assert SizeFrom(RECORD, 2) == 64;
  }

  lemma RecordFits(r: ParticipantRecord<Key>)
    ensures FitsAll(RECORD, RecordFields(r))
  {
    Powers();
  }

  /** Participant records take 66 bytes of the 96 they are given. */
  lemma RecordSize(r: ParticipantRecord<Key>)
    ensures |RecordBytes(r)| == 66 <= RECORD_ACCOUNT_SIZE
  {
    RecordLayout();
    RecordFits(r);
    WholeSize(RECORD, RecordFields(r));
  }

  /** A pool read back from bytes that begin with its encoding is that pool. */
  lemma PoolRoundTrip(p: PoolAccount<Key>, rest: seq<Byte>)
    ensures ReadPool(PoolBytes(p) + rest) == Some(p)
  {
    PoolFits(p);
    TakeAllPutAll(POOL, PoolFields(p), rest);
  }

  lemma RoundRoundTrip(r: RoundAccount<Key>, rest: seq<Byte>)
    ensures ReadRound(RoundBytes(r) + rest) == Some(r)
  {
    RoundFits(r);
    TakeAllPutAll(ROUND, RoundFields(r), rest);
  }

  lemma RecordRoundTrip(r: ParticipantRecord<Key>, rest: seq<Byte>)
    ensures ReadRecord(RecordBytes(r) + rest) == Some(r)
  {
    RecordFits(r);
    TakeAllPutAll(RECORD, RecordFields(r), rest);
  }

  // ---------- writing an account in place ----------

  /** Zero the buffer, then copy the encoding to its front; too small a buffer is left alone. */
  method WriteAccount(data: array<Byte>, bytes: seq<Byte>) returns (r: Result<(), ProgramError>)
    modifies data
    ensures r.Ok? <==> |bytes| <= data.Length
    ensures r.Ok? ==> data[..] == bytes + Zeros(data.Length - |bytes|)
    ensures r.Err? ==> data[..] == old(data[..])
  {
    if |bytes| > data.Length {
      return Err(AccountDataTooSmall);
    }
    for i := 0 to data.Length
      invariant forall j :: 0 <= j < i ==> data[j] == 0
    {
      data[i] := 0;
    }
    for i := 0 to |bytes|
      invariant forall j :: 0 <= j < i ==> data[j] == bytes[j]
      invariant forall j :: i <= j < data.Length ==> data[j] == 0
    {
      data[i] := bytes[i];
    }
    return Ok(());
  }

  /** Read after write, whatever the account's buffer held: the pool written is the pool read. */
  method StorePool(data: array<Byte>, p: PoolAccount<Key>) returns (r: Result<(), ProgramError>)
    requires data.Length == POOL_ACCOUNT_SIZE
    modifies data
    ensures r.Ok? && ReadPool(data[..]) == Some(p)
  {
    PoolSize(p);
    r := WriteAccount(data, PoolBytes(p));
    PoolRoundTrip(p, Zeros(data.Length - |PoolBytes(p)|));
  }

  method StoreRound(data: array<Byte>, v: RoundAccount<Key>) returns (r: Result<(), ProgramError>)
    requires data.Length == ROUND_ACCOUNT_SIZE
    modifies data
    ensures r.Ok? && ReadRound(data[..]) == Some(v)
  {
    RoundSize(v);
    r := WriteAccount(data, RoundBytes(v));
    RoundRoundTrip(v, Zeros(data.Length - |RoundBytes(v)|));
  }

  method StoreRecord(data: array<Byte>, v: ParticipantRecord<Key>) returns (r: Result<(), ProgramError>)
    requires data.Length == RECORD_ACCOUNT_SIZE
    modifies data
    ensures r.Ok? && ReadRecord(data[..]) == Some(v)
  {
    RecordSize(v);
    r := WriteAccount(data, RecordBytes(v));
    RecordRoundTrip(v, Zeros(data.Length - |RecordBytes(v)|));
  }

  // ---------- instructions ----------

  function VariantTag(i: Instruction): nat {
    match i
    case InitializePool(_, _, _, _, _, _, _, _, _) => 0
    case OpenRound(_, _, _, _) => 1
    case RegisterTransparent(_, _) => 2
    case PublishCohortRoot(_, _) => 3
    case SealRound => 4
    case ScheduleRelease(_) => 5
    case BeginExecutionWindow => 6
    case FinalizeRound(_) => 7
    case CancelRound => 8
    case CloseRound => 9
  }

  function VariantKinds(tag: nat): seq<Kind> {
    if tag == 0 then [KDigest, KDigest, KU32, KU32, KU64, KU64, KU64, Tag(2), KByte]
    else if tag == 1 then [KU64, KU64, KDigest, KByte]
    else if tag == 2 then [KDigest, KByte]
    else if tag == 3 then [KDigest, KU32]
    else if tag == 5 then [KU64]
    else if tag == 7 then [KDigest]
    else []
  }

  function VariantFields(i: Instruction): seq<Field> {
    match i
    case InitializePool(id, template, min, max, minDelay, maxDelay, window, backend, bump) =>
      [Hash(id), Hash(template), Num(min), Num(max), Num(minDelay), Num(maxDelay), Num(window),
       Num(BackendTag(backend)), Num(bump)]
    case OpenRound(round, deadline, template, bump) => [Num(round), Num(deadline), Hash(template), Num(bump)]
    case RegisterTransparent(key, bump) => [Hash(key), Num(bump)]
    case PublishCohortRoot(root, count) => [Hash(root), Num(count)]
    case ScheduleRelease(slot) => [Num(slot)]
    case FinalizeRound(metrics) => [Hash(metrics)]
    case _ => []
  }

  function VariantOf(tag: nat, fs: seq<Field>): Instruction
    requires tag < 10 && FitsAll(VariantKinds(tag), fs)
  {
    Powers();
    if tag == 0 then
      InitializePool(fs[0].d, fs[1].d, fs[2].n, fs[3].n, fs[4].n, fs[5].n, fs[6].n, BackendOf(fs[7].n), fs[8].n)
    else if tag == 1 then OpenRound(fs[0].n, fs[1].n, fs[2].d, fs[3].n)
    else if tag == 2 then RegisterTransparent(fs[0].d, fs[1].n)
    else if tag == 3 then PublishCohortRoot(fs[0].d, fs[1].n)
    else if tag == 4 then SealRound
    else if tag == 5 then ScheduleRelease(fs[0].n)
    else if tag == 6 then BeginExecutionWindow
    else if tag == 7 then FinalizeRound(fs[0].d)
    else if tag == 8 then CancelRound
    else CloseRound
  }

  function Encode(i: Instruction): seq<Byte> {
    VariantsFit(i);
    [VariantTag(i)] + PutAll(VariantKinds(VariantTag(i)), VariantFields(i))
  }

  /** `try_from_slice`: every byte must be used. */
  function Decode(b: seq<Byte>): Option<Instruction> {
    if b == [] || b[0] >= 10 then None
    else
      match TakeAll(VariantKinds(b[0]), b[1..])
      case None => None
      case Some((fs, rest)) =>
        PutAllTakeAll(VariantKinds(b[0]), b[1..]);
        if rest != [] then None else Some(VariantOf(b[0], fs))
  }

  lemma VariantsFit(i: Instruction)
    ensures FitsAll(VariantKinds(VariantTag(i)), VariantFields(i))
    ensures VariantOf(VariantTag(i), VariantFields(i)) == i
  {
    Powers();
  }

  /** Fields and variants determine each other. */
  lemma FieldsOfVariant(tag: nat, fs: seq<Field>)
    requires tag < 10 && FitsAll(VariantKinds(tag), fs)
    ensures VariantTag(VariantOf(tag, fs)) == tag && VariantFields(VariantOf(tag, fs)) == fs
  {
    Powers();
  }

  lemma DecodeEncode(i: Instruction)
    ensures Decode(Encode(i)) == Some(i)
  {
    VariantsFit(i);
    DecodeTagged(VariantTag(i), VariantFields(i));
  }

  lemma DecodeTagged(tag: nat, fs: seq<Field>)
    requires tag < 10 && FitsAll(VariantKinds(tag), fs)
    ensures Decode([tag] + PutAll(VariantKinds(tag), fs)) == Some(VariantOf(tag, fs))
  {
    var ks := VariantKinds(tag);
    var b := [tag] + PutAll(ks, fs);
    TakeAllPutAll(ks, fs, []);
    assert b[1..] == PutAll(ks, fs) + [];
  }

  lemma EncodeDecode(b: seq<Byte>)
    requires Decode(b).Some?
    ensures Encode(Decode(b).value) == b
  {
    var ks := VariantKinds(b[0]);
    PutAllTakeAll(ks, b[1..]);
    var fs := TakeAll(ks, b[1..]).value.0;
    FieldsOfVariant(b[0], fs);
    assert b[1..] == PutAll(ks, fs) + [];
    assert b == [b[0]] + b[1..];
  }

  /** The instruction format is exact: a byte string decodes to an instruction if and only if it is its encoding. */
  lemma InstructionFormat(b: seq<Byte>, i: Instruction)
    ensures Decode(b) == Some(i) <==> b == Encode(i)
  {
    DecodeEncode(i);
    if Decode(b).Some? { EncodeDecode(b); }
  }

  /** Different instructions have different encodings. */
  lemma EncodeInjective(i: Instruction, j: Instruction)
    requires Encode(i) == Encode(j)
    ensures i == j
  {
    InstructionFormat(Encode(i), i);
    InstructionFormat(Encode(i), j);
  }
}
