/**
 Accounts carry no type in their bytes. Which buffers of one account type read as another is decided by
 the bytes that fall on the one-byte choices of the other type's layout.
 */
module AccountTypes {
  import opened Bytes
  import opened Accounts
  import opened Codec

  /** Where the `i`th field starts. */
  function Offset(ks: seq<Kind>, i: nat): nat
    requires i <= |ks|
  {
    if i == 0 then 0 else Offset(ks, i - 1) + ks[i - 1].Size()
  }

  lemma {:induction false} OffsetsAscend(ks: seq<Kind>, i: nat, j: nat)
    requires i <= j <= |ks|
    ensures Offset(ks, i) <= Offset(ks, j)
    decreases j
  {
    if i < j {
      OffsetsAscend(ks, i, j - 1);
    }
  }

  /** Long enough, and with a known choice wherever the layout has one, from the `i`th field on. */
  predicate Readable(ks: seq<Kind>, b: seq<Byte>, i: nat)
    requires i <= |ks|
  {
    && Offset(ks, |ks|) <= |b|
    && forall j :: i <= j < |ks| && ks[j].Tag? ==> KnownChoice(ks, b, j)
  }

  predicate KnownChoice(ks: seq<Kind>, b: seq<Byte>, j: nat)
    requires j < |ks| && ks[j].Tag?
  {
    Offset(ks, j) < |b| && b[Offset(ks, j)] < ks[j].choices
  }

  lemma OneByte(b: seq<Byte>)
    requires |b| == 1
    ensures Value(b) == b[0]
  {
    assert b[1..] == [];
  }

  /** Reading one field succeeds when there are bytes enough and the choice, if it is one, is known. */
  lemma FieldReadable(ks: seq<Kind>, b: seq<Byte>, i: nat)
    requires i < |ks| && Offset(ks, i) <= |b|
    ensures var at, r := Offset(ks, i), TakeField(ks[i], b[Offset(ks, i)..]);
            && (r.Some? <==> Offset(ks, i + 1) <= |b| && (ks[i].Tag? ==> b[at] < ks[i].choices))
            && (r.Some? ==> r.value.1 == b[Offset(ks, i + 1)..])
  {
    var at, k := Offset(ks, i), ks[i];
    var rest := b[at..];
    if k.Size() <= |rest| {
      assert rest[k.Size()..] == b[at + k.Size()..];
      if k.Tag? { OneByte(rest[..1]); }
    }
  }

  /** A buffer reads as a layout if and only if it is long enough and every choice in it is known. */
  lemma {:induction false} ReadableExactly(ks: seq<Kind>, b: seq<Byte>, i: nat)
    requires i <= |ks| && Offset(ks, i) <= |b|
    ensures TakeAll(ks[i..], b[Offset(ks, i)..]).Some? <==> Readable(ks, b, i)
    decreases |ks| - i
  {
    if i < |ks| {
      OffsetsAscend(ks, i + 1, |ks|);
      FieldReadable(ks, b, i);
      assert ks[i..][0] == ks[i] && ks[i..][1..] == ks[i + 1..];
      if Offset(ks, i + 1) <= |b| {
        ReadableExactly(ks, b, i + 1);
      }
    }
  }

  lemma ReadsAs(ks: seq<Kind>, b: seq<Byte>)
    ensures TakeAll(ks, b).Some? <==> Readable(ks, b, 0)
  {
    ReadableExactly(ks, b, 0);
    assert ks[0..] == ks && b[0..] == b;
  }

  /** Each field read is the one at its offset. */
  lemma {:induction false} FieldsRead(ks: seq<Kind>, b: seq<Byte>, i: nat, j: nat)
    requires i <= j < |ks| && Offset(ks, i) <= |b| && TakeAll(ks[i..], b[Offset(ks, i)..]).Some?
    ensures Offset(ks, j) <= |b| && TakeField(ks[j], b[Offset(ks, j)..]).Some?
    ensures var fs := TakeAll(ks[i..], b[Offset(ks, i)..]).value.0;
            |fs| == |ks| - i && fs[j - i] == TakeField(ks[j], b[Offset(ks, j)..]).value.0
    decreases j - i
  {
    var rest := b[Offset(ks, i)..];
    PutAllTakeAll(ks[i..], rest);
    TakeFirst(ks[i..], rest);
    assert ks[i..][0] == ks[i] && ks[i..][1..] == ks[i + 1..];
    FieldReadable(ks, b, i);
    if i < j {
      FieldsRead(ks, b, i + 1, j);
    }
  }

  lemma FieldRead(ks: seq<Kind>, b: seq<Byte>, j: nat)
    requires j < |ks| && TakeAll(ks, b).Some?
    ensures Offset(ks, j) <= |b| && TakeField(ks[j], b[Offset(ks, j)..]).Some?
    ensures var fs := TakeAll(ks, b).value.0; |fs| == |ks| && fs[j] == TakeField(ks[j], b[Offset(ks, j)..]).value.0
  {
    assert ks[0..] == ks && b[0..] == b;
    FieldsRead(ks, b, 0, j);
  }

  /** The bytes of field `i` of an encoding. */
  lemma {:induction false} FieldAt(ks: seq<Kind>, fs: seq<Field>, i: nat)
    requires FitsAll(ks, fs) && i < |ks|
    ensures Offset(ks, i) + ks[i].Size() <= |PutAll(ks, fs)| && |PutField(ks[i], fs[i])| == ks[i].Size()
    ensures PutAll(ks, fs)[Offset(ks, i)..][..ks[i].Size()] == PutField(ks[i], fs[i])
  {
    EncodingFrom(ks, fs, i);
    assert ks[i..][0] == ks[i] && fs[i..][0] == fs[i];
    assert Fits(ks[i], fs[i]);
  }

  /** From the start of field `i` on, an encoding is the encoding of the fields from `i` on. */
  lemma {:induction false} EncodingFrom(ks: seq<Kind>, fs: seq<Field>, i: nat)
    requires FitsAll(ks, fs) && i <= |ks|
    ensures Offset(ks, i) <= |PutAll(ks, fs)| && PutAll(ks, fs)[Offset(ks, i)..] == PutAll(ks[i..], fs[i..])
    decreases i
  {
    if i == 0 {
      assert ks[0..] == ks && fs[0..] == fs;
    } else {
      EncodingFrom(ks, fs, i - 1);
      var tail := PutAll(ks, fs)[Offset(ks, i - 1)..];
      assert ks[i - 1..][1..] == ks[i..] && fs[i - 1..][1..] == fs[i..];
      assert Fits(ks[i - 1], fs[i - 1]);
      assert tail[ks[i - 1].Size()..] == PutAll(ks[i..], fs[i..]);
    }
  }

  /** Byte `j` of field `i`, in a buffer that begins with an encoding. */
  lemma ByteAt(ks: seq<Kind>, fs: seq<Field>, rest: seq<Byte>, i: nat, j: nat)
    requires FitsAll(ks, fs) && i < |ks| && j < ks[i].Size()
    ensures Offset(ks, i) + j < |PutAll(ks, fs) + rest| && |PutField(ks[i], fs[i])| == ks[i].Size()
    ensures (PutAll(ks, fs) + rest)[Offset(ks, i) + j] == PutField(ks[i], fs[i])[j]
  {
    FieldAt(ks, fs, i);
    var at := Offset(ks, i);
    assert PutAll(ks, fs)[at + j] == PutAll(ks, fs)[at..][..ks[i].Size()][j];
  }

  // ---------- the layouts ----------

  lemma PoolOffsets()
    ensures Offset(POOL, 3) == 34 && Offset(POOL, 10) == 130 && Offset(POOL, 12) == 139 && Offset(POOL, 13) == 140
  {
    assert Offset(POOL, 1) == 1;
    assert Offset(POOL, 5) == 98;
    assert Offset(POOL, 7) == 106;
    assert Offset(POOL, 9) == 122;
  }

  lemma RoundOffsets()
    ensures Offset(ROUND, 4) == 42 && Offset(ROUND, 10) == 127 && Offset(ROUND, 11) == 135 && Offset(ROUND, 12) == 167
  {
    assert Offset(ROUND, 2) == 2;
    assert Offset(ROUND, 6) == 51;
    assert Offset(ROUND, 8) == 87;
  }

  /** A buffer reads as a round if and only if it has 167 bytes and byte 42 is one of the nine states. */
  lemma ReadsAsRound(b: seq<Byte>)
    ensures ReadRound(b).Some? <==> 167 <= |b| && b[42] < 9
  {
    ReadsAs(ROUND, b);
    RoundOffsets();
    assert ROUND[4] == Tag(9);
    if Readable(ROUND, b, 0) { assert KnownChoice(ROUND, b, 4); }
  }

  /** A buffer reads as a pool if and only if it has 140 bytes and bytes 130 and 139 are zero or one. */
  lemma ReadsAsPool(b: seq<Byte>)
    ensures ReadPool(b).Some? <==> 140 <= |b| && b[130] < 2 && b[139] < 2
  {
    ReadsAs(POOL, b);
    PoolOffsets();
    assert POOL[10] == Tag(2) && POOL[12] == Tag(2);
    if Readable(POOL, b, 0) { assert KnownChoice(POOL, b, 10) && KnownChoice(POOL, b, 12); }
  }

  /** The state a buffer reads as is the one its byte 42 names. */
  lemma RoundStateRead(b: seq<Byte>)
    requires ReadRound(b).Some?
    ensures |b| >= 167 && ReadRound(b).value.state == StateOf(b[42])
  {
    ReadsAsRound(b);
    RoundOffsets();
    FieldRead(ROUND, b, 4);
    OneByte(b[42..][..1]);
  }

  /** A buffer that reads as both has its round's pool for its pool's authority. */
  lemma SameOwner(b: seq<Byte>)
    requires ReadPool(b).Some? && ReadRound(b).Some?
    ensures ReadPool(b).value.authority == ReadRound(b).value.pool
  {
    FieldRead(POOL, b, 2);
    FieldRead(ROUND, b, 2);
    assert Offset(POOL, 2) == 2 && Offset(ROUND, 2) == 2;
  }

  /** A pool account reads as a round if and only if the ninth byte of its pool id is below nine. */
  lemma PoolReadsAsRound(p: PoolAccount<Key>)
    ensures ReadRound(PoolBytes(p) + Zeros(POOL_ACCOUNT_SIZE - 140)).Some? <==> p.poolId.bytes[8] < 9
  {
    var rest := Zeros(POOL_ACCOUNT_SIZE - 140);
    PoolFits(p);
    PoolSize(p);
    PoolOffsets();
    ByteAt(POOL, PoolFields(p), rest, 3, 8);
    ReadsAsRound(PoolBytes(p) + rest);
  }

  lemma FourthByte(n: nat)
    ensures Le(n, 8)[3] == n / 256 / 256 / 256 % 256
  {
    var m := n / 256;
    assert Le(n, 8)[3] == Le(m, 7)[2];
    assert Le(m, 7)[2] == Le(m / 256, 6)[1];
  }

  /**
   A round account reads as a pool if and only if the fourth byte of its window's end and the fifth of
   its metrics hash are zero or one.
   */
  lemma RoundReadsAsPool(r: RoundAccount<Key>)
    ensures ReadPool(RoundBytes(r) + Zeros(ROUND_ACCOUNT_SIZE - 167)).Some?
       <==> r.windowEndSlot / 256 / 256 / 256 % 256 < 2 && r.metricsHash.bytes[4] < 2
  {
    var rest := Zeros(ROUND_ACCOUNT_SIZE - 167);
    RoundSize(r);
    RoundBytesAt(r, rest);
    ReadsAsPool(RoundBytes(r) + rest);
  }

  /** What a round has where a pool has its backend and its pause flag. */
  lemma RoundBytesAt(r: RoundAccount<Key>, rest: seq<Byte>)
    ensures |RoundBytes(r)| == 167
    ensures (RoundBytes(r) + rest)[130] == r.windowEndSlot / 256 / 256 / 256 % 256
    ensures (RoundBytes(r) + rest)[139] == r.metricsHash.bytes[4]
  {
    RoundFits(r);
    RoundSize(r);
    RoundOffsets();
    ByteAt(ROUND, RoundFields(r), rest, 10, 3);
    ByteAt(ROUND, RoundFields(r), rest, 11, 4);
    FourthByte(r.windowEndSlot);
  }

  /** A participant record's account is too short to read as either. */
  lemma RecordReadsAsNeither(b: seq<Byte>)
    requires |b| == RECORD_ACCOUNT_SIZE
    ensures ReadPool(b) == None && ReadRound(b) == None
  {
    ReadsAsPool(b);
    ReadsAsRound(b);
  }
}
