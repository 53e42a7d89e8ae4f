/**
 A pool account read as a round: which round it is, and what its buffer becomes when that round is
 cancelled and written back.
 */
module AccountMisreads {
  import opened Bytes
  import opened Accounts
  import opened Codec
  import opened AccountTypes

  // ---------- changing one field of an encoding ----------

  lemma Associate(a: seq<Byte>, b: seq<Byte>, c: seq<Byte>)
    ensures a + (b + c) == (a + b) + c
  {
  }

  lemma {:induction false} PutAllSplit(ks: seq<Kind>, fs: seq<Field>, i: nat)
    requires |ks| == |fs| && i <= |ks|
    ensures PutAll(ks, fs) == PutAll(ks[..i], fs[..i]) + PutAll(ks[i..], fs[i..])
    decreases i
  {
    if i == 0 {
      assert ks[0..] == ks && fs[0..] == fs;
      assert PutAll(ks[..0], fs[..0]) == [];
    } else {
      PutAllSplit(ks[1..], fs[1..], i - 1);
      FrontSlices(ks, i);
      FrontSlices(fs, i);
      Associate(PutField(ks[0], fs[0]), PutAll(ks[1..][..i - 1], fs[1..][..i - 1]), PutAll(ks[i..], fs[i..]));
    }
  }

  lemma FrontSlices<T>(s: seq<T>, i: nat)
    requires 0 < i <= |s|
    ensures s[..i][0] == s[0] && s[..i][1..] == s[1..][..i - 1] && s[1..][i - 1..] == s[i..]
  {
  }

  lemma BackSlices<T>(s: seq<T>, i: nat)
    requires i < |s|
    ensures s[i..][0] == s[i] && s[i..][1..] == s[i + 1..]
  {
  }

  /** An encoding around its field `i`. */
  lemma AroundField(ks: seq<Kind>, fs: seq<Field>, i: nat)
    requires FitsAll(ks, fs) && i < |ks|
    ensures var front, back := PutAll(ks[..i], fs[..i]), PutAll(ks[i + 1..], fs[i + 1..]);
            |front| == Offset(ks, i) && PutAll(ks, fs) == front + PutField(ks[i], fs[i]) + back
  {
    PutAllSplit(ks, fs, i);
    FrontLength(ks, fs, i);
    BackSlices(ks, i);
    BackSlices(fs, i);
    Associate(PutAll(ks[..i], fs[..i]), PutField(ks[i], fs[i]), PutAll(ks[i + 1..], fs[i + 1..]));
  }

  lemma FrontLength(ks: seq<Kind>, fs: seq<Field>, i: nat)
    requires FitsAll(ks, fs) && i <= |ks|
    ensures |PutAll(ks[..i], fs[..i])| == Offset(ks, i)
  {
    PutAllSplit(ks, fs, i);
    EncodingFrom(ks, fs, i);
  }

  /** Replacing field `i` replaces its bytes and no others. */
  lemma ReplaceField(ks: seq<Kind>, fs: seq<Field>, i: nat, f: Field)
    requires FitsAll(ks, fs) && i < |ks| && Fits(ks[i], f)
    ensures var front, back := PutAll(ks[..i], fs[..i]), PutAll(ks[i + 1..], fs[i + 1..]);
            && |front| == Offset(ks, i)
            && PutAll(ks, fs) == front + PutField(ks[i], fs[i]) + back
            && PutAll(ks, fs[i := f]) == front + PutField(ks[i], f) + back
  {
    var gs := fs[i := f];
    AroundField(ks, fs, i);
    assert FitsAll(ks, gs);
    AroundField(ks, gs, i);
    assert gs[..i] == fs[..i] && gs[i + 1..] == fs[i + 1..];
  }

  /** Two pieces of equal length that differ in one byte, between the same others. */
  lemma OneByteReplaced(front: seq<Byte>, x: seq<Byte>, back: seq<Byte>, i: nat, y: seq<Byte>)
    requires i < |x| == |y| && y == x[i := 7]
    ensures front + y + back == (front + x + back)[|front| + i := 7]
  {
  }

  /** Replacing field `i` by one that has byte `j` set to seven does that to the encoding. */
  lemma ReplaceByte(ks: seq<Kind>, fs: seq<Field>, i: nat, f: Field, j: nat)
    requires FitsAll(ks, fs) && i < |ks| && Fits(ks[i], f) && j < |PutField(ks[i], fs[i])|
    requires PutField(ks[i], f) == PutField(ks[i], fs[i])[j := 7]
    ensures Offset(ks, i) + j < |PutAll(ks, fs)|
    ensures PutAll(ks, fs[i := f]) == PutAll(ks, fs)[Offset(ks, i) + j := 7]
  {
    ReplaceField(ks, fs, i, f);
    OneByteReplaced(PutAll(ks[..i], fs[..i]), PutField(ks[i], fs[i]), PutAll(ks[i + 1..], fs[i + 1..]), j, PutField(ks[i], f));
  }

  // ---------- a pool buffer, read as a round ----------

  /** Fields read as a round are the fields of the round read. */
  lemma RoundFieldsOf(fs: seq<Field>)
    requires FitsAll(ROUND, fs)
    ensures RoundFields(RoundOf(fs)) == fs
  {
    Powers();
  }

  /** What reads as a round begins with that round's encoding. */
  lemma RoundReadBack(b: seq<Byte>)
    requires ReadRound(b).Some?
    ensures |b| >= 167 && b[..167] == RoundBytes(ReadRound(b).value)
  {
    PutAllTakeAll(ROUND, b);
    var (fs, rest) := TakeAll(ROUND, b).value;
    RoundFieldsOf(fs);
    RoundSize(ReadRound(b).value);
    assert b == PutAll(ROUND, fs) + rest;
  }

  /** Cancelling changes byte 42 of a round's encoding to seven, and nothing else. */
  lemma CancelledBytes(r: RoundAccount<Key>)
    ensures |RoundBytes(r)| == 167 && RoundBytes(r.(state := Cancelled)) == RoundBytes(r)[42 := 7]
  {
    var fs := RoundFields(r);
    RoundFits(r);
    RoundSize(r);
    RoundOffsets();
    assert RoundFields(r.(state := Cancelled)) == fs[4 := Num(7)];
    assert PutField(ROUND[4], fs[4])[0 := 7] == PutField(ROUND[4], Num(7));
    ReplaceByte(ROUND, fs, 4, Num(7), 0);
  }

  /** The pool's id with its ninth byte set to seven. */
  function Renamed(p: PoolAccount<Key>): PoolAccount<Key> {
    p.(poolId := Digest(p.poolId.bytes[8 := 7]))
  }

  /** Renaming a pool changes byte 42 of its encoding, and nothing else. */
  lemma RenamedBytes(p: PoolAccount<Key>)
    ensures |PoolBytes(p)| == 140 && PoolBytes(Renamed(p)) == PoolBytes(p)[42 := 7]
  {
    var fs, d := PoolFields(p), Digest(p.poolId.bytes[8 := 7]);
    PoolFits(p);
    PoolSize(p);
    PoolOffsets();
    assert PoolFields(Renamed(p)) == fs[3 := Hash(d)];
    ReplaceByte(POOL, fs, 3, Hash(d), 8);
  }

  function PoolBuffer(p: PoolAccount<Key>): seq<Byte> { PoolBytes(p) + Zeros(116) }

  lemma {:induction false} ZerosSplit(m: nat, n: nat)
    ensures Zeros(m + n) == Zeros(m) + Zeros(n)
  {
  }

  lemma PoolBufferByte(p: PoolAccount<Key>)
    ensures |PoolBuffer(p)| == 256 && PoolBuffer(p)[42] == p.poolId.bytes[8]
  {
    PoolSize(p);
    PoolFits(p);
    PoolOffsets();
    ByteAt(POOL, PoolFields(p), Zeros(116), 3, 8);
  }

  lemma PoolBufferEnd(p: PoolAccount<Key>)
    ensures |PoolBytes(p)| == 140 && PoolBuffer(p)[167..] == Zeros(89)
  {
    PoolSize(p);
    ZerosSplit(27, 89);
    Associate(PoolBytes(p), Zeros(27), Zeros(89));
  }

  lemma PoolBufferParts(p: PoolAccount<Key>)
    ensures |PoolBuffer(p)| == 256 && PoolBuffer(p)[42] == p.poolId.bytes[8] && PoolBuffer(p)[167..] == Zeros(89)
  {
    PoolBufferByte(p);
    PoolBufferEnd(p);
  }

  /**
   A pool buffer whose id's ninth byte is below nine reads as a round in the state that byte names; and
   the round's encoding, filled up to the buffer's size, is the buffer.
   */
  lemma PoolAsRound(p: PoolAccount<Key>)
    requires p.poolId.bytes[8] < 9
    ensures |PoolBuffer(p)| == 256 && ReadRound(PoolBuffer(p)).Some?
    ensures var r := ReadRound(PoolBuffer(p)).value;
            && r.state == StateOf(p.poolId.bytes[8])
            && |RoundBytes(r)| == 167 && PoolBuffer(p) == RoundBytes(r) + Zeros(89)
  {
    var b := PoolBuffer(p);
    PoolBufferParts(p);
    ReadsAsRound(b);
    RoundStateRead(b);
    RoundReadBack(b);
    RoundSize(ReadRound(b).value);
    assert b == b[..167] + b[167..];
  }

  /** Cancelling that round writes back the buffer of the pool renamed. */
  lemma CancelRenames(p: PoolAccount<Key>)
    requires p.poolId.bytes[8] < 9
    ensures ReadRound(PoolBuffer(p)).Some?
    ensures var r := ReadRound(PoolBuffer(p)).value.(state := Cancelled);
            |RoundBytes(r)| == 167 && RoundBytes(r) + Zeros(89) == PoolBuffer(Renamed(p))
  {
    PoolAsRound(p);
    var r := ReadRound(PoolBuffer(p)).value;
    CancelledBytes(r);
    RenamedBytes(p);
    assert RoundBytes(r)[42 := 7] + Zeros(89) == (RoundBytes(r) + Zeros(89))[42 := 7];
    assert PoolBytes(p)[42 := 7] + Zeros(116) == (PoolBytes(p) + Zeros(116))[42 := 7];
  }
}
