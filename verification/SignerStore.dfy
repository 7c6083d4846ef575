/** Signer metadata kept in 32-byte storage words: two length words, an existence word, and each
    string cut into chunks. Storage slots are hashes of their names, idealised as the names. */
module SignerStore {
  import opened Util

  type Byte = b: nat | b < 256
  type Addr = nat

  const CHUNK: nat := 32

  datatype Base = TypeBase | ValueBase

  datatype Slot = Exists | TypeLen | ValueLen | Chunk(base: Base, index: nat)

  function Zeros(n: nat): (z: seq<Byte>)
    ensures |z| == n && forall i | 0 <= i < n :: z[i] == 0
  {
    if n == 0 then [] else Zeros(n - 1) + [0]
  }

  type Word = w: seq<Byte> | |w| == 32 witness Zeros(32)

  const ZERO_WORD: Word := Zeros(32)

  // Big-endian integers.

  function PutBE(n: nat, k: nat): (s: seq<Byte>)
    ensures |s| == k
  {
    if k == 0 then [] else PutBE(n / 256, k - 1) + [n % 256]
  }

  function GetBE(s: seq<Byte>): nat {
    if s == [] then 0 else GetBE(s[..|s| - 1]) * 256 + s[|s| - 1]
  }

  function Pow256(k: nat): nat {
    if k == 0 then 1 else 256 * Pow256(k - 1)
  }

  lemma {:induction false} BigEndianRoundTrip(n: nat, k: nat)
    requires n < Pow256(k)
    ensures GetBE(PutBE(n, k)) == n
  {
    if k > 0 {
      BigEndianRoundTrip(n / 256, k - 1);
      assert PutBE(n, k)[..k - 1] == PutBE(n / 256, k - 1);
    }
  }

  lemma Pow256Eight()
    ensures Pow256(8) == MAX_UINT64 + 1
  {
    assert Pow256(4) == 0x1_0000_0000;
    assert Pow256(8) == 256 * (256 * (256 * (256 * Pow256(4))));
  }

  function Uint64Word(n: nat): Word { Zeros(24) + PutBE(n, 8) }

  function WordUint64(w: Word): nat { GetBE(w[24..]) }

  lemma Uint64RoundTrip(n: nat)
    requires n <= MAX_UINT64
    ensures WordUint64(Uint64Word(n)) == n
  {
    Pow256Eight();
    BigEndianRoundTrip(n, 8);
    assert Uint64Word(n)[24..] == PutBE(n, 8);
  }

  lemma ZeroWordIsZero()
    ensures WordUint64(ZERO_WORD) == 0
  {
    Uint64RoundTrip(0);
    assert PutBE(0, 8) == Zeros(8);
    assert Uint64Word(0) == ZERO_WORD;
  }

  function BoolWord(v: bool): Word { Zeros(31) + [if v then 1 else 0] }

  function WordBool(w: Word): bool { w[31] != 0 }

  function ChunkCount(len: nat): nat {
    if len == 0 then 0 else (len + CHUNK - 1) / CHUNK
  }

  /** Chunk `i` of a string, padded with zeros. */
  function ChunkWord(value: seq<Byte>, i: nat): Word
    requires i < ChunkCount(|value|)
  {
    var start := i * CHUNK;
    var end := Min(start + CHUNK, |value|);
    value[start..end] + Zeros(CHUNK - (end - start))
  }

  /** All chunks of a string. */
  function Chunks(value: seq<Byte>, n: nat): (c: seq<Word>)
    requires n <= ChunkCount(|value|)
    ensures |c| == n
  {
    if n == 0 then [] else Chunks(value, n - 1) + [ChunkWord(value, n - 1)]
  }

  function AllChunks(value: seq<Byte>): seq<Word> { Chunks(value, ChunkCount(|value|)) }

  type Storage = map<(Addr, Slot), Word>

  function Read(db: Storage, a: Addr, slot: Slot): Word {
    if (a, slot) in db then db[(a, slot)] else ZERO_WORD
  }

  /** Storage never keeps zero words. */
  function Write(db: Storage, a: Addr, slot: Slot, w: Word): Storage {
    if w == ZERO_WORD then db - {(a, slot)} else db[(a, slot) := w]
  }

  ghost predicate Normal(db: Storage) {
    forall k | k in db :: db[k] != ZERO_WORD
  }

  lemma WriteRead(db: Storage, a: Addr, slot: Slot, w: Word)
    requires Normal(db)
    ensures Normal(Write(db, a, slot, w))
    ensures forall a': Addr, slot' :: Read(Write(db, a, slot, w), a', slot') == if (a', slot') == (a, slot) then w
            else Read(db, a', slot')
  {
  }

  /** Storage without zero words is determined by what is read from it. */
  lemma NormalUnique(d1: Storage, d2: Storage)
    requires Normal(d1) && Normal(d2) && forall a: Addr, slot :: Read(d1, a, slot) == Read(d2, a, slot)
    ensures d1 == d2
  {
    forall k | k in d1 || k in d2 ensures k in d1 && k in d2 && d1[k] == d2[k] {
      assert Read(d1, k.0, k.1) == Read(d2, k.0, k.1);
    }
  }

  /** What every slot of an account holds after `(t, v)` was stored into empty storage. */
  function LayoutAt(t: seq<Byte>, v: seq<Byte>, slot: Slot): Word {
    match slot
    case Exists => BoolWord(true)
    case TypeLen => Uint64Word(|t|)
    case ValueLen => Uint64Word(|v|)
    case Chunk(base, i) =>
      var s := if base == TypeBase then t else v;
      if i < |AllChunks(s)| then AllChunks(s)[i] else ZERO_WORD
  }

  ghost predicate Holds(db: Storage, a: Addr, t: seq<Byte>, v: seq<Byte>) {
    forall slot :: Read(db, a, slot) == LayoutAt(t, v, slot)
  }

  ghost predicate Empty(db: Storage, a: Addr) {
    forall slot :: Read(db, a, slot) == ZERO_WORD
  }

  /** The first chunks under `base` are `chunks`; nothing else changed. */
  ghost predicate Overlaid(d0: Storage, d1: Storage, a: Addr, base: Base, chunks: seq<Word>) {
    forall a': Addr, slot :: Read(d1, a', slot) ==
      if a' == a && slot.Chunk? && slot.base == base && slot.index < |chunks| then chunks[slot.index]
          else Read(d0, a', slot)
  }

  lemma OverlayMore(d0: Storage, d1: Storage, d2: Storage, a: Addr, base: Base, chunks: seq<Word>, w: Word)
    requires Overlaid(d0, d1, a, base, chunks)
    requires forall a': Addr, slot :: Read(d2, a', slot) == if (a', slot) == (a, Chunk(base, |chunks|)) then w
             else Read(d1, a', slot)
    ensures Overlaid(d0, d2, a, base, chunks + [w])
  {
  }

  /** The chunks under `base` from `lo` up to `hi` are cleared; nothing else changed. */
  ghost predicate Cleared(d0: Storage, d1: Storage, a: Addr, base: Base, lo: nat, hi: nat) {
    forall a': Addr, slot :: Read(d1, a', slot) ==
      if a' == a && slot.Chunk? && slot.base == base && lo <= slot.index < hi then ZERO_WORD else Read(d0, a', slot)
  }

  /** The chunks under `base` are `chunks`, cleared up to `hi`; nothing else changed. */
  ghost predicate Replaced(d0: Storage, d1: Storage, a: Addr, base: Base, chunks: seq<Word>, hi: nat) {
    forall a': Addr, slot {:trigger Read(d1, a', slot)} :: Read(d1, a', slot) ==
      if a' == a && slot.Chunk? && slot.base == base && slot.index < |chunks| then chunks[slot.index]
      else if a' == a && slot.Chunk? && slot.base == base && slot.index < hi then ZERO_WORD
      else Read(d0, a', slot)
  }

  lemma ReplacedBy(d0: Storage, d1: Storage, d2: Storage, a: Addr, base: Base, chunks: seq<Word>, hi: nat)
    requires Overlaid(d0, d1, a, base, chunks) && Cleared(d1, d2, a, base, |chunks|, hi)
    ensures Replaced(d0, d2, a, base, chunks, hi)
  {
  }

  /** The three fixed words are written; nothing else changed. */
  ghost predicate Headed(d0: Storage, d1: Storage, a: Addr, typeLen: nat, valueLen: nat) {
    forall a': Addr, slot {:trigger Read(d1, a', slot)} :: Read(d1, a', slot) ==
      if a' == a && slot == Exists then BoolWord(true)
      else if a' == a && slot == TypeLen then Uint64Word(typeLen)
      else if a' == a && slot == ValueLen then Uint64Word(valueLen)
      else Read(d0, a', slot)
  }

  lemma SetEffect(d0: Storage, d1: Storage, d2: Storage, d3: Storage, a: Addr, t: seq<Byte>, v: seq<Byte>, a': Addr,
                  slot: Slot)
    requires Replaced(d0, d1, a, TypeBase, AllChunks(t), ChunkCount(WordUint64(Read(d0, a, TypeLen))))
    requires Replaced(d1, d2, a, ValueBase, AllChunks(v), ChunkCount(WordUint64(Read(d0, a, ValueLen))))
    requires Headed(d2, d3, a, |t|, |v|)
    ensures Read(d3, a', slot) == if a' == a then AfterSet(d0, a, t, v, slot) else Read(d0, a', slot)
  {
    ReplacedAt(d0, d1, a, TypeBase, AllChunks(t), ChunkCount(WordUint64(Read(d0, a, TypeLen))), a', slot);
    ReplacedAt(d1, d2, a, ValueBase, AllChunks(v), ChunkCount(WordUint64(Read(d0, a, ValueLen))), a', slot);
    HeadedAt(d2, d3, a, |t|, |v|, a', slot);
  }

  lemma ReplacedAt(d0: Storage, d1: Storage, a: Addr, base: Base, chunks: seq<Word>, hi: nat, a': Addr, slot: Slot)
    requires Replaced(d0, d1, a, base, chunks, hi)
    ensures a' == a && slot.Chunk? && slot.base == base ==>
              Read(d1, a, slot) == if slot.index < |chunks| then chunks[slot.index]
                  else if slot.index < hi then ZERO_WORD else Read(d0, a, slot)
    ensures !(a' == a && slot.Chunk? && slot.base == base) ==> Read(d1, a', slot) == Read(d0, a', slot)
  {
  }

  lemma HeadedAt(d0: Storage, d1: Storage, a: Addr, typeLen: nat, valueLen: nat, a': Addr, slot: Slot)
    requires Headed(d0, d1, a, typeLen, valueLen)
    ensures a' != a || slot.Chunk? ==> Read(d1, a', slot) == Read(d0, a', slot)
    ensures a' == a && !slot.Chunk? ==>
              Read(d1, a, slot) == if slot == Exists then BoolWord(true)
                  else Uint64Word(if slot == TypeLen then typeLen else valueLen)
  {
  }

  lemma ClearedMore(d0: Storage, d1: Storage, d2: Storage, a: Addr, base: Base, lo: nat, i: nat)
    requires Cleared(d0, d1, a, base, lo, i) && lo <= i
    requires forall a': Addr, slot :: Read(d2, a', slot) == if (a', slot) == (a, Chunk(base, i)) then ZERO_WORD
             else Read(d1, a', slot)
    ensures Cleared(d0, d2, a, base, lo, i + 1)
  {
  }

  class SignerDB {
    var db: Storage

    constructor ()
      ensures db == map[]
    {
      db := map[];
    }

    method SetState(a: Addr, slot: Slot, w: Word)
      requires Normal(db)
      modifies this
      ensures Normal(db)
      ensures forall a': Addr, slot' :: Read(db, a', slot') == if (a', slot') == (a, slot) then w
              else Read(old(db), a', slot')
    {
      WriteRead(db, a, slot, w);
      db := Write(db, a, slot, w);
    }

    method WriteBytes(a: Addr, base: Base, value: seq<Byte>)
      requires Normal(db)
      modifies this
      ensures Normal(db) && Overlaid(old(db), db, a, base, AllChunks(value))
    {
      for i := 0 to ChunkCount(|value|)
        invariant Normal(db) && Overlaid(old(db), db, a, base, Chunks(value, i))
      {
        var word := ChunkBytes(value, i);
        ghost var before := db;
        SetState(a, Chunk(base, i), word);
        OverlayMore(old(db), before, db, a, base, Chunks(value, i), word);
      }
    }

    /** One chunk, cut and padded. */
    method ChunkBytes(value: seq<Byte>, i: nat) returns (word: Word)
      requires i < ChunkCount(|value|)
      ensures word == ChunkWord(value, i)
    {
      var start := i * CHUNK;
      var end := start + CHUNK;
      if end > |value| {
        end := |value|;
      }
      word := value[start..end] + Zeros(CHUNK - (end - start));
    }

    method ClearBytesRemainder(a: Addr, base: Base, fromLen: nat, toLen: nat)
      requires Normal(db)
      modifies this
      ensures Normal(db) && Cleared(old(db), db, a, base, ChunkCount(toLen), ChunkCount(fromLen))
    {
      var lo, hi := ChunkCount(toLen), ChunkCount(fromLen);
      var i := lo;
      while i < hi
        invariant lo <= i && (i <= hi || i == lo) && Normal(db)
        invariant Cleared(old(db), db, a, base, lo, i)
      {
        ghost var before := db;
        SetState(a, Chunk(base, i), ZERO_WORD);
        ClearedMore(old(db), before, db, a, base, lo, i);
        i := i + 1;
      }
    }

    method ReadBytes(a: Addr, base: Base, len: nat) returns (value: seq<Byte>)
      ensures |value| == len
      ensures forall i | 0 <= i < len :: value[i] == Read(db, a, Chunk(base, i / CHUNK))[i % CHUNK]
    {
      value := [];
      for i := 0 to ChunkCount(len)
        invariant |value| == Min(i * CHUNK, len)
        invariant forall j | 0 <= j < |value| :: value[j] == Read(db, a, Chunk(base, j / CHUNK))[j % CHUNK]
      {
        var word := Read(db, a, Chunk(base, i));
        var start := i * CHUNK;
        var end := start + CHUNK;
        if end > len {
          end := len;
        }
        value := value + word[..end - start];
      }
    }

    /** Replaces one string by another. */
    method StoreBytes(a: Addr, base: Base, value: seq<Byte>, oldLen: nat)
      requires Normal(db)
      modifies this
      ensures Normal(db) && Replaced(old(db), db, a, base, AllChunks(value), ChunkCount(oldLen))
    {
      WriteBytes(a, base, value);
      ghost var d1 := db;
      ClearBytesRemainder(a, base, oldLen, |value|);
      ReplacedBy(old(db), d1, db, a, base, AllChunks(value), ChunkCount(oldLen));
    }

    method WriteHeader(a: Addr, typeLen: nat, valueLen: nat)
      requires Normal(db)
      modifies this
      ensures Normal(db) && Headed(old(db), db, a, typeLen, valueLen)
    {
      SetState(a, TypeLen, Uint64Word(typeLen));
      SetState(a, ValueLen, Uint64Word(valueLen));
      SetState(a, Exists, BoolWord(true));
    }

    /** Stores signer metadata over whatever was stored before. */
    method Set(a: Addr, t: seq<Byte>, v: seq<Byte>)
      requires Normal(db) && |t| <= MAX_UINT64 && |v| <= MAX_UINT64
      modifies this
      ensures Normal(db)
      ensures forall a': Addr, slot | a' != a :: Read(db, a', slot) == Read(old(db), a', slot)
      ensures forall slot :: Read(db, a, slot) == AfterSet(old(db), a, t, v, slot)
    {
      var oldTypeLen := WordUint64(Read(db, a, TypeLen));
      var oldValueLen := WordUint64(Read(db, a, ValueLen));
      StoreBytes(a, TypeBase, t, oldTypeLen);
      ghost var d1 := db;
      StoreBytes(a, ValueBase, v, oldValueLen);
      ghost var d2 := db;
      WriteHeader(a, |t|, |v|);
      forall a': Addr, slot ensures Read(db, a', slot) == if a' == a then AfterSet(old(db), a, t, v, slot)
          else Read(old(db), a', slot) {
        SetEffect(old(db), d1, d2, db, a, t, v, a', slot);
      }
    }

    /** Reads signer metadata back; `ok` is false if none is stored. */
    method Get(a: Addr) returns (t: seq<Byte>, v: seq<Byte>, ok: bool)
      ensures forall t0: seq<Byte>, v0: seq<Byte> | |t0| <= MAX_UINT64 && |v0| <= MAX_UINT64 && Holds(db, a, t0, v0) ::
                ok && t == t0 && v == v0
      ensures Empty(db, a) ==> !ok && t == [] && v == []
    {
      if !WordBool(Read(db, a, Exists)) {
        return [], [], false;
      }
      var typeLen := WordUint64(Read(db, a, TypeLen));
      var valueLen := WordUint64(Read(db, a, ValueLen));
      t := ReadBytes(a, TypeBase, typeLen);
      v := ReadBytes(a, ValueBase, valueLen);
      ok := true;
      forall t0: seq<Byte>, v0: seq<Byte> | |t0| <= MAX_UINT64 && |v0| <= MAX_UINT64 && Holds(db, a, t0, v0)
        ensures t == t0 && v == v0 {
        ReadBack(db, a, t0, v0, t, v);
      }
    }
  }

  /** What one `Set` leaves in each slot of the account, whatever was there before. */
  function AfterSet(db: Storage, a: Addr, t: seq<Byte>, v: seq<Byte>, slot: Slot): Word {
    match slot
    case Exists => BoolWord(true)
    case TypeLen => Uint64Word(|t|)
    case ValueLen => Uint64Word(|v|)
    case Chunk(base, i) =>
      var s := if base == TypeBase then t else v;
      var oldLen := WordUint64(Read(db, a, if base == TypeBase then TypeLen else ValueLen));
      if i < |AllChunks(s)| then AllChunks(s)[i]
      else if i < ChunkCount(oldLen) then ZERO_WORD
      else Read(db, a, slot)
  }

  lemma {:induction false} ChunksIndex(value: seq<Byte>, n: nat, i: nat)
    requires i < n <= ChunkCount(|value|)
    ensures Chunks(value, n)[i] == ChunkWord(value, i)
  {
    if i < n - 1 {
      ChunksIndex(value, n - 1, i);
    }
  }

  /** Every byte sits in its chunk. */
  lemma ChunkByte(value: seq<Byte>, i: nat)
    requires i < |value|
    ensures i / CHUNK < ChunkCount(|value|) && AllChunks(value)[i / CHUNK][i % CHUNK] == value[i]
  {
    ChunksIndex(value, ChunkCount(|value|), i / CHUNK);
  }

  lemma ReadBackBytes(db: Storage, a: Addr, base: Base, value: seq<Byte>, got: seq<Byte>)
    requires forall i: nat | i < |AllChunks(value)| :: Read(db, a, Chunk(base, i)) == AllChunks(value)[i]
    requires |got| == |value| && forall i | 0 <= i < |got| :: got[i] == Read(db, a, Chunk(base, i / CHUNK))[i % CHUNK]
    ensures got == value
  {
    forall i | 0 <= i < |got| ensures got[i] == value[i] {
      ChunkByte(value, i);
    }
  }

  /** Reading returns what is laid out in storage. */
  lemma ReadBack(db: Storage, a: Addr, t0: seq<Byte>, v0: seq<Byte>, t: seq<Byte>, v: seq<Byte>)
    requires |t0| <= MAX_UINT64 && |v0| <= MAX_UINT64 && Holds(db, a, t0, v0)
    requires |t| == WordUint64(Read(db, a, TypeLen)) && |v| == WordUint64(Read(db, a, ValueLen))
    requires forall i | 0 <= i < |t| :: t[i] == Read(db, a, Chunk(TypeBase, i / CHUNK))[i % CHUNK]
    requires forall i | 0 <= i < |v| :: v[i] == Read(db, a, Chunk(ValueBase, i / CHUNK))[i % CHUNK]
    ensures t == t0 && v == v0
  {
    Uint64RoundTrip(|t0|);
    Uint64RoundTrip(|v0|);
    ReadBackBytes(db, a, TypeBase, t0, t);
    ReadBackBytes(db, a, ValueBase, v0, v);
  }

  /** Over empty storage, or over an earlier signer of any length, `Set` leaves exactly the layout of
      the new one: no chunk of the old value survives. */
  lemma SetErasesHistory(db: Storage, a: Addr, t0: seq<Byte>, v0: seq<Byte>, t: seq<Byte>, v: seq<Byte>, slot: Slot)
    requires Empty(db, a) || (|t0| <= MAX_UINT64 && |v0| <= MAX_UINT64 && Holds(db, a, t0, v0))
    ensures AfterSet(db, a, t, v, slot) == LayoutAt(t, v, slot)
  {
    if slot.Chunk? {
      ZeroWordIsZero();
      if !Empty(db, a) {
        Uint64RoundTrip(|t0|);
        Uint64RoundTrip(|v0|);
      }
    }
  }

  datatype Signer = Signer(t: seq<Byte>, v: seq<Byte>)

  predicate Fits(s: Signer) { |s.t| <= MAX_UINT64 && |s.v| <= MAX_UINT64 }

  /** Any number of updates of one account: only the last one counts. Reading gives it back, and the
      storage is that of storing it alone into empty storage. */
  method SetMany(db: SignerDB, a: Addr, signers: seq<Signer>)
    requires Normal(db.db) && Empty(db.db, a) && forall i | 0 <= i < |signers| :: Fits(signers[i])
    modifies db
    ensures Normal(db.db)
    ensures signers != [] ==> Holds(db.db, a, signers[|signers| - 1].t, signers[|signers| - 1].v)
    ensures forall a': Addr, slot | a' != a :: Read(db.db, a', slot) == Read(old(db.db), a', slot)
  {
    for i := 0 to |signers|
      invariant Normal(db.db)
      invariant if i == 0 then Empty(db.db, a) else Holds(db.db, a, signers[i - 1].t, signers[i - 1].v)
      invariant forall a': Addr, slot | a' != a :: Read(db.db, a', slot) == Read(old(db.db), a', slot)
    {
      ghost var before := db.db;
      ghost var prev := if i == 0 then signers[i] else signers[i - 1];
      forall slot
        ensures AfterSet(before, a, signers[i].t, signers[i].v, slot) == LayoutAt(signers[i].t, signers[i].v, slot)
      {
        SetErasesHistory(before, a, prev.t, prev.v, signers[i].t, signers[i].v, slot);
      }
      db.Set(a, signers[i].t, signers[i].v);
    }
  }

  /** Two histories that end with the same signer leave the same storage. */
  lemma HistoryIndependent(d0: Storage, d1: Storage, d2: Storage, a: Addr, s: Signer)
    requires Normal(d1) && Normal(d2)
    requires Holds(d1, a, s.t, s.v) && Holds(d2, a, s.t, s.v)
    requires forall a': Addr, slot | a' != a :: Read(d1, a', slot) == Read(d0, a', slot) == Read(d2, a', slot)
    ensures d1 == d2
  {
    forall a': Addr, slot ensures Read(d1, a', slot) == Read(d2, a', slot) {
    }
    NormalUnique(d1, d2);
  }
}
