/**
  Names, their case folding and their hash (mfs_namehash, mvfs_ansi_strcasecmp).

  A name is a C string: a sequence of non-zero bytes.  The code reads them
  through a signed char, and hashes in a 64-bit unsigned long.
 */
module NameHash {

  type Byte = b: int | 0 < b < 256 witness 1
  type Name = seq<Byte>

  const TWO_64: int := 0x1_0000_0000_0000_0000
  const TWO_32: int := 0x1_0000_0000

  const DOT: Name := [46]

  /** The value of a byte read through a signed char. */
  function Signed(b: Byte): int {
    if b < 128 then b else b - 256
  }

  /** c & ~0x20 on the sign-extended byte. */
  function DropCaseBit(b: Byte): int {
    if (b / 32) % 2 == 1 then Signed(b) - 32 else Signed(b)
  }

  /** One turn of the hash loop, in unsigned 64-bit arithmetic. */
  function Mix(hash: nat, b: Byte): nat {
    ((hash / 0x10000) % 0x10000 + (hash * 8) % 0x80000 + DropCaseBit(b)) % TWO_64
  }

  /** The hash of a name, byte by byte from the left. */
  function Hash(nm: Name): nat {
    if nm == [] then 0 else Mix(Hash(nm[..|nm| - 1]), nm[|nm| - 1])
  }

  /** mfs_namehash: hash a name and count its bytes in one pass. */
  method HashName(nm: Name) returns (hash: nat, len: nat)
    ensures hash == Hash(nm) && len == |nm|
  {
    hash, len := 0, 0;
    while len < |nm|
      invariant len <= |nm| && hash == Hash(nm[..len])
    {
      hash := Mix(hash, nm[len]);
      len := len + 1;
      assert nm[..len][..len - 1] == nm[..len - 1];
    }
    assert nm[..len] == nm;
  }

  /** An upper-case ASCII letter becomes lower case, unless it follows a non-ASCII byte. */
  function Fold(b: Byte, afterHigh: bool): Byte {
    if 65 <= b <= 90 && !afterHigh then b + 32 else b
  }

  /** Position i of two names compares equal under mvfs_ansi_strcasecmp. */
  predicate FoldEqAt(a: Name, b: Name, i: nat)
    requires i < |a| && i < |b|
  {
    var high := i > 0 && a[i - 1] >= 128;
    Fold(a[i], high) == Fold(b[i], high)
  }

  /** Two names are equal up to case. */
  predicate SameFold(a: Name, b: Name) {
    |a| == |b| && forall i :: 0 <= i < |a| ==> FoldEqAt(a, b, i)
  }

  /** mvfs_ansi_strcasecmp, run to the terminating zero: does it return 0? */
  method CaseCompare(a: Name, b: Name) returns (same: bool)
    ensures same == SameFold(a, b)
  {
    var i := 0;
    while i < |a| && i < |b|
      invariant i <= |a| && i <= |b|
      invariant forall j :: 0 <= j < i ==> FoldEqAt(a, b, j)
    {
      var high := i > 0 && a[i - 1] >= 128;
      if Fold(a[i], high) != Fold(b[i], high) {
        assert !FoldEqAt(a, b, i);
        return false;
      }
      i := i + 1;
    }
    return |a| == |b|;
  }

  lemma FoldEqSameMix(a: Byte, b: Byte, high: bool)
    requires Fold(a, high) == Fold(b, high)
    ensures DropCaseBit(a) == DropCaseBit(b)
  {
  }

  /** Names equal up to case have the same length and the same hash. */
  lemma {:induction false} SameFoldSameHash(a: Name, b: Name)
    requires SameFold(a, b)
    ensures |a| == |b| && Hash(a) == Hash(b)
    decreases |a|
  {
    if a != [] {
      var n := |a| - 1;
      assert FoldEqAt(a, b, n);
      FoldEqSameMix(a[n], b[n], n > 0 && a[n - 1] >= 128);
      forall i | 0 <= i < n ensures FoldEqAt(a[..n], b[..n], i) {
        assert FoldEqAt(a, b, i);
      }
      SameFoldSameHash(a[..n], b[..n]);
    }
  }

  /** Truncation of the hash to a 32-bit int, as every caller does before use. */
  function AsInt32(hash: nat): int {
    var low := hash % TWO_32;
    if low < 0x8000_0000 then low else low - TWO_32
  }

  /** MFS_DNCHASH: the chain of a name looked up in a directory. */
  function DirChain(nm: Name, dbid: nat, gen: nat, size: nat): (c: nat)
    requires size > 0
    ensures c < size
  {
    ((AsInt32(Hash(nm)) + |nm| + dbid + gen) % TWO_64) % size
  }

  /** MVFS_RVCHASH: the chain of a VOB root in a view. */
  function RootChain(viewHash: nat, vobHash: nat, size: nat): (c: nat)
    requires size > 0
    ensures c < size
  {
    ((viewHash + vobHash) % TWO_32) % size
  }

  /** Case-insensitive synonyms in one directory share a chain. */
  lemma SynonymsShareChain(a: Name, b: Name, dbid: nat, gen: nat, size: nat)
    requires size > 0 && SameFold(a, b)
    ensures DirChain(a, dbid, gen, size) == DirChain(b, dbid, gen, size)
  {
    SameFoldSameHash(a, b);
  }
}
