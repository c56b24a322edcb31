/** Byte strings, the memory behind a buffer, and the backing file. */
module Files {
  type Bytes = seq<bv8>

  datatype Option<+T> = None | Some(value: T)

  const ZERO_BYTE: bv8 := 0

  function Min(a: nat, b: nat): nat
  {
    if a <= b then a else b
  }

  function Max(a: nat, b: nat): nat
  {
    if a <= b then b else a
  }

  /** `n` rounded up to a multiple of `unit`. */
  function NextMultipleOf(n: nat, unit: nat): nat
    requires unit > 0
  {
    (n + unit - 1) / unit * unit
  }

  function Concat(parts: seq<Bytes>): Bytes
  {
    if parts == [] then [] else Concat(parts[..|parts| - 1]) + parts[|parts| - 1]
  }

  function Zeros(n: nat): (z: Bytes)
    ensures |z| == n
  {
    seq(n, i => ZERO_BYTE)
  }

  // ---- memory -----------------------------------------------------------

  /** Memory after `data` is copied to offset `at`. */
  function Blit(mem: Bytes, at: nat, data: Bytes): (r: Bytes)
    requires at + |data| <= |mem|
    ensures |r| == |mem|
  {
    mem[..at] + data + mem[at + |data|..]
  }

  /** A copy that lies outside the memory is undefined in the source; here it
      changes nothing. */
  function Copy(mem: Bytes, at: nat, data: Bytes): (r: Bytes)
    ensures |r| == |mem|
  {
    if at + |data| <= |mem| then Blit(mem, at, data) else mem
  }

  predicate Holds(mem: Bytes, at: nat, data: Bytes)
  {
    at + |data| <= |mem| && mem[at..at + |data|] == data
  }

  lemma BlitHolds(mem: Bytes, at: nat, data: Bytes)
    requires at + |data| <= |mem|
    ensures Holds(Blit(mem, at, data), at, data)
  {
    assert Blit(mem, at, data)[at..at + |data|] == data;
  }

  lemma BlitKeeps(mem: Bytes, at: nat, data: Bytes, at': nat, data': Bytes)
    requires at + |data| <= |mem|
    requires at' + |data'| <= at || at + |data| <= at'
    requires Holds(mem, at', data')
    ensures Holds(Blit(mem, at, data), at', data')
  {
    var r := Blit(mem, at, data);
    forall i | 0 <= i < |data'| ensures r[at' + i] == data'[i] {
      assert mem[at' + i] == mem[at'..at' + |data'|][i];
    }
    assert r[at'..at' + |data'|] == data';
  }

  // ---- the backing file -------------------------------------------------

  /** A file; bytes past its end read as zero. */
  type File = Bytes

  function ByteAt(f: File, i: nat): bv8
  {
    if i < |f| then f[i] else ZERO_BYTE
  }

  function WriteAt(f: File, at: nat, data: Bytes): File
  {
    if data == [] then f
    else seq(Max(|f|, at + |data|), i requires i >= 0 => if at <= i < at + |data| then data[i - at] else ByteAt(f, i))
  }

  function ReadAt(f: File, at: nat, len: nat): (r: Bytes)
    ensures |r| == len
  {
    seq(len, i requires i >= 0 => ByteAt(f, at + i))
  }

  lemma WriteChanges(f: File, at: nat, data: Bytes, i: nat)
    ensures ByteAt(WriteAt(f, at, data), i) == if at <= i < at + |data| then data[i - at] else ByteAt(f, i)
  {
  }

  lemma ReadBack(f: File, at: nat, data: Bytes, len: nat)
    requires len <= |data|
    ensures ReadAt(WriteAt(f, at, data), at, len) == data[..len]
  {
    hide WriteAt;
    forall i | 0 <= i < len ensures ReadAt(WriteAt(f, at, data), at, len)[i] == data[i] {
      WriteChanges(f, at, data, at + i);
    }
  }

  lemma ReadElsewhere(f: File, at: nat, data: Bytes, at': nat, len: nat)
    requires at' + len <= at || at + |data| <= at'
    ensures ReadAt(WriteAt(f, at, data), at', len) == ReadAt(f, at', len)
  {
    hide WriteAt;
    forall i | 0 <= i < len ensures ReadAt(WriteAt(f, at, data), at', len)[i] == ReadAt(f, at', len)[i] {
      WriteChanges(f, at, data, at' + i);
    }
  }

  lemma ReadPart(f: File, at: nat, len: nat, from: nat, count: nat)
    requires from + count <= len
    ensures ReadAt(f, at + from, count) == ReadAt(f, at, len)[from..from + count]
  {
  }

  lemma ReadSplits(f: File, at: nat, a: nat, b: nat)
    ensures ReadAt(f, at, a + b) == ReadAt(f, at, a) + ReadAt(f, at + a, b)
  {
  }
}
