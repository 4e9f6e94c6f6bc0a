/** `reload_elf_file`: copying the loadable segments of an ELF file, already in memory, to their physical addresses. */
module Loader {
  newtype Byte = x: int | 0 <= x < 0x100

  const UINT32 := 0x1_0000_0000
  const PT_LOAD := 1
  const EHDR_SIZE := 52
  const PHDR_SIZE := 32
  const MAGIC: seq<Byte> := [0x7F, 0x45, 0x4C, 0x46]

  type Bytes = seq<Byte>

  // ---- little-endian fields of the two headers ----

  function Word(m: Bytes, at: nat): (w: nat)
    requires at + 4 <= |m|
    ensures w < UINT32
  {
    m[at] as nat + 0x100 * m[at + 1] as nat + 0x1_0000 * m[at + 2] as nat + 0x100_0000 * m[at + 3] as nat
  }

  function Half(m: Bytes, at: nat): (h: nat)
    requires at + 2 <= |m|
    ensures h < 0x1_0000
  {
    m[at] as nat + 0x100 * m[at + 1] as nat
  }

  /** A program header's fields, as far as the loader reads them. */
  datatype Segment = Segment(kind: nat, offset: nat, paddr: nat, filesz: nat, memsz: nat)

  function SegmentAt(m: Bytes, at: nat): Segment
    requires at + PHDR_SIZE <= |m|
  {
    Segment(Word(m, at), Word(m, at + 4), Word(m, at + 12), Word(m, at + 16), Word(m, at + 20))
  }

  predicate IsElf(m: Bytes, file: nat)
    requires file + EHDR_SIZE <= |m|
  {
    m[file..file + 4] == MAGIC
  }

  function Entry(m: Bytes, file: nat): nat
    requires file + EHDR_SIZE <= |m|
  {
    Word(m, file + 24)
  }

  function TableAt(m: Bytes, file: nat): nat
    requires file + EHDR_SIZE <= |m|
  {
    file + Word(m, file + 28)
  }

  function Count(m: Bytes, file: nat): nat
    requires file + EHDR_SIZE <= |m|
  {
    Half(m, file + 44)
  }

  /** A segment to load lies in the file, and its destination is in memory and clear of the file. */
  predicate SegmentFits(s: Segment, file: nat, size: nat, limit: nat) {
    s.kind == PT_LOAD ==>
      && s.filesz <= s.memsz
      && s.offset + s.filesz <= size
      && s.paddr + s.memsz <= limit
      && (s.paddr + s.memsz <= file || file + size <= s.paddr)
  }

  /** What a well-formed kernel image of `size` bytes at address `file` promises. */
  predicate WellFormed(m: Bytes, file: nat, size: nat) {
    && EHDR_SIZE <= size && file + size <= |m|
    && TableAt(m, file) + Count(m, file) * PHDR_SIZE <= file + size
    && (forall i :: 0 <= i < Count(m, file) ==> SegmentFits(SegmentNo(m, file, i), file, size, |m|))
  }

  function SegmentNo(m: Bytes, file: nat, i: nat): Segment
    requires file + EHDR_SIZE <= |m|
  {
    var at := TableAt(m, file) + i * PHDR_SIZE;
    if at + PHDR_SIZE <= |m| then SegmentAt(m, at) else Segment(0, 0, 0, 0, 0)
  }

  // ---- the specification: one segment after the other ----

  function Zeros(n: nat): Bytes {
    seq(n, _ => 0)
  }

  /** The bytes the segment occupies in memory. */
  function Image(m: Bytes, file: nat, s: Segment): Bytes
    requires s.filesz <= s.memsz && file + s.offset + s.filesz <= |m|
  {
    m[file + s.offset..file + s.offset + s.filesz] + Zeros(s.memsz - s.filesz)
  }

  function Overwrite(m: Bytes, at: nat, b: Bytes): (r: Bytes)
    requires at + |b| <= |m|
    ensures |r| == |m|
  {
    m[..at] + b + m[at + |b|..]
  }

  function Place(m: Bytes, file: nat, size: nat, s: Segment): (r: Bytes)
    requires SegmentFits(s, file, size, |m|) && file + size <= |m|
    ensures |r| == |m|
  {
    if s.kind == PT_LOAD then Overwrite(m, s.paddr, Image(m, file, s)) else m
  }

  /** Memory after the first `n` program headers. */
  function Loaded(m: Bytes, file: nat, size: nat, n: nat): (r: Bytes)
    requires WellFormed(m, file, size) && n <= Count(m, file)
    ensures |r| == |m| && r[file..file + size] == m[file..file + size]
    decreases n
  {
    if n == 0 then m
    else
      var before := Loaded(m, file, size, n - 1);
      var r := Place(before, file, size, SegmentNo(m, file, n - 1));
      FileKept(before, file, size, SegmentNo(m, file, n - 1));
      r
  }

  lemma FileKept(m: Bytes, file: nat, size: nat, s: Segment)
    requires SegmentFits(s, file, size, |m|) && file + size <= |m|
    ensures Place(m, file, size, s)[file..file + size] == m[file..file + size]
  {
  }

  // ---- the loader ----

  /** Fields inside the file are what they were as long as the file's bytes are. */
  lemma HeaderKept(m: Bytes, m1: Bytes, file: nat, size: nat, at: nat)
    requires |m| == |m1| && file + size <= |m| && m[file..file + size] == m1[file..file + size]
    requires file <= at
    ensures at + 4 <= file + size ==> Word(m1, at) == Word(m, at)
    ensures at + 2 <= file + size ==> Half(m1, at) == Half(m, at)
  {
    forall j | file <= j < file + size
      ensures m1[j] == m[j]
    {
      assert m1[j] == m1[file..file + size][j - file] && m[j] == m[file..file + size][j - file];
    }
  }

  lemma SegmentKept(m: Bytes, m1: Bytes, file: nat, size: nat, at: nat)
    requires |m| == |m1| && file + size <= |m| && m[file..file + size] == m1[file..file + size]
    requires file <= at && at + PHDR_SIZE <= file + size
    ensures SegmentAt(m1, at) == SegmentAt(m, at)
  {
    hide Word;
    HeaderKept(m, m1, file, size, at);
    HeaderKept(m, m1, file, size, at + 4);
    HeaderKept(m, m1, file, size, at + 12);
    HeaderKept(m, m1, file, size, at + 16);
    HeaderKept(m, m1, file, size, at + 20);
  }

  /** The two loops over one loadable segment whose header is at `ph`. */
  method LoadSegment(mem: array<Byte>, file: nat, ph: nat, ghost size: nat)
    requires file + size <= mem.Length && file <= ph && ph + PHDR_SIZE <= file + size
    requires SegmentAt(mem[..], ph).kind == PT_LOAD && SegmentFits(SegmentAt(mem[..], ph), file, size, mem.Length)
    modifies mem
    ensures mem[..] == Place(old(mem[..]), file, size, SegmentAt(old(mem[..]), ph))
  {
    hide Word, Place;
    ghost var m, s := mem[..], SegmentAt(mem[..], ph);
    var src, dest := file + Word(mem[..], ph + 4), Word(mem[..], ph + 12);
    var j := 0;
    while j < Word(mem[..], ph + 16)
      invariant 0 <= j <= s.filesz
      invariant forall k :: dest <= k < dest + j ==> mem[k] == m[src + k - dest]
      invariant forall k :: 0 <= k < dest || dest + j <= k < mem.Length ==> mem[k] == m[k]
      decreases s.filesz - j
    {
      HeaderUntouched(m, mem[..], file, size, ph);
      mem[dest + j] := mem[src + j];
      j := j + 1;
    }
    HeaderUntouched(m, mem[..], file, size, ph);
    dest := dest + j;
    var fill := (Word(mem[..], ph + 20) - Word(mem[..], ph + 16)) % UINT32;
    ghost var copied := mem[..];
    j := 0;
    while j < fill
      invariant 0 <= j <= fill == s.memsz - s.filesz
      invariant forall k :: dest <= k < dest + j ==> mem[k] == 0
      invariant forall k :: 0 <= k < dest || dest + j <= k < mem.Length ==> mem[k] == copied[k]
    {
      mem[dest + j] := 0;
      j := j + 1;
    }
    PlaceByByte(m, mem[..], file, size, s);
  }

  lemma HeaderUntouched(m: Bytes, m1: Bytes, file: nat, size: nat, ph: nat)
    requires |m| == |m1| && file + size <= |m| && file <= ph && ph + PHDR_SIZE <= file + size
    requires forall k :: file <= k < file + size ==> m1[k] == m[k]
    ensures Word(m1, ph + 16) == Word(m, ph + 16) && Word(m1, ph + 20) == Word(m, ph + 20)
  {
    hide Word;
    assert m[file..file + size] == m1[file..file + size];
    HeaderKept(m, m1, file, size, ph + 16);
    HeaderKept(m, m1, file, size, ph + 20);
  }

  lemma PlaceByByte(m: Bytes, m1: Bytes, file: nat, size: nat, s: Segment)
    requires SegmentFits(s, file, size, |m|) && file + size <= |m| == |m1| && s.kind == PT_LOAD
    requires forall k :: s.paddr <= k < s.paddr + s.filesz ==> m1[k] == m[file + s.offset + k - s.paddr]
    requires forall k :: s.paddr + s.filesz <= k < s.paddr + s.memsz ==> m1[k] == 0
    requires forall k :: 0 <= k < s.paddr || s.paddr + s.memsz <= k < |m| ==> m1[k] == m[k]
    ensures m1 == Place(m, file, size, s)
  {
    var image, src := Image(m, file, s), file + s.offset;
    assert |image| == s.memsz;
    forall k | s.paddr <= k < s.paddr + s.filesz
      ensures m1[k] == image[k - s.paddr]
    {
      assert image[k - s.paddr] == m[src..src + s.filesz][k - s.paddr];
    }
  }

  lemma LoadedNone(m: Bytes, file: nat, size: nat)
    requires WellFormed(m, file, size)
    ensures Loaded(m, file, size, 0) == m
  {
  }

  lemma LoadedStep(m: Bytes, file: nat, size: nat, i: nat)
    requires WellFormed(m, file, size) && i < Count(m, file)
    ensures SegmentFits(SegmentNo(m, file, i), file, size, |m|)
    ensures Loaded(m, file, size, i + 1) == Place(Loaded(m, file, size, i), file, size, SegmentNo(m, file, i))
    ensures var ph := TableAt(m, file) + i * PHDR_SIZE;
            ph + PHDR_SIZE <= file + size && SegmentNo(m, file, i) == SegmentAt(m, ph)
  {
    hide Word, Half, Place;
  }

  method ReloadElfFile(mem: array<Byte>, file: nat, ghost size: nat) returns (entry: nat)
    requires file + EHDR_SIZE <= mem.Length
    requires IsElf(mem[..], file) ==> WellFormed(mem[..], file, size)
    modifies mem
    ensures !old(IsElf(mem[..], file)) ==> entry == 0 && mem[..] == old(mem[..])
    ensures old(IsElf(mem[..], file)) ==>
              && entry == Entry(old(mem[..]), file)
              && mem[..] == Loaded(old(mem[..]), file, size, Count(old(mem[..]), file))
  {
    hide Word, Half, Loaded, Overwrite, Image;
    if mem[file] != MAGIC[0] || mem[file + 1] != MAGIC[1] || mem[file + 2] != MAGIC[2] || mem[file + 3] != MAGIC[3] {
      return 0;
    }
    ghost var m, n := mem[..], Count(mem[..], file);
    assert m[file..file + 4] == MAGIC;
    var table := file + Word(mem[..], file + 28);
    var i := 0;
    LoadedNone(m, file, size);
    while i < Half(mem[..], file + 44)
      invariant 0 <= i <= n
      invariant mem[..] == Loaded(m, file, size, i)
      decreases n - i
    {
      var ph := table + i * PHDR_SIZE;
      HeaderKept(m, mem[..], file, size, file + 44);
      LoadedStep(m, file, size, i);
      SegmentKept(m, mem[..], file, size, ph);
      if Word(mem[..], ph) == PT_LOAD {
        LoadSegment(mem, file, ph, size);
      }
      i := i + 1;
    }
    HeaderKept(m, mem[..], file, size, file + 44);
    HeaderKept(m, mem[..], file, size, file + 24);
    entry := Word(mem[..], file + 24);
  }

  // ---- what a loaded image looks like ----

  /** Two segments that both load do not meet in memory. */
  predicate Apart(s: Segment, r: Segment) {
    s.kind == PT_LOAD && r.kind == PT_LOAD ==> s.paddr + s.memsz <= r.paddr || r.paddr + r.memsz <= s.paddr
  }

  predicate Covers(s: Segment, k: nat) {
    s.kind == PT_LOAD && s.paddr <= k < s.paddr + s.memsz
  }

  lemma PlaceAt(m: Bytes, file: nat, size: nat, s: Segment, k: nat)
    requires SegmentFits(s, file, size, |m|) && file + size <= |m| && k < |m|
    ensures !Covers(s, k) ==> Place(m, file, size, s)[k] == m[k]
    ensures Covers(s, k) ==> Place(m, file, size, s)[k] == Image(m, file, s)[k - s.paddr]
  {
  }

  /** All memory outside the destinations is left alone. */
  lemma {:induction false} ElsewhereUnchanged(m: Bytes, file: nat, size: nat, n: nat, k: nat)
    requires WellFormed(m, file, size) && n <= Count(m, file) && k < |m|
    requires forall i :: 0 <= i < n ==> !Covers(SegmentNo(m, file, i), k)
    ensures Loaded(m, file, size, n)[k] == m[k]
    decreases n
  {
    hide Place, SegmentNo, Half, Word;
    if n == 0 {
      LoadedNone(m, file, size);
    } else {
      ElsewhereUnchanged(m, file, size, n - 1, k);
      LoadedStep(m, file, size, n - 1);
      NextSegment(m, file, size, n - 1);
      PlaceAt(Loaded(m, file, size, n - 1), file, size, SegmentNo(m, file, n - 1), k);
    }
  }

  /** The file has not changed when segment `i` comes up, so neither have its header and its bytes. */
  lemma NextSegment(m: Bytes, file: nat, size: nat, i: nat)
    requires WellFormed(m, file, size) && i < Count(m, file)
    ensures var s, before := SegmentNo(m, file, i), Loaded(m, file, size, i);
            SegmentFits(s, file, size, |before|) &&
            (s.kind == PT_LOAD ==> Image(before, file, s) == Image(m, file, s))
  {
    hide Place, SegmentNo, Half, Word, Loaded;
    var s, before := SegmentNo(m, file, i), Loaded(m, file, size, i);
    assert SegmentFits(SegmentNo(m, file, i), file, size, |m|);
    if s.kind == PT_LOAD {
      Slice(before, file, size, s.offset, s.filesz);
      Slice(m, file, size, s.offset, s.filesz);
    }
  }

  lemma Slice(m: Bytes, file: nat, size: nat, a: nat, n: nat)
    requires file + size <= |m| && a + n <= size
    ensures m[file + a..file + a + n] == m[file..file + size][a..a + n]
  {
    var whole, part := m[file..file + size], m[file + a..file + a + n];
    forall k | 0 <= k < n
      ensures part[k] == whole[a..a + n][k]
    {
      assert whole[a + k] == m[file + a + k];
    }
  }

  /** Byte for byte: a loadable segment that no later one overlaps ends up as its file bytes followed by zeros. */
  lemma {:induction false} SegmentByte(m: Bytes, file: nat, size: nat, n: nat, i: nat, k: nat)
    requires WellFormed(m, file, size) && i < n <= Count(m, file) && Covers(SegmentNo(m, file, i), k)
    requires forall j :: i < j < n ==> Apart(SegmentNo(m, file, i), SegmentNo(m, file, j))
    ensures var s := SegmentNo(m, file, i);
            SegmentFits(s, file, size, |m|) && k < |m| && Loaded(m, file, size, n)[k] == Image(m, file, s)[k - s.paddr]
    decreases n
  {
    hide Place, SegmentNo, Half, Word, Loaded, Image;
    var s := SegmentNo(m, file, i);
    assert SegmentFits(SegmentNo(m, file, i), file, size, |m|);
    LoadedStep(m, file, size, n - 1);
    NextSegment(m, file, size, n - 1);
    PlaceAt(Loaded(m, file, size, n - 1), file, size, SegmentNo(m, file, n - 1), k);
    if i < n - 1 {
      SegmentByte(m, file, size, n - 1, i, k);
    }
  }

  /** Loading is correct: with destinations apart from each other, each loadable segment's memory is its file bytes
      followed by zeros. */
  lemma SegmentsInPlace(m: Bytes, file: nat, size: nat, i: nat)
    requires WellFormed(m, file, size) && i < Count(m, file) && SegmentNo(m, file, i).kind == PT_LOAD
    requires forall a, b :: 0 <= a < b < Count(m, file) ==> Apart(SegmentNo(m, file, a), SegmentNo(m, file, b))
    ensures var s, r := SegmentNo(m, file, i), Loaded(m, file, size, Count(m, file));
            && SegmentFits(s, file, size, |m|)
            && r[s.paddr..s.paddr + s.filesz] == m[file + s.offset..file + s.offset + s.filesz]
            && (forall k :: s.paddr + s.filesz <= k < s.paddr + s.memsz ==> r[k] == 0)
  {
    hide SegmentNo, Half, Word, Loaded;
    var n, s := Count(m, file), SegmentNo(m, file, i);
    assert SegmentFits(SegmentNo(m, file, i), file, size, |m|);
    var r := Loaded(m, file, size, n);
    forall k | s.paddr <= k < s.paddr + s.memsz
      ensures r[k] == Image(m, file, s)[k - s.paddr]
    {
      SegmentByte(m, file, size, n, i, k);
    }
    var src := m[file + s.offset..file + s.offset + s.filesz];
    forall k | 0 <= k < s.filesz
      ensures r[s.paddr..s.paddr + s.filesz][k] == src[k]
    {
      assert r[s.paddr + k] == Image(m, file, s)[s.paddr + k - s.paddr];
    }
  }
}
