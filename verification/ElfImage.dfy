/** ELF files written down field by field, as elf.h lays them out, and what the loader makes of them. */
module ElfImage {
  import L = Loader

  type Half = n: nat | n < 0x1_0000
  type Word = n: nat | n < 0x1_0000_0000

  /** `Elf32_Ehdr`, after the four magic bytes; `ident` is the rest of `e_ident`. */
  datatype Header = Header(
    ident: seq<L.Byte>,
    kind: Half, machine: Half, version: Word,
    entry: Word, phoff: Word, shoff: Word, flags: Word,
    ehsize: Half, phentsize: Half, phnum: Half, shentsize: Half, shnum: Half, shstrndx: Half)

  /** `Elf32_Phdr` */
  datatype ProgramHeader = ProgramHeader(
    kind: Word, offset: Word, vaddr: Word, paddr: Word, filesz: Word, memsz: Word, flags: Word, align: Word)

  /** `n` in `count` bytes, the lowest first. */
  function LittleEndian(n: nat, count: nat): (b: seq<L.Byte>)
    ensures |b| == count
  {
    if count == 0 then [] else [(n % 0x100) as L.Byte] + LittleEndian(n / 0x100, count - 1)
  }

  function Half2(n: Half): (b: seq<L.Byte>)
    ensures |b| == 2
  {
    LittleEndian(n, 2)
  }

  function Word4(n: Word): (b: seq<L.Byte>)
    ensures |b| == 4
  {
    LittleEndian(n, 4)
  }

  function HeaderBytes(h: Header): (b: seq<L.Byte>)
    requires |h.ident| == 12
    ensures |b| == 52
  {
    [0x7F, 0x45, 0x4C, 0x46] + h.ident +
    Half2(h.kind) + Half2(h.machine) + Word4(h.version) +
    Word4(h.entry) + Word4(h.phoff) + Word4(h.shoff) + Word4(h.flags) +
    Half2(h.ehsize) + Half2(h.phentsize) + Half2(h.phnum) + Half2(h.shentsize) + Half2(h.shnum) + Half2(h.shstrndx)
  }

  function ProgramHeaderBytes(p: ProgramHeader): (b: seq<L.Byte>)
    ensures |b| == 32
  {
    Word4(p.kind) + Word4(p.offset) + Word4(p.vaddr) + Word4(p.paddr) +
    Word4(p.filesz) + Word4(p.memsz) + Word4(p.flags) + Word4(p.align)
  }

  /** `f` is an ELF file with the header `h` and the program headers `ps`; what else it holds is left open. */
  ghost predicate IsFile(f: seq<L.Byte>, h: Header, ps: seq<ProgramHeader>) {
    && |h.ident| == 12 && h.phnum == |ps|
    && 52 <= |f| && f[..52] == HeaderBytes(h)
    && h.phoff + 32 * |ps| <= |f|
    && (forall i {:trigger ps[i]} :: 0 <= i < |ps| ==> f[h.phoff + 32 * i..][..32] == ProgramHeaderBytes(ps[i]))
  }

  /** Segment `p` has its bytes in the file, and a place in memory clear of the file. */
  predicate Placeable(p: ProgramHeader, file: nat, size: nat, limit: nat) {
    && p.filesz <= p.memsz && p.offset + p.filesz <= size && p.paddr + p.memsz <= limit
    && (p.paddr + p.memsz <= file || file + size <= p.paddr)
  }

  predicate Loads(p: ProgramHeader) {
    p.kind == 1
  }

  /** Address `k` belongs to a segment that loads. */
  predicate Claimed(ps: seq<ProgramHeader>, k: nat) {
    exists i :: 0 <= i < |ps| && Loads(ps[i]) && ps[i].paddr <= k < ps[i].paddr + ps[i].memsz
  }

  /** The file `f` lies at address `file`, and its segments can be loaded side by side. */
  ghost predicate Loadable(m: seq<L.Byte>, file: nat, f: seq<L.Byte>, ps: seq<ProgramHeader>) {
    && file + |f| <= |m| && m[file..file + |f|] == f
    && (forall i :: 0 <= i < |ps| && Loads(ps[i]) ==> Placeable(ps[i], file, |f|, |m|))
    && (forall i, j :: 0 <= i < j < |ps| && Loads(ps[i]) && Loads(ps[j]) ==>
          ps[i].paddr + ps[i].memsz <= ps[j].paddr || ps[j].paddr + ps[j].memsz <= ps[i].paddr)
  }

  // ---- reading back what was written ----

  lemma WordComesBack(m: seq<L.Byte>, at: nat, n: Word)
    requires at + 4 <= |m| && m[at..at + 4] == Word4(n)
    ensures L.Word(m, at) == n
  {
    var b := Word4(n);
    assert b[0] == m[at] && b[1] == m[at + 1] && b[2] == m[at + 2] && b[3] == m[at + 3];
    FourBytes(n);
  }

  lemma FourBytes(n: Word)
    ensures var b := Word4(n);
            n == b[0] as int + 0x100 * b[1] as int + 0x1_0000 * b[2] as int + 0x100_0000 * b[3] as int
  {
    var b1, b2 := LittleEndian(n / 0x100, 3), LittleEndian(n / 0x100 / 0x100, 2);
    var b3 := LittleEndian(n / 0x100 / 0x100 / 0x100, 1);
    assert Word4(n) == [(n % 0x100) as L.Byte] + b1;
    assert b1 == [(n / 0x100 % 0x100) as L.Byte] + b2;
    assert b2 == [(n / 0x100 / 0x100 % 0x100) as L.Byte] + b3;
    assert b3[0] == (n / 0x100 / 0x100 / 0x100 % 0x100) as L.Byte;
  }

  lemma HalfComesBack(m: seq<L.Byte>, at: nat, n: Half)
    requires at + 2 <= |m| && m[at..at + 2] == Half2(n)
    ensures L.Half(m, at) == n
  {
    var b, b1 := Half2(n), LittleEndian(n / 0x100, 1);
    assert b[0] == m[at] && b[1] == m[at + 1];
    assert b == [(n % 0x100) as L.Byte] + b1 && b1[0] == (n / 0x100 % 0x100) as L.Byte;
  }

  /** Part of a part. */
  lemma Part(m: seq<L.Byte>, a: nat, b: seq<L.Byte>, i: nat, n: nat)
    requires a + |b| <= |m| && m[a..a + |b|] == b && i + n <= |b|
    ensures m[a + i..a + i + n] == b[i..i + n]
  {
    var whole, x, y := m[a..a + |b|], m[a + i..a + i + n], b[i..i + n];
    forall k | 0 <= k < n
      ensures x[k] == y[k]
    {
      assert whole[i + k] == b[i + k];
    }
  }

  lemma HeaderFields(h: Header)
    requires |h.ident| == 12
    ensures var b := HeaderBytes(h);
            && b[0..4] == [0x7F, 0x45, 0x4C, 0x46] && b[24..28] == Word4(h.entry)
            && b[28..32] == Word4(h.phoff) && b[44..46] == Half2(h.phnum)
  {
    hide LittleEndian;
  }

  lemma ProgramHeaderFields(p: ProgramHeader)
    ensures var b := ProgramHeaderBytes(p);
            && b[0..4] == Word4(p.kind) && b[4..8] == Word4(p.offset) && b[12..16] == Word4(p.paddr)
            && b[16..20] == Word4(p.filesz) && b[20..24] == Word4(p.memsz)
  {
    hide LittleEndian;
  }

  lemma HeaderRead(m: seq<L.Byte>, file: nat, f: seq<L.Byte>, h: Header, ps: seq<ProgramHeader>)
    requires IsFile(f, h, ps) && file + |f| <= |m| && m[file..file + |f|] == f
    ensures L.IsElf(m, file) && L.Entry(m, file) == h.entry && L.TableAt(m, file) == file + h.phoff
    ensures L.Count(m, file) == |ps|
  {
    hide L.Word, L.Half, HeaderBytes, Word4, Half2;
    var b := HeaderBytes(h);
    Part(m, file, f, 0, 52);
    assert f[0..52] == f[..52];
    HeaderFields(h);
    Part(m, file, b, 0, 4);
    Part(m, file, b, 24, 4);
    Part(m, file, b, 28, 4);
    Part(m, file, b, 44, 2);
    WordComesBack(m, file + 24, h.entry);
    WordComesBack(m, file + 28, h.phoff);
    HalfComesBack(m, file + 44, h.phnum);
  }

  /** What the loader reads of a program header. */
  function Read(p: ProgramHeader): L.Segment {
    L.Segment(p.kind, p.offset, p.paddr, p.filesz, p.memsz)
  }

  lemma ProgramHeaderRead(m: seq<L.Byte>, file: nat, f: seq<L.Byte>, h: Header, ps: seq<ProgramHeader>, i: nat)
    requires IsFile(f, h, ps) && file + |f| <= |m| && m[file..file + |f|] == f && i < |ps|
    ensures L.SegmentNo(m, file, i) == Read(ps[i])
  {
    hide L.Word, L.Half, HeaderBytes, ProgramHeaderBytes, Word4, Half2;
    HeaderRead(m, file, f, h, ps);
    var at, b := h.phoff + 32 * i, ProgramHeaderBytes(ps[i]);
    Part(m, file, f, at, 32);
    assert f[at..][..32] == f[at..at + 32];
    ProgramHeaderFields(ps[i]);
    Part(m, file + at, b, 0, 4);
    Part(m, file + at, b, 4, 4);
    Part(m, file + at, b, 12, 4);
    Part(m, file + at, b, 16, 4);
    Part(m, file + at, b, 20, 4);
    WordComesBack(m, file + at, ps[i].kind);
    WordComesBack(m, file + at + 4, ps[i].offset);
    WordComesBack(m, file + at + 12, ps[i].paddr);
    WordComesBack(m, file + at + 16, ps[i].filesz);
    WordComesBack(m, file + at + 20, ps[i].memsz);
  }

  lemma FileWellFormed(m: seq<L.Byte>, file: nat, f: seq<L.Byte>, h: Header, ps: seq<ProgramHeader>)
    requires IsFile(f, h, ps) && Loadable(m, file, f, ps)
    ensures L.IsElf(m, file) && L.Entry(m, file) == h.entry && L.Count(m, file) == |ps|
    ensures L.WellFormed(m, file, |f|)
    ensures forall i {:trigger ps[i]} :: 0 <= i < |ps| ==> L.SegmentNo(m, file, i) == Read(ps[i])
  {
    hide L.Word, L.Half, L.SegmentNo, L.Entry, HeaderBytes, ProgramHeaderBytes;
    HeaderRead(m, file, f, h, ps);
    forall i | 0 <= i < |ps|
      ensures L.SegmentNo(m, file, i) == Read(ps[i])
    {
      ProgramHeaderRead(m, file, f, h, ps, i);
    }
  }

  // ---- loading ----

  lemma SegmentLoaded(m: seq<L.Byte>, file: nat, f: seq<L.Byte>, h: Header, ps: seq<ProgramHeader>, i: nat)
    requires IsFile(f, h, ps) && Loadable(m, file, f, ps) && i < |ps| && Loads(ps[i])
    ensures L.WellFormed(m, file, |f|) && Placeable(ps[i], file, |f|, |m|)
    ensures var p, r := ps[i], L.Loaded(m, file, |f|, L.Count(m, file));
            && r[p.paddr..p.paddr + p.filesz] == f[p.offset..p.offset + p.filesz]
            && (forall k :: p.paddr + p.filesz <= k < p.paddr + p.memsz ==> r[k] == 0)
  {
    hide L.Word, L.Half, L.SegmentNo, L.Loaded, L.Count, L.Entry, L.IsElf, L.TableAt, HeaderBytes, ProgramHeaderBytes,
      IsFile, L.WellFormed;
    FileWellFormed(m, file, f, h, ps);
    HeaderFits(f, h, ps);
    forall a, b | 0 <= a < b < |ps|
      ensures L.Apart(L.SegmentNo(m, file, a), L.SegmentNo(m, file, b))
    {
      assert ps[a] == ps[a] && ps[b] == ps[b];
    }
    L.SegmentsInPlace(m, file, |f|, i);
    Part(m, file, f, ps[i].offset, ps[i].filesz);
  }

  lemma OthersLoaded(m: seq<L.Byte>, file: nat, f: seq<L.Byte>, h: Header, ps: seq<ProgramHeader>, k: nat)
    requires IsFile(f, h, ps) && Loadable(m, file, f, ps) && k < |m| && !Claimed(ps, k)
    ensures L.WellFormed(m, file, |f|) && L.Loaded(m, file, |f|, L.Count(m, file))[k] == m[k]
  {
    hide L.Word, L.Half, L.SegmentNo, L.Loaded, L.Count, L.Entry, L.IsElf, L.TableAt, HeaderBytes, ProgramHeaderBytes,
      IsFile, L.WellFormed;
    FileWellFormed(m, file, f, h, ps);
    HeaderFits(f, h, ps);
    forall i | 0 <= i < |ps|
      ensures !L.Covers(L.SegmentNo(m, file, i), k)
    {
      assert ps[i] == ps[i];
    }
    L.ElsewhereUnchanged(m, file, |f|, L.Count(m, file), k);
  }

  /** Loading is right for every file written as elf.h lays it out: the entry point comes back, each segment's bytes and
      zeros stand at its own physical address, and all other memory is as it was. */
  method LoadFile(mem: array<L.Byte>, file: nat, ghost f: seq<L.Byte>, ghost h: Header, ghost ps: seq<ProgramHeader>)
    returns (entry: nat)
    requires IsFile(f, h, ps) && Loadable(mem[..], file, f, ps)
    modifies mem
    ensures entry == h.entry
    ensures forall i {:trigger ps[i]} :: 0 <= i < |ps| && Loads(ps[i]) ==>
              var p := ps[i];
              && Placeable(p, file, |f|, mem.Length)
              && mem[p.paddr..p.paddr + p.filesz] == f[p.offset..p.offset + p.filesz]
              && (forall k :: p.paddr + p.filesz <= k < p.paddr + p.memsz ==> mem[k] == 0)
    ensures forall k :: 0 <= k < mem.Length && !Claimed(ps, k) ==> mem[k] == old(mem[k])
  {
    hide L.Word, L.Half, L.SegmentNo, L.Loaded, L.Count, L.Entry, L.IsElf, L.TableAt, HeaderBytes, ProgramHeaderBytes,
      IsFile, L.WellFormed, Claimed;
    ghost var m := mem[..];
    FileWellFormed(m, file, f, h, ps);
    HeaderFits(f, h, ps);
    entry := L.ReloadElfFile(mem, file, |f|);
    ghost var r := mem[..];
    forall i {:trigger ps[i]} | 0 <= i < |ps| && Loads(ps[i])
      ensures var p := ps[i];
              && Placeable(p, file, |f|, mem.Length)
              && mem[p.paddr..p.paddr + p.filesz] == f[p.offset..p.offset + p.filesz]
              && (forall k :: p.paddr + p.filesz <= k < p.paddr + p.memsz ==> mem[k] == 0)
    {
      SegmentLoaded(m, file, f, h, ps, i);
      assert mem[ps[i].paddr..ps[i].paddr + ps[i].filesz] == r[ps[i].paddr..ps[i].paddr + ps[i].filesz];
      assert forall k :: ps[i].paddr + ps[i].filesz <= k < ps[i].paddr + ps[i].memsz ==> mem[k] == r[k];
    }
    forall k | 0 <= k < mem.Length && !Claimed(ps, k)
      ensures mem[k] == m[k]
    {
      OthersLoaded(m, file, f, h, ps, k);
      assert mem[k] == r[k];
    }
  }

  lemma HeaderFits(f: seq<L.Byte>, h: Header, ps: seq<ProgramHeader>)
    requires IsFile(f, h, ps)
    ensures |f| >= 52
  {
  }

  /** What the loader takes for an ELF file: the four magic bytes and no others. */
  lemma MagicExactlyWhen(m: seq<L.Byte>, file: nat)
    requires file + 52 <= |m|
    ensures L.IsElf(m, file) <==>
            m[file] == 0x7F && m[file + 1] == 0x45 && m[file + 2] == 0x4C && m[file + 3] == 0x46
  {
    var b := m[file..file + 4];
    assert b[0] == m[file] && b[1] == m[file + 1] && b[2] == m[file + 2] && b[3] == m[file + 3];
  }
}
