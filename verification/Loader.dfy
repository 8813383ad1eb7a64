/** simulator/elf_reader.cpp and simulator/unified_mem.cpp: the words of the loaded sections go into
    the simulator's memory and are read back from it. */
module Loader {

  const WORDS := 1024 * 1024 * 256
  const U32 := 0x1_0000_0000

  /** The word addresses of 32 bits. */
  const INDICES := 0x4000_0000

  /** A 32-bit value as a signed int. */
  function Signed(v: nat): int
    requires v < U32
  {
    if 2 * v >= U32 then v - U32 else v
  }

  /** A signed int as a 32-bit value. */
  function Unsigned(v: int): (u: nat)
    requires -U32 <= 2 * v < U32
    ensures u < U32 && Signed(u) == v
  {
    if v < 0 then v + U32 else v
  }

  predicate Int32(v: int) { -U32 <= 2 * v < U32 }

  /** The memory of the simulator: an array that is zeroed by the first access. */
  class Memory {
    const mem: array<nat>
    var initialized: bool

    ghost predicate Valid()
      reads this, mem
    {
      mem.Length == WORDS && forall i :: 0 <= i < mem.Length ==> mem[i] < U32
    }

    /** The word at an index, as the next access will find it. */
    function Word(i: int): nat
      reads this, mem
    {
      if initialized && 0 <= i < mem.Length then mem[i] else 0
    }

    constructor ()
      ensures Valid() && fresh(mem) && forall i :: Word(i) == 0
    {
      mem := new nat[WORDS](_ => 0);
      initialized := false;
    }

    method Initialize()
      requires Valid()
      modifies this`initialized, mem
      ensures Valid() && initialized && forall i :: Word(i) == old(Word(i))
    {
      if !initialized {
        var k := 0;
        while k < mem.Length
          invariant 0 <= k <= mem.Length
          invariant forall i :: 0 <= i < k ==> mem[i] == 0
          invariant forall i :: 0 <= i < mem.Length ==> mem[i] < U32
        {
          mem[k] := 0;
          k := k + 1;
        }
        initialized := true;
      }
    }

    /** read_mem: the word, or 0 outside the memory.  The memory keeps its contents. */
    method ReadMem(addr: int) returns (r: int)
      requires Valid() && Int32(addr)
      modifies this`initialized, mem
      ensures Valid() && (forall i :: Word(i) == old(Word(i)))
      ensures Int32(r) && Unsigned(r) == Word(addr / 4)
    {
      Initialize();
      var index := addr / 4;
      if 0 <= index < WORDS {
        r := Signed(mem[index]);
      } else {
        r := 0;
      }
    }

    /** write_mem: nothing outside the memory. */
    method WriteMem(addr: int, data: int)
      requires Valid() && Int32(addr) && Int32(data)
      modifies this`initialized, mem
      ensures Valid()
      ensures forall i :: Word(i) == if i == addr / 4 && 0 <= i < WORDS then Unsigned(data) else old(Word(i))
    {
      Initialize();
      var index := addr / 4;
      if 0 <= index < WORDS {
        mem[index] := Unsigned(data);
      }
    }

    /** The loop over the words of one section.  It takes whole words, the last of them from beyond the
        end of the data if need be; then what is left of the data goes into the word after that. */
    method LoadSection(section: Section)
      requires Valid() && section.Loadable()
      modifies this`initialized, mem
      ensures Valid() && forall i :: Word(i) == if section.Covers(i) then section.WordOf(i) else old(Word(i))
    {
      hide Section.Number, Section.WordAt, Section.WholeWords, LittleEndian, Valid;
      var addr := section.addr % U32;
      var offset := 0;
      ghost var n := 0;
      while offset < |section.data|
        invariant Valid() && 0 <= n <= section.WholeWords() && offset == 4 * n && addr == (section.addr + offset) % U32
        invariant forall i :: Word(i) == if 0 <= i < WORDS && section.Number(i) < n then section.WordOf(i)
            else old(Word(i))
      {
        section.WholeWordAt(n);
        NextAddress(section.addr, offset);
        LoadWord(section, n, addr, LittleEndian((section.data + section.beyond)[offset..offset + 4]));
        addr := (addr + 4) % U32;
        offset := offset + 4;
        n := n + 1;
      }
      section.WordsEnd(n);
      if |section.data| % 4 != 0 {
        var remaining := |section.data| % 4;
        section.LastWordAt();
        LoadWord(section, n, addr, LittleEndian(section.data[|section.data| - remaining..] + Zeros(4 - remaining)));
      }
    }

    method LoadWord(section: Section, ghost n: nat, addr: nat, w: nat)
      requires Valid() && section.Loadable() && n < section.Count() && addr == (section.addr + 4 * n) % U32
      requires w < U32 && w == section.WordAt(n)
      modifies this`initialized, mem
      ensures Valid()
      ensures forall i :: Word(i) == if 0 <= i < WORDS && section.Number(i) == n then section.WordOf(i)
          else old(Word(i))
    {
      section.NextNumber(n, addr);
      hide Section.Number, Section.WordAt, Valid;
      WriteMem(Signed(addr), Signed(w));
    }

    /** The loop over the sections of the file. */
    method LoadAll(sections: seq<Section>)
      requires Valid() && forall k :: 0 <= k < |sections| && sections[k].Selected() ==> sections[k].Loadable()
      modifies this`initialized, mem
      ensures Valid() && forall i :: Word(i) == Loaded(sections, i, old(Word(i)))
    {
      var k := 0;
      while k < |sections|
        invariant 0 <= k <= |sections| && Valid()
        invariant forall i :: Word(i) == Loaded(sections[..k], i, old(Word(i)))
      {
        assert sections[..k + 1][..k] == sections[..k];
        if sections[k].Selected() {
          LoadSection(sections[k]);
        }
        k := k + 1;
      }
      assert sections[..k] == sections;
    }
  }

  predicate Bytes(b: seq<nat>) { forall k :: 0 <= k < |b| ==> b[k] < 256 }

  /** The four bytes of a word, lowest address first. */
  function LittleEndian(b: seq<nat>): (w: nat)
    requires |b| == 4 && Bytes(b)
    ensures w < U32
  {
    b[0] + 0x100 * b[1] + 0x1_0000 * b[2] + 0x100_0000 * b[3]
  }

  function Zeros(n: nat): seq<nat> { seq(n, k => 0) }

  /** A section of the file: NOBITS and empty sections are passed over, and only .text and .data are
      loaded.  `beyond` is what the three bytes behind the data happen to hold. */
  datatype Section = Section(name: string, nobits: bool, addr: nat, data: seq<nat>, beyond: seq<nat>) {
    predicate Selected() { !nobits && data != [] && (name == ".text" || name == ".data") }

    /** Sizes of 32 bits, and bytes. */
    predicate Loadable() {
      && |data| + 8 <= U32 && |beyond| == 3
      && Bytes(data) && Bytes(beyond)
    }

    /** The words taken from the data, and all words written. */
    function WholeWords(): nat { (|data| + 3) / 4 }

    function Count(): nat { WholeWords() + if |data| % 4 != 0 then 1 else 0 }

    /** Word number n. */
    function WordAt(n: nat): nat
      requires Loadable() && n < Count()
    {
      if n < WholeWords() then LittleEndian((data + beyond)[4 * n..4 * n + 4])
      else
        var remaining := |data| % 4;
        LittleEndian(data[|data| - remaining..] + Zeros(4 - remaining))
    }

    /** The number of the word for an index of the memory; addresses wrap around at 32 bits. */
    function Number(i: int): (n: nat)
      ensures n < INDICES
    {
      (i - addr % U32 / 4) % INDICES
    }

    /** The section has a word for this index of the memory; words beyond the memory are dropped. */
    predicate Covers(i: int) { 0 <= i < WORDS && Number(i) < Count() }

    /** The word of the section at an index of the memory. */
    function WordOf(i: int): nat
      requires Loadable() && Covers(i)
    {
      WordAt(Number(i))
    }

    /** n words reach the end of the data exactly when they are all the whole words. */
    lemma WordsEnd(n: nat)
      ensures 4 * n < |data| <==> n < WholeWords()
    {
    }

    lemma WholeWordAt(n: nat)
      requires Loadable() && 4 * n < |data|
      ensures n < WholeWords() && 4 * n + 4 <= |data + beyond|
      ensures Bytes((data + beyond)[4 * n..4 * n + 4])
      ensures WordAt(n) == LittleEndian((data + beyond)[4 * n..4 * n + 4])
    {
    }

    lemma LastWordAt()
      requires Loadable() && |data| % 4 != 0
      ensures var bytes := data[|data| - |data| % 4..] + Zeros(4 - |data| % 4);
              |bytes| == 4 && Bytes(bytes) && WordAt(WholeWords()) == LittleEndian(bytes)
    {
    }

    /** Word number n is written at the index that has this number. */
    lemma NextNumber(n: nat, a: nat)
      requires n < INDICES && a == (addr + 4 * n) % U32
      ensures forall i :: 0 <= i < WORDS ==> (Number(i) == n <==> i == Signed(a) / 4)
    {
      WordIndex(addr, n, a);
      forall i | 0 <= i < WORDS
        ensures Number(i) == n <==> i == Signed(a) / 4
      {
        SignedIndex(a, i);
        WrapsTo(addr % U32 / 4, n, i);
        hide Signed;
      }
    }
  }

  lemma NextAddress(addr: nat, offset: nat)
    ensures ((addr + offset) % U32 + 4) % U32 == (addr + (offset + 4)) % U32
  {
  }

  lemma WordIndex(addr: nat, n: nat, a: nat)
    requires a == (addr + 4 * n) % U32
    ensures a / 4 == (addr % U32 / 4 + n) % INDICES
  {
    var b := addr % U32;
    assert a == (b + 4 * n) % U32;
    assert b == 4 * (b / 4) + b % 4;
    assert 4 * (b / 4 + n) == U32 * ((b / 4 + n) / INDICES) + 4 * ((b / 4 + n) % INDICES);
  }

  /** Addresses from 2^31 on are negative, and lead outside the memory. */
  lemma SignedIndex(a: nat, i: nat)
    requires a < U32 && i < WORDS
    ensures i == Signed(a) / 4 <==> i == a / 4
  {
    if 2 * a >= U32 {
      assert Signed(a) < 0;
      assert a >= 4 * WORDS;
    }
  }

  lemma WrapsTo(first: nat, n: nat, i: nat)
    requires first < INDICES && n < INDICES && i < INDICES
    ensures (i - first) % INDICES == n <==> i == (first + n) % INDICES
  {
  }

  /** Byte k of a word, lowest first. */
  function ByteOf(w: nat, k: nat): nat { if k == 0 then w % 0x100 else ByteOf(w / 0x100, k - 1) }

  lemma LowByte(x: nat, y: nat)
    requires x < 0x100
    ensures (x + 0x100 * y) % 0x100 == x && (x + 0x100 * y) / 0x100 == y
  {
  }

  lemma BytesOfWord(b: seq<nat>, k: nat)
    requires |b| == 4 && Bytes(b) && k < 4
    ensures ByteOf(LittleEndian(b), k) == b[k]
  {
    var w2 := b[2] + 0x100 * b[3];
    var w1 := b[1] + 0x100 * w2;
    assert LittleEndian(b) == b[0] + 0x100 * w1;
    LowByte(b[0], w1);
    LowByte(b[1], w2);
    LowByte(b[2], b[3]);
    hide LittleEndian;
    assert ByteOf(w1, 0) == b[1] && ByteOf(w2, 0) == b[2] && ByteOf(b[3], 0) == b[3];
    assert ByteOf(w1, 1) == ByteOf(w2, 0) && ByteOf(w1, 2) == ByteOf(w2, 1) == ByteOf(b[3], 0);
  }

  /** Whatever the size of a section, its byte k is byte k % 4 of its word k / 4. */
  lemma SectionBytes(section: Section, k: nat)
    requires section.Loadable() && k < |section.data|
    ensures k / 4 < section.WholeWords() && ByteOf(section.WordAt(k / 4), k % 4) == section.data[k]
  {
    var n := k / 4;
    var all := section.data + section.beyond;
    BytesOfWord(all[4 * n..4 * n + 4], k % 4);
  }

  /** A section inside the memory changes no word that holds none of its bytes exactly when its size is
      a multiple of 4; otherwise the word behind them gets a second copy of the bytes of the last. */
  lemma OwnWordsIff(section: Section)
    requires section.Loadable() && section.addr / 4 + section.Count() <= WORDS
    ensures (forall i :: section.Covers(i) ==> 4 * section.Number(i) < |section.data|) <==> |section.data| % 4 == 0
  {
    if |section.data| % 4 != 0 {
      var i := section.addr / 4 + section.WholeWords();
      assert section.Number(i) == section.WholeWords();
      assert section.Covers(i);
    }
  }

  /** That word. */
  lemma SecondCopy(section: Section, k: nat)
    requires section.Loadable() && |section.data| % 4 != 0 && k < 4
    ensures var remaining := |section.data| % 4;
            ByteOf(section.WordAt(section.WholeWords()), k) ==
            if k < remaining then section.data[|section.data| - remaining + k] else 0
  {
    var remaining := |section.data| % 4;
    BytesOfWord(section.data[|section.data| - remaining..] + Zeros(4 - remaining), k);
  }

  /** What the memory holds after loading: a later section overwrites an earlier one. */
  function Loaded(sections: seq<Section>, i: int, before: nat): nat
    requires forall k :: 0 <= k < |sections| && sections[k].Selected() ==> sections[k].Loadable()
  {
    if sections == [] then before
    else
      var last := sections[|sections| - 1];
      if last.Selected() && last.Covers(i) then last.WordOf(i) else Loaded(sections[..|sections| - 1], i, before)
  }

  // ---------- what is loaded, by the names of the sections ----------

  /** The section is .text or .data, has contents, and one of its words goes to this index. */
  predicate LoadsWord(s: Section, i: int) {
    && (s.name == ".text" || s.name == ".data") && !s.nobits && |s.data| > 0
    && 0 <= i < 0x1000_0000
    && (i - s.addr % 0x1_0000_0000 / 4) % 0x4000_0000 < (|s.data| + 3) / 4 + (if |s.data| % 4 != 0 then 1 else 0)
  }

  /** Sections named .text and .data with contents are of 32-bit size. */
  predicate AllLoadable(sections: seq<Section>) {
    forall k :: 0 <= k < |sections| ==>
      (sections[k].name == ".text" || sections[k].name == ".data") && !sections[k].nobits && |sections[k].data| > 0 ==>
        sections[k].Loadable()
  }

  /** Byte j of what the section puts at this index: of its data as long as there are any, then of what
      lies behind them; and in the word after that the bytes of the last word once more, with zeros. */
  function ByteAt(s: Section, i: int, j: nat): nat
    requires |s.beyond| == 3 && LoadsWord(s, i) && j < 4
  {
    var n := (i - s.addr % 0x1_0000_0000 / 4) % 0x4000_0000;
    var left := |s.data| % 4;
    if 4 * n + j < |s.data| then s.data[4 * n + j]
    else if 4 * n < |s.data| then s.beyond[4 * n + j - |s.data|]
    else if j < left then s.data[|s.data| - left + j]
    else 0
  }

  lemma SectionAt(s: Section, i: int, j: nat)
    requires s.Loadable() && s.Covers(i) && LoadsWord(s, i) && j < 4
    ensures ByteOf(s.WordOf(i), j) == ByteAt(s, i, j)
  {
    var n := s.Number(i);
    hide ByteOf, LittleEndian;
    if n < s.WholeWords() {
      var all := s.data + s.beyond;
      s.WholeWordAt(n);
      BytesOfWord(all[4 * n..4 * n + 4], j);
    } else {
      SecondCopy(s, j);
    }
  }

  lemma SameCover(s: Section, i: int)
    ensures LoadsWord(s, i) <==> s.Selected() && s.Covers(i)
  {
  }

  /** After loading, the word at an index has the bytes of the last section that is named .text or .data,
      is not NOBITS nor empty, and reaches this index. */
  lemma {:induction false} LoadedBytes(sections: seq<Section>, i: int, before: nat, k: nat, j: nat)
    requires AllLoadable(sections) && k < |sections| && j < 4 && LoadsWord(sections[k], i)
    requires forall l :: k < l < |sections| ==> !LoadsWord(sections[l], i)
    ensures sections[k].Loadable() && ByteOf(Loaded(sections, i, before), j) == ByteAt(sections[k], i, j)
    decreases |sections|
  {
    var n := |sections| - 1;
    SameCover(sections[n], i);
    hide ByteOf, ByteAt, LoadsWord;
    if k == n {
      SectionAt(sections[k], i, j);
    } else {
      LoadedBytes(sections[..n], i, before, k, j);
    }
  }

  /** Where no such section reaches, the memory holds what it held. */
  lemma {:induction false} NothingLoaded(sections: seq<Section>, i: int, before: nat)
    requires AllLoadable(sections) && forall l :: 0 <= l < |sections| ==> !LoadsWord(sections[l], i)
    ensures Loaded(sections, i, before) == before
    decreases |sections|
  {
    if sections != [] {
      var n := |sections| - 1;
      SameCover(sections[n], i);
      hide LoadsWord;
      NothingLoaded(sections[..n], i, before);
    }
  }

  /** For example. */
  lemma FourBytes(name: string, beyond: seq<nat>, before: nat)
    requires |beyond| == 3 && Bytes(beyond)
    ensures
      var sections := [Section(name, false, 0x1000, [1, 2, 3, 4], beyond)];
      Loaded(sections, 0x400, before) == if name == ".text" || name == ".data" then 0x0403_0201 else before
  {
    var s := Section(name, false, 0x1000, [1, 2, 3, 4], beyond);
    assert [s][..0] == [];
    assert s.Number(0x400) == 0;
    assert (s.data + beyond)[0..4] == [1, 2, 3, 4];
  }

  /** Loading is read back: at an address covered by one of the selected sections only, the memory
      holds that section's word; at an address covered by none, what it held before. */
  lemma {:induction false} LoadedReadsBack(sections: seq<Section>, i: int, before: nat, k: nat)
    requires forall l :: 0 <= l < |sections| && sections[l].Selected() ==> sections[l].Loadable()
    requires k < |sections| ==> sections[k].Selected() && sections[k].Covers(i)
    requires forall l :: 0 <= l < |sections| && l != k && sections[l].Selected() ==> !sections[l].Covers(i)
    ensures Loaded(sections, i, before) == if k < |sections| then sections[k].WordOf(i) else before
    decreases |sections|
  {
    if sections != [] && k != |sections| - 1 {
      LoadedReadsBack(sections[..|sections| - 1], i, before, if k < |sections| then k else |sections| - 1);
    }
  }
}
