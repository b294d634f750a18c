/**
 Reads the deployment minima of the Intel slices of a Mach-O file, thin or fat,
 of either byte order, straight from its load commands.
 */
module MachO {
  import opened Options
  import opened Versions

  type Byte = x: nat | x < 256
  type Bytes = seq<Byte>

  datatype Fault =
    | Truncated | FatCount | FatBounds | SliceMagic | CommandBounds | CommandSize
    | ShortBuild | WrongPlatform | ShortMinimum | Inconsistent

  datatype Reading<T> = Fine(value: T) | Bad(fault: Fault)

  const INTEL := 0x01000007
  const OBJECT := 1
  const BUILD_VERSION := 0x32
  const VERSION_MIN := 0x24

  // ------------------------------------------------------------------ numbers

  /** The number the bytes from `at` to `end` spell, the most significant first. */
  function BigEndian(data: Bytes, at: nat, end: nat): nat
    requires at <= end <= |data|
    decreases end - at
  {
    if at == end then 0 else 0x100 * BigEndian(data, at, end - 1) + data[end - 1] as int
  }

  /** The same, the least significant first. */
  function LittleEndian(data: Bytes, at: nat, end: nat): nat
    requires at <= end <= |data|
    decreases end - at
  {
    if at == end then 0 else 0x100 * LittleEndian(data, at + 1, end) + data[at] as int
  }

  /** The 32-bit number at `at`. */
  function Word(data: Bytes, at: nat, big: bool): nat
    requires at + 4 <= |data|
  {
    if big then BigEndian(data, at, at + 4) else LittleEndian(data, at, at + 4)
  }

  function DoubleWord(data: Bytes, at: nat, big: bool): nat
    requires at + 8 <= |data|
  {
    if big then BigEndian(data, at, at + 8) else LittleEndian(data, at, at + 8)
  }

  // ------------------------------------------------------------------- magics

  datatype Thin = Thin(big: bool, header: nat)
  datatype Fat = Fat(big: bool, wide: bool)

  function ThinMagic(magic: Bytes): Option<Thin> {
    if magic == [0xce, 0xfa, 0xed, 0xfe] then Some(Thin(false, 28))
    else if magic == [0xcf, 0xfa, 0xed, 0xfe] then Some(Thin(false, 32))
    else if magic == [0xfe, 0xed, 0xfa, 0xce] then Some(Thin(true, 28))
    else if magic == [0xfe, 0xed, 0xfa, 0xcf] then Some(Thin(true, 32))
    else None
  }

  function FatMagic(magic: Bytes): Option<Fat> {
    if magic == [0xca, 0xfe, 0xba, 0xbe] then Some(Fat(true, false))
    else if magic == [0xbe, 0xba, 0xfe, 0xca] then Some(Fat(false, false))
    else if magic == [0xca, 0xfe, 0xba, 0xbf] then Some(Fat(true, true))
    else if magic == [0xbf, 0xba, 0xfe, 0xca] then Some(Fat(false, true))
    else None
  }

  // ------------------------------------------------------------ load commands

  /** The minimum one command states, if it is a command that states one. */
  function Stated(data: Bytes, at: nat, length: nat, big: bool): Reading<seq<string>>
    requires 8 <= length && at + length <= |data|
  {
    var command := Word(data, at, big);
    if command == BUILD_VERSION then
      if length < 24 then Bad(ShortBuild)
      else if Word(data, at + 8, big) != 1 then Bad(WrongPlatform)
      else Fine([PackedVersion(Word(data, at + 12, big))])
    else if command == VERSION_MIN then
      if length < 16 then Bad(ShortMinimum) else Fine([PackedVersion(Word(data, at + 8, big))])
    else Fine([])
  }

  /** What walking the commands finds, and where it stops. */
  datatype Walked = Walked(found: seq<string>, stop: nat)

  function Prepend(found: seq<string>, r: Reading<Walked>): Reading<Walked> {
    if r.Bad? then r else Fine(Walked(found + r.value.found, r.value.stop))
  }

  /** One command: what it states, and where the next one begins. */
  datatype Entry = Entry(stated: seq<string>, next: nat)

  function ReadEntry(data: Bytes, at: nat, end: nat, big: bool): Reading<Entry>
    requires end <= |data|
  {
    if at + 8 > end then Bad(Truncated)
    else
      var length := Word(data, at + 4, big);
      if length < 8 || at + length > end then Bad(CommandSize)
      else
        var stated := Stated(data, at, length, big);
        if stated.Bad? then Bad(stated.fault) else Fine(Entry(stated.value, at + length))
  }

  /** The commands of a region that ends at `end`, by where they begin. */
  function Entries(data: Bytes, end: nat, big: bool): nat -> Reading<Entry>
    requires end <= |data|
  {
    (at: nat) => ReadEntry(data, at, end, big)
  }

  function Walk(entries: nat -> Reading<Entry>, at: nat, count: nat): Reading<Walked>
    decreases count
  {
    if count == 0 then Fine(Walked([], at))
    else
      var entry := entries(at);
      if entry.Bad? then Bad(entry.fault) else Prepend(entry.value.stated, Walk(entries, entry.value.next, count - 1))
  }

  /** The minima of the slice of `length` bytes at `offset`. */
  function SliceMinimums(data: Bytes, offset: nat, length: nat): Reading<seq<string>>
    requires offset + length <= |data|
  {
    if length < 4 then Bad(Truncated)
    else
      var style := ThinMagic(data[offset..offset + 4]);
      if style.None? then Bad(SliceMagic)
      else if style.value.header > length then Bad(Truncated)
      else LoadableMinimums(data, offset, length, style.value)
  }

  datatype Header = Header(cpu: nat, kind: nat, count: nat, bytes: nat)

  function ReadHeader(data: Bytes, offset: nat, big: bool): Header
    requires offset + 24 <= |data|
  {
    Header(Word(data, offset + 4, big), Word(data, offset + 12, big), Word(data, offset + 16, big), Word(data, offset + 20, big))
  }

  /** An image for Intel that is not an object file. */
  predicate Loadable(h: Header) { h.cpu == INTEL && h.kind != OBJECT }

  /** The commands must fill their region, and state something. */
  function Conclude(walked: Reading<Walked>, end: nat): Reading<seq<string>> {
    if walked.Bad? then Bad(walked.fault)
    else if walked.value.stop != end || walked.value.found == [] then Bad(Inconsistent)
    else Fine(walked.value.found)
  }

  function LoadableMinimums(data: Bytes, offset: nat, length: nat, style: Thin): Reading<seq<string>>
    requires 28 <= style.header <= length && offset + length <= |data|
  {
    var h, start := ReadHeader(data, offset, style.big), offset + style.header;
    if !Loadable(h) then Fine([])
    else if style.header + h.bytes > length || h.count > h.bytes / 8 then Bad(CommandBounds)
    else Conclude(Walk(Entries(data, start + h.bytes, style.big), start, h.count), start + h.bytes)
  }

  // --------------------------------------------------------------- fat tables

  datatype Slice = Slice(offset: nat, length: nat)

  function EntrySize(wide: bool): nat { if wide then 32 else 20 }

  function EntrySlice(data: Bytes, at: nat, fat: Fat): Slice
    requires at + EntrySize(fat.wide) <= |data|
  {
    if fat.wide then Slice(DoubleWord(data, at + 8, fat.big), DoubleWord(data, at + 16, fat.big))
    else Slice(Word(data, at + 8, fat.big), Word(data, at + 12, fat.big))
  }

  /** The slice that one entry names, if it is for Intel. */
  function ReadRow(data: Bytes, fat: Fat, count: nat, index: nat): Reading<seq<Slice>> {
    var at := 8 + index * EntrySize(fat.wide);
    if at + EntrySize(fat.wide) > |data| then Bad(Truncated)
    else
      var slice := EntrySlice(data, at, fat);
      if slice.offset < 8 + count * EntrySize(fat.wide) || slice.offset + slice.length > |data| then Bad(FatBounds)
      else if Word(data, at, fat.big) == INTEL then Fine([slice])
      else Fine([])
  }

  function TableReader(data: Bytes, fat: Fat, count: nat): nat -> Reading<seq<Slice>> {
    (index: nat) => ReadRow(data, fat, count, index)
  }

  /** The Intel slices the entries from `index` on name. */
  function FatSlices(rows: nat -> Reading<seq<Slice>>, index: nat, count: nat): Reading<seq<Slice>>
    requires index <= count
    decreases count - index
  {
    if index == count then Fine([])
    else
      var row := rows(index);
      if row.Bad? then row else PrependSlices(row.value, FatSlices(rows, index + 1, count))
  }

  function PrependSlices(slices: seq<Slice>, r: Reading<seq<Slice>>): Reading<seq<Slice>> {
    if r.Bad? then r else Fine(slices + r.value)
  }

  function PrependMinima(found: seq<string>, r: Reading<seq<string>>): Reading<seq<string>> {
    if r.Bad? then r else Fine(found + r.value)
  }

  /** A slice that is not in the file cannot be read. */
  function ReadSliceAt(data: Bytes, slice: Slice): Reading<seq<string>> {
    if slice.offset + slice.length > |data| then Bad(Truncated) else SliceMinimums(data, slice.offset, slice.length)
  }

  function SliceReader(data: Bytes): Slice -> Reading<seq<string>> { (slice: Slice) => ReadSliceAt(data, slice) }

  function AllMinimums(read: Slice -> Reading<seq<string>>, slices: seq<Slice>): Reading<seq<string>> {
    if slices == [] then Fine([])
    else
      var first := read(slices[0]);
      if first.Bad? then first else PrependMinima(first.value, AllMinimums(read, slices[1..]))
  }

  datatype Layout = NotMachO | Slices(slices: seq<Slice>)

  /** Which slices a file has. */
  function LayoutOf(data: Bytes, isClass: bool): Reading<Layout> {
    var magic := if |data| < 4 then data else data[..4];
    var fat := FatMagic(magic);
    if fat.Some? then
      if |data| < 8 then Bad(Truncated)
      else
        var count := Word(data, 4, fat.value.big);
        if !(1 <= count <= 64) then (if isClass then Fine(NotMachO) else Bad(FatCount))
        else
          var slices := FatSlices(TableReader(data, fat.value, count), 0, count);
          if slices.Bad? then Bad(slices.fault) else Fine(Slices(slices.value))
    else if ThinMagic(magic).None? then Fine(NotMachO)
    else Fine(Slices([Slice(0, |data|)]))
  }

  ghost predicate Answers(data: Bytes, isClass: bool, r: Reading<seq<string>>) {
    var layout := LayoutOf(data, isClass);
    if layout.Bad? then r == Bad(layout.fault)
    else if layout.value.NotMachO? then r == Fine([])
    else r == AllMinimums(SliceReader(data), layout.value.slices)
  }

  // -------------------------------------------------------------- the loops

  lemma WalkedSoFar(found: seq<string>, more: seq<string>, r: Reading<Walked>)
    ensures Prepend([], r) == r && Prepend(found, Prepend(more, r)) == Prepend(found + more, r)
  {
    if r.Fine? {
      assert [] + r.value.found == r.value.found;
      assert found + (more + r.value.found) == found + more + r.value.found;
    }
  }

  lemma SlicesSoFar(slices: seq<Slice>, more: seq<Slice>, r: Reading<seq<Slice>>)
    ensures PrependSlices([], r) == r && PrependSlices(slices, PrependSlices(more, r)) == PrependSlices(slices + more, r)
  {
    if r.Fine? {
      assert [] + r.value == r.value;
      assert slices + (more + r.value) == slices + more + r.value;
    }
  }

  lemma MinimaSoFar(found: seq<string>, more: seq<string>, r: Reading<seq<string>>)
    ensures PrependMinima([], r) == r && PrependMinima(found, PrependMinima(more, r)) == PrependMinima(found + more, r)
  {
    if r.Fine? {
      assert [] + r.value == r.value;
      assert found + (more + r.value) == found + more + r.value;
    }
  }

  /** What one command states, and where the next one begins. */
  method ReadCommand(data: Bytes, start: nat, end: nat, big: bool) returns (r: Reading<Entry>)
    requires end <= |data|
    ensures r == ReadEntry(data, start, end, big)
  {
    if start + 8 > end { return Bad(Truncated); }
    var command, length := Word(data, start, big), Word(data, start + 4, big);
    if length < 8 || start + length > end { return Bad(CommandSize); }
    if command == 0x32 {
      if length < 24 { return Bad(ShortBuild); }
      var platform, minimum := Word(data, start + 8, big), Word(data, start + 12, big);
      if platform != 1 { return Bad(WrongPlatform); }
      return Fine(Entry([PackedVersion(minimum)], start + length));
    } else if command == 0x24 {
      if length < 16 { return Bad(ShortMinimum); }
      return Fine(Entry([PackedVersion(Word(data, start + 8, big))], start + length));
    }
    return Fine(Entry([], start + length));
  }

  method WalkCommands(data: Bytes, from: nat, end: nat, count: nat, big: bool) returns (r: Reading<Walked>)
    requires end <= |data|
    ensures r == Walk(Entries(data, end, big), from, count)
  {
    var start: nat := from;
    var found := [];
    WalkedSoFar([], [], Walk(Entries(data, end, big), from, count));
    for i := 0 to count
      invariant Walk(Entries(data, end, big), from, count) == Prepend(found, Walk(Entries(data, end, big), start, count - i))
    {
      var entry := ReadCommand(data, start, end, big);
      if entry.Bad? { return Bad(entry.fault); }
      WalkedSoFar(found, entry.value.stated, Walk(Entries(data, end, big), entry.value.next, count - i - 1));
      found, start := found + entry.value.stated, entry.value.next;
    }
    assert found + [] == found;
    return Fine(Walked(found, start));
  }

  method ReadSlices(data: Bytes, fat: Fat, count: nat) returns (r: Reading<seq<Slice>>)
    ensures r == FatSlices(TableReader(data, fat, count), 0, count)
  {
    var slices := [];
    ghost var rows := TableReader(data, fat, count);
    SlicesSoFar([], [], FatSlices(rows, 0, count));
    for index := 0 to count
      invariant FatSlices(rows, 0, count) == PrependSlices(slices, FatSlices(rows, index, count))
    {
      var at := 8 + index * EntrySize(fat.wide);
      if at + EntrySize(fat.wide) > |data| { return Bad(Truncated); }
      var cpu, slice := Word(data, at, fat.big), EntrySlice(data, at, fat);
      if slice.offset < 8 + count * EntrySize(fat.wide) || slice.offset + slice.length > |data| { return Bad(FatBounds); }
      var named := if cpu == 0x01000007 then [slice] else [];
      SlicesSoFar(slices, named, FatSlices(rows, index + 1, count));
      slices := slices + named;
    }
    assert slices + [] == slices;
    return Fine(slices);
  }

  method ReadSlice(data: Bytes, slice: Slice) returns (r: Reading<seq<string>>)
    requires slice.offset + slice.length <= |data|
    ensures r == SliceMinimums(data, slice.offset, slice.length)
  {
    var offset, limit := slice.offset, slice.offset + slice.length;
    if offset + 4 > limit { return Bad(Truncated); }
    var style := ThinMagic(data[offset..offset + 4]);
    if style.None? { return Bad(SliceMagic); }
    var big, header := style.value.big, style.value.header;
    if offset + header > limit { return Bad(Truncated); }
    var cpu, kind := Word(data, offset + 4, big), Word(data, offset + 12, big);
    var count, bytes := Word(data, offset + 16, big), Word(data, offset + 20, big);
    if cpu != 0x01000007 || kind == 1 { return Fine([]); }
    var end := offset + header + bytes;
    if end > limit || count > bytes / 8 { return Bad(CommandBounds); }
    var walked := WalkCommands(data, offset + header, end, count, big);
    if walked.Bad? { return Bad(walked.fault); }
    if walked.value.stop != end || walked.value.found == [] { return Bad(Inconsistent); }
    return Fine(walked.value.found);
  }

  method ReadAll(data: Bytes, slices: seq<Slice>) returns (r: Reading<seq<string>>)
    ensures r == AllMinimums(SliceReader(data), slices)
  {
    var minima := [];
    assert slices[0..] == slices;
    MinimaSoFar([], [], AllMinimums(SliceReader(data), slices));
    for i := 0 to |slices|
      invariant AllMinimums(SliceReader(data), slices) == PrependMinima(minima, AllMinimums(SliceReader(data), slices[i..]))
    {
      assert slices[i..][1..] == slices[i + 1..];
      if slices[i].offset + slices[i].length > |data| { return Bad(Truncated); }
      var found := ReadSlice(data, slices[i]);
      if found.Bad? { return found; }
      MinimaSoFar(minima, found.value, AllMinimums(SliceReader(data), slices[i + 1..]));
      minima := minima + found.value;
    }
    assert minima + [] == minima;
    return Fine(minima);
  }

  /** The minima of a file; `isClass` says whether it is named like a Java class. */
  method IntelMinimums(data: Bytes, isClass: bool) returns (r: Reading<seq<string>>)
    ensures Answers(data, isClass, r)
  {
    var magic := if |data| < 4 then data else data[..4];
    var slices := [Slice(0, |data|)];
    var fat := FatMagic(magic);
    if fat.Some? {
      if |data| < 8 { return Bad(Truncated); }
      var count := Word(data, 4, fat.value.big);
      if count < 1 || count > 64 {
        if isClass { return Fine([]); }
        return Bad(FatCount);
      }
      var named := ReadSlices(data, fat.value, count);
      if named.Bad? { return Bad(named.fault); }
      slices := named.value;
    } else if ThinMagic(magic).None? {
      return Fine([]);
    }
    r := ReadAll(data, slices);
  }
}
