/**
 What the reader accepts, and that it reads back every well-formed image: thin
 or fat, 32 or 64 bits wide, of either byte order.
 */
module MachOFormat {
  import opened Options
  import opened Versions
  import opened MachO

  // ------------------------------------------------------------------ tiling

  /** A command can be read at `at` exactly when it is long enough, ends in the region, and is sound. */
  lemma EntryIsCommand(data: Bytes, at: nat, end: nat, big: bool)
    requires end <= |data|
    ensures ReadEntry(data, at, end, big).Fine? <==>
            at + 8 <= end && var length := Word(data, at + 4, big);
                             8 <= length && at + length <= end && Stated(data, at, length, big).Fine?
    ensures ReadEntry(data, at, end, big).Fine? ==>
            at + 8 <= ReadEntry(data, at, end, big).value.next == at + Word(data, at + 4, big) <= end
  {
  }

  /** From one cut a readable command leads to the next. */
  predicate Leads(cuts: seq<nat>, entries: nat -> Reading<Entry>, i: nat)
    requires i + 1 < |cuts|
  {
    entries(cuts[i]).Fine? && entries(cuts[i]).value.next == cuts[i + 1]
  }

  /** Readable commands lie edge to edge from `at` to `end`, cut at `cuts`. */
  ghost predicate Tiles(cuts: seq<nat>, entries: nat -> Reading<Entry>, at: nat, end: nat) {
    && cuts != [] && cuts[0] == at && cuts[|cuts| - 1] == end
    && (forall i: nat :: i + 1 < |cuts| ==> Leads(cuts, entries, i))
  }

  /** One of the commands states a minimum. */
  ghost predicate SomeStates(cuts: seq<nat>, entries: nat -> Reading<Entry>) {
    exists i :: 0 <= i < |cuts| - 1 && entries(cuts[i]).Fine? && entries(cuts[i]).value.stated != []
  }

  ghost predicate Advances(entries: nat -> Reading<Entry>) {
    forall at: nat :: entries(at).Fine? ==> at + 8 <= entries(at).value.next
  }

  lemma LaterTiles(cuts: seq<nat>, entries: nat -> Reading<Entry>, at: nat, end: nat)
    requires Tiles(cuts, entries, at, end) && |cuts| > 1
    ensures entries(at).Fine? && entries(at).value.next == cuts[1] && Tiles(cuts[1..], entries, cuts[1], end)
    ensures SomeStates(cuts, entries) <==> entries(at).value.stated != [] || SomeStates(cuts[1..], entries)
  {
    var rest := cuts[1..];
    assert Leads(cuts, entries, 0);
    forall i: nat | i + 1 < |rest| ensures Leads(rest, entries, i) { assert Leads(cuts, entries, i + 1); }
    assert forall i :: 0 <= i < |rest| ==> rest[i] == cuts[i + 1];
    if i :| 0 <= i < |cuts| - 1 && entries(cuts[i]).Fine? && entries(cuts[i]).value.stated != [] {
      assert i > 0 ==> rest[i - 1] == cuts[i];
    }
  }

  lemma {:induction false} TilesWalk(cuts: seq<nat>, entries: nat -> Reading<Entry>, at: nat, end: nat)
    requires Tiles(cuts, entries, at, end) && Advances(entries)
    ensures var walked := Walk(entries, at, |cuts| - 1);
            walked.Fine? && walked.value.stop == end && (walked.value.found != [] <==> SomeStates(cuts, entries))
    ensures at + 8 * (|cuts| - 1) <= end
    decreases |cuts|
  {
    if |cuts| > 1 {
      LaterTiles(cuts, entries, at, end);
      TilesWalk(cuts[1..], entries, cuts[1], end);
    }
  }

  lemma {:induction false} WalkTiles(entries: nat -> Reading<Entry>, at: nat, end: nat, count: nat) returns (cuts: seq<nat>)
    requires Walk(entries, at, count).Fine? && Walk(entries, at, count).value.stop == end
    ensures Tiles(cuts, entries, at, end) && |cuts| == count + 1
    decreases count
  {
    if count == 0 {
      cuts := [at];
    } else {
      var rest := WalkTiles(entries, entries(at).value.next, end, count - 1);
      cuts := [at] + rest;
      forall i: nat | i + 1 < |cuts| ensures Leads(cuts, entries, i) { if i > 0 { assert Leads(rest, entries, i - 1); } }
    }
  }

  /** `count` commands fill the region from edge to edge, and one states a minimum. */
  ghost predicate WellTiled(entries: nat -> Reading<Entry>, start: nat, end: nat, count: nat) {
    exists cuts :: Tiles(cuts, entries, start, end) && |cuts| == count + 1 && SomeStates(cuts, entries)
  }

  lemma WalkExactly(entries: nat -> Reading<Entry>, start: nat, end: nat, count: nat)
    requires Advances(entries)
    ensures Conclude(Walk(entries, start, count), end).Fine? <==> WellTiled(entries, start, end, count)
    ensures WellTiled(entries, start, end, count) ==> start + 8 * count <= end
  {
    var walked := Walk(entries, start, count);
    if walked.Fine? && walked.value.stop == end {
      var cuts := WalkTiles(entries, start, end, count);
      TilesWalk(cuts, entries, start, end);
    }
    if WellTiled(entries, start, end, count) {
      var cuts :| Tiles(cuts, entries, start, end) && |cuts| == count + 1 && SomeStates(cuts, entries);
      TilesWalk(cuts, entries, start, end);
    }
  }

  lemma EntriesAdvance(data: Bytes, end: nat, big: bool)
    requires end <= |data|
    ensures Advances(Entries(data, end, big))
  {
    forall at: nat | Entries(data, end, big)(at).Fine? ensures at + 8 <= Entries(data, end, big)(at).value.next {
      EntryIsCommand(data, at, end, big);
    }
  }

  /** More commands than the region has room for could not tile it. */
  lemma CountedExactly(entries: nat -> Reading<Entry>, start: nat, bytes: nat, count: nat)
    requires Advances(entries)
    ensures WellTiled(entries, start, start + bytes, count) <==>
            count <= bytes / 8 && Conclude(Walk(entries, start, count), start + bytes).Fine?
  {
    WalkExactly(entries, start, start + bytes, count);
  }

  /** What a loadable slice comes to, with its header and its commands given. */
  lemma LoadableIs(data: Bytes, offset: nat, length: nat, style: Thin, start: nat, h: Header, end: nat)
    requires 28 <= style.header <= length && offset + length <= |data|
    requires start == offset + style.header && h == ReadHeader(data, offset, style.big) && Loadable(h) && end == start + h.bytes
    ensures end > offset + length ==> LoadableMinimums(data, offset, length, style).Bad?
    ensures end <= offset + length ==>
      LoadableMinimums(data, offset, length, style) == CountedMinimums(Entries(data, end, style.big), start, h.bytes, h.count)
  {
  }

  function CountedMinimums(entries: nat -> Reading<Entry>, start: nat, bytes: nat, count: nat): Reading<seq<string>> {
    if count > bytes / 8 then Bad(CommandBounds) else Conclude(Walk(entries, start, count), start + bytes)
  }

  lemma AcceptedWithin(data: Bytes, style: Thin, start: nat, bytes: nat, count: nat, end: nat, r: Reading<seq<string>>)
    requires end == start + bytes <= |data| && r == CountedMinimums(Entries(data, end, style.big), start, bytes, count)
    ensures r.Fine? <==> WellTiled(Entries(data, end, style.big), start, end, count)
  {
    EntriesAdvance(data, end, style.big);
    CountedExactly(Entries(data, end, style.big), start, bytes, count);
  }

  /**
   A loadable Intel slice is accepted exactly when its commands fill their
   declared region from edge to edge, each is sound, and one states a minimum.
   */
  lemma AcceptedExactly(data: Bytes, offset: nat, length: nat, style: Thin, start: nat, h: Header)
    requires 28 <= style.header <= length && offset + length <= |data|
    requires start == offset + style.header && h == ReadHeader(data, offset, style.big) && Loadable(h)
    ensures LoadableMinimums(data, offset, length, style).Fine?
       <==> start + h.bytes <= offset + length && WellTiled(Entries(data, start + h.bytes, style.big), start, start + h.bytes, h.count)
  {
    LoadableIs(data, offset, length, style, start, h, start + h.bytes);
    if start + h.bytes <= offset + length {
      AcceptedWithin(data, style, start, h.bytes, h.count, start + h.bytes, LoadableMinimums(data, offset, length, style));
    }
  }

  // ---------------------------------------------------------------- locality

  lemma {:induction false} EndianIsLocal(data: Bytes, base: nat, length: nat, at: nat, end: nat)
    requires base + length <= |data| && at <= end <= length
    ensures BigEndian(data, base + at, base + end) == BigEndian(data[base..base + length], at, end)
    ensures LittleEndian(data, base + at, base + end) == LittleEndian(data[base..base + length], at, end)
    decreases end - at
  {
    if at < end {
      EndianIsLocal(data, base, length, at, end - 1);
      EndianIsLocal(data, base, length, at + 1, end);
    }
  }

  lemma WordIsLocal(data: Bytes, base: nat, length: nat, at: nat, big: bool)
    requires base + length <= |data| && at + 4 <= length
    ensures Word(data, base + at, big) == Word(data[base..base + length], at, big)
  {
    EndianIsLocal(data, base, length, at, at + 4);
  }

  lemma StatedIsLocal(data: Bytes, base: nat, length: nat, at: nat, step: nat, big: bool)
    requires base + length <= |data| && 8 <= step && at + step <= length
    ensures Stated(data, base + at, step, big) == Stated(data[base..base + length], at, step, big)
  {
    WordIsLocal(data, base, length, at, big);
    if step >= 16 {
      WordIsLocal(data, base, length, at + 8, big);
      WordIsLocal(data, base, length, at + 12, big);
    }
  }

  function MovedEntry(r: Reading<Entry>, base: nat): Reading<Entry> {
    if r.Bad? then r else Fine(Entry(r.value.stated, base + r.value.next))
  }

  lemma EntryIsLocal(data: Bytes, base: nat, length: nat, at: nat, end: nat, big: bool)
    requires base + length <= |data| && end <= length
    ensures ReadEntry(data, base + at, base + end, big) == MovedEntry(ReadEntry(data[base..base + length], at, end, big), base)
  {
    if at + 8 <= end {
      var step := Word(data[base..base + length], at + 4, big);
      WordIsLocal(data, base, length, at + 4, big);
      if step >= 8 && at + step <= end { StatedIsLocal(data, base, length, at, step, big); }
    }
  }

  /** A walk over a slice, seen from the whole file. */
  function Moved(r: Reading<Walked>, base: nat): Reading<Walked> {
    if r.Bad? then r else Fine(Walked(r.value.found, base + r.value.stop))
  }

  /** The same commands, seen from `base` further on. */
  ghost predicate Agree(file: nat -> Reading<Entry>, slice: nat -> Reading<Entry>, base: nat) {
    forall at: nat :: file(base + at) == MovedEntry(slice(at), base)
  }

  lemma {:induction false} WalkMoves(file: nat -> Reading<Entry>, slice: nat -> Reading<Entry>, base: nat, at: nat, count: nat)
    requires Agree(file, slice, base)
    ensures Walk(file, base + at, count) == Moved(Walk(slice, at, count), base)
    decreases count
  {
    if count > 0 && slice(at).Fine? { WalkMoves(file, slice, base, slice(at).value.next, count - 1); }
  }

  lemma WalkIsLocal(data: Bytes, base: nat, length: nat, at: nat, end: nat, count: nat, big: bool)
    requires base + length <= |data| && end <= length
    ensures Walk(Entries(data, base + end, big), base + at, count)
         == Moved(Walk(Entries(data[base..base + length], end, big), at, count), base)
  {
    var file, slice := Entries(data, base + end, big), Entries(data[base..base + length], end, big);
    forall at: nat ensures file(base + at) == MovedEntry(slice(at), base) {
      EntryIsLocal(data, base, length, at, end, big);
    }
    WalkMoves(file, slice, base, at, count);
  }

  lemma ConclusionMoves(walked: Reading<Walked>, end: nat, base: nat)
    ensures Conclude(Moved(walked, base), base + end) == Conclude(walked, end)
  {
  }

  lemma HeaderIsLocal(data: Bytes, offset: nat, length: nat, big: bool)
    requires 24 <= length && offset + length <= |data|
    ensures ReadHeader(data, offset, big) == ReadHeader(data[offset..offset + length], 0, big)
  {
    WordIsLocal(data, offset, length, 4, big);
    WordIsLocal(data, offset, length, 12, big);
    WordIsLocal(data, offset, length, 16, big);
    WordIsLocal(data, offset, length, 20, big);
  }

  lemma LoadableMoves(data: Bytes, offset: nat, slice: Bytes, style: Thin, h: Header)
    requires 28 <= style.header <= |slice| && offset + |slice| <= |data|
    requires ReadHeader(data, offset, style.big) == h && ReadHeader(slice, 0, style.big) == h
    requires style.header + h.bytes <= |slice| ==>
      Walk(Entries(data, offset + (style.header + h.bytes), style.big), offset + style.header, h.count)
      == Moved(Walk(Entries(slice, style.header + h.bytes, style.big), style.header, h.count), offset)
    ensures LoadableMinimums(data, offset, |slice|, style) == LoadableMinimums(slice, 0, |slice|, style)
  {
    if style.header + h.bytes <= |slice| {
      ConclusionMoves(Walk(Entries(slice, style.header + h.bytes, style.big), style.header, h.count), style.header + h.bytes, offset);
    }
  }

  lemma LoadableIsLocal(data: Bytes, offset: nat, length: nat, style: Thin)
    requires 28 <= style.header <= length && offset + length <= |data|
    ensures LoadableMinimums(data, offset, length, style) == LoadableMinimums(data[offset..offset + length], 0, length, style)
  {
    var slice := data[offset..offset + length];
    var h := ReadHeader(slice, 0, style.big);
    HeaderIsLocal(data, offset, length, style.big);
    if style.header + h.bytes <= length {
      WalkIsLocal(data, offset, length, style.header, style.header + h.bytes, h.count, style.big);
    }
    LoadableMoves(data, offset, slice, style, h);
  }

  /** Reading a slice looks at no byte outside it. */
  lemma SliceIsLocal(data: Bytes, offset: nat, length: nat)
    requires offset + length <= |data|
    ensures SliceMinimums(data, offset, length) == SliceMinimums(data[offset..offset + length], 0, length)
  {
    if length >= 4 {
      var magic := data[offset..offset + 4];
      assert magic == data[offset..offset + length][0..4];
      if ThinMagic(magic).Some? && ThinMagic(magic).value.header <= length {
        LoadableIsLocal(data, offset, length, ThinMagic(magic).value);
      }
    }
  }

  // ----------------------------------------------------------------- encoding

  function EncodeWord(n: nat, big: bool): (b: Bytes)
    requires n < 0x1_0000_0000
    ensures |b| == 4
  {
    var w, x, y, z := n / 0x100_0000, n / 0x1_0000 % 0x100, n / 0x100 % 0x100, n % 0x100;
    if big then [w, x, y, z] else [z, y, x, w]
  }

  lemma BytesOf(n: nat)
    ensures n == n / 0x100_0000 * 0x100_0000 + n / 0x1_0000 % 0x100 * 0x1_0000 + n / 0x100 % 0x100 * 0x100 + n % 0x100
  {
    assert n / 0x100 / 0x100 == n / 0x1_0000;
    assert n / 0x1_0000 / 0x100 == n / 0x100_0000;
  }

  /** The bytes from `at` on begin with a piece. */
  predicate Matches(data: Bytes, at: nat, piece: Bytes)
    requires at + |piece| <= |data|
    decreases |piece|
  {
    piece == [] || (data[at] == piece[0] && Matches(data, at + 1, piece[1..]))
  }

  /** A piece of a longer list of bytes. */
  predicate Holds(data: Bytes, at: nat, piece: Bytes) {
    at + |piece| <= |data| && Matches(data, at, piece)
  }

  lemma {:induction false} HoldsSlice(data: Bytes, at: nat, piece: Bytes)
    requires at + |piece| <= |data|
    ensures Holds(data, at, piece) <==> data[at..at + |piece|] == piece
    decreases |piece|
  {
    if piece != [] {
      HoldsSlice(data, at + 1, piece[1..]);
      assert data[at..at + |piece|] == [data[at]] + data[at + 1..at + |piece|];
      assert piece == [piece[0]] + piece[1..];
    }
  }

  lemma {:induction false} HoldsParts(data: Bytes, at: nat, a: Bytes, b: Bytes)
    requires Holds(data, at, a + b)
    ensures Holds(data, at, a) && Holds(data, at + |a|, b)
    decreases |a|
  {
    if a == [] {
      assert a + b == b;
    } else {
      assert (a + b)[1..] == a[1..] + b;
      HoldsParts(data, at + 1, a[1..], b);
    }
  }

  lemma HoldsThree(data: Bytes, at: nat, a: Bytes, b: Bytes, c: Bytes)
    requires Holds(data, at, a + b + c)
    ensures Holds(data, at, a) && Holds(data, at + |a|, b) && Holds(data, at + |a| + |b|, c)
  {
    HoldsParts(data, at, a + b, c);
    HoldsParts(data, at, a, b);
  }

  /** Any list holds itself. */
  lemma HoldsWhole(data: Bytes)
    ensures Holds(data, 0, data)
  {
    HoldsSlice(data, 0, data);
    assert data[0..|data|] == data;
  }

  lemma FourBytes(data: Bytes, at: nat)
    requires at + 4 <= |data|
    ensures BigEndian(data, at, at + 4)
         == data[at] as int * 0x100_0000 + data[at + 1] as int * 0x1_0000 + data[at + 2] as int * 0x100 + data[at + 3] as int
    ensures LittleEndian(data, at, at + 4)
         == data[at + 3] as int * 0x100_0000 + data[at + 2] as int * 0x1_0000 + data[at + 1] as int * 0x100 + data[at] as int
  {
    assert BigEndian(data, at, at + 1) == data[at] as int && BigEndian(data, at, at + 2) == 0x100 * BigEndian(data, at, at + 1) + data[at + 1] as int;
    assert LittleEndian(data, at + 3, at + 4) == data[at + 3] as int;
    assert LittleEndian(data, at + 2, at + 4) == 0x100 * LittleEndian(data, at + 3, at + 4) + data[at + 2] as int;
  }

  lemma WordReadsBack(data: Bytes, at: nat, n: nat, big: bool)
    requires n < 0x1_0000_0000 && Holds(data, at, EncodeWord(n, big))
    ensures Word(data, at, big) == n
  {
    var b := EncodeWord(n, big);
    BytesOf(n);
    FourBytes(data, at);
    HoldsSlice(data, at, b);
    var read := data[at..at + 4];
    assert read[0] == data[at] && read[1] == data[at + 1] && read[2] == data[at + 2] && read[3] == data[at + 3];
  }

  /** A load command: one of the two that state a minimum, or another. */
  datatype Command = Build(minimum: nat, rest: Bytes) | Legacy(minimum: nat, rest: Bytes) | Plain(id: nat, rest: Bytes)

  predicate SoundCommand(c: Command) {
    && |c.rest| < 0x1000_0000
    && match c
       case Build(minimum, rest) => minimum < 0x1_0000_0000 && |rest| >= 8
       case Legacy(minimum, rest) => minimum < 0x1_0000_0000 && |rest| >= 4
       case Plain(id, _) => id < 0x1_0000_0000 && id != BUILD_VERSION && id != VERSION_MIN
  }

  function Body(c: Command, big: bool): Bytes
    requires SoundCommand(c)
  {
    match c
    case Build(minimum, rest) => EncodeWord(1, big) + EncodeWord(minimum, big) + rest
    case Legacy(minimum, rest) => EncodeWord(minimum, big) + rest
    case Plain(_, rest) => rest
  }

  function CommandId(c: Command): nat {
    match c case Build(_, _) => BUILD_VERSION case Legacy(_, _) => VERSION_MIN case Plain(id, _) => id
  }

  function EncodeCommand(c: Command, big: bool): Bytes
    requires SoundCommand(c)
  {
    EncodeWord(CommandId(c), big) + EncodeWord(8 + |Body(c, big)|, big) + Body(c, big)
  }

  function MinimumOf(c: Command): seq<string> {
    if c.Plain? then [] else [PackedVersion(c.minimum)]
  }

  function MinimaOf(commands: seq<Command>): seq<string> {
    if commands == [] then [] else MinimumOf(commands[0]) + MinimaOf(commands[1..])
  }

  predicate SoundCommands(commands: seq<Command>) {
    forall i :: 0 <= i < |commands| ==> SoundCommand(commands[i])
  }

  function EncodeCommands(commands: seq<Command>, big: bool): Bytes
    requires SoundCommands(commands)
  {
    if commands == [] then [] else EncodeCommand(commands[0], big) + EncodeCommands(commands[1..], big)
  }

  /** The parts of a command, at their places. */
  lemma CommandParts(data: Bytes, at: nat, c: Command, big: bool)
    requires SoundCommand(c) && Holds(data, at, EncodeCommand(c, big))
    ensures Word(data, at, big) == CommandId(c) && Word(data, at + 4, big) == 8 + |Body(c, big)|
    ensures Holds(data, at + 8, Body(c, big)) && |EncodeCommand(c, big)| == 8 + |Body(c, big)|
  {
    var id, size, body := EncodeWord(CommandId(c), big), EncodeWord(8 + |Body(c, big)|, big), Body(c, big);
    HoldsThree(data, at, id, size, body);
    WordReadsBack(data, at, CommandId(c), big);
    WordReadsBack(data, at + 4, 8 + |body|, big);
  }

  lemma CommandReadsBack(data: Bytes, at: nat, c: Command, big: bool)
    requires SoundCommand(c) && Holds(data, at, EncodeCommand(c, big))
    ensures var length := |EncodeCommand(c, big)|;
            && length >= 8 && Word(data, at + 4, big) == length
            && Stated(data, at, length, big) == Fine(MinimumOf(c))
  {
    CommandParts(data, at, c, big);
    BodyReadsBack(data, at + 8, c, big);
  }

  lemma BodyReadsBack(data: Bytes, at: nat, c: Command, big: bool)
    requires SoundCommand(c) && Holds(data, at, Body(c, big))
    ensures c.Build? ==> Word(data, at, big) == 1 && Word(data, at + 4, big) == c.minimum
    ensures c.Legacy? ==> Word(data, at, big) == c.minimum
  {
    match c
    case Build(minimum, rest) =>
      HoldsParts(data, at, EncodeWord(1, big) + EncodeWord(minimum, big), rest);
      HoldsParts(data, at, EncodeWord(1, big), EncodeWord(minimum, big));
      WordReadsBack(data, at, 1, big);
      WordReadsBack(data, at + 4, minimum, big);
    case Legacy(minimum, rest) =>
      HoldsParts(data, at, EncodeWord(minimum, big), rest);
      WordReadsBack(data, at, minimum, big);
    case Plain(_, _) =>
  }

  lemma EntryReadsBack(data: Bytes, at: nat, end: nat, c: Command, big: bool)
    requires SoundCommand(c) && Holds(data, at, EncodeCommand(c, big)) && at + |EncodeCommand(c, big)| <= end <= |data|
    ensures ReadEntry(data, at, end, big) == Fine(Entry(MinimumOf(c), at + |EncodeCommand(c, big)|))
    ensures |EncodeCommand(c, big)| >= 8
  {
    CommandReadsBack(data, at, c, big);
  }

  lemma FirstAndRest(data: Bytes, at: nat, commands: seq<Command>, first: Bytes, rest: Bytes, big: bool)
    requires SoundCommands(commands) && commands != [] && Holds(data, at, EncodeCommands(commands, big))
    requires first == EncodeCommand(commands[0], big) && rest == EncodeCommands(commands[1..], big)
    ensures Holds(data, at, first) && Holds(data, at + |first|, rest) && |EncodeCommands(commands, big)| == |first| + |rest|
  {
    HoldsParts(data, at, first, rest);
  }

  /** The entries from `at` to `end` are those of the commands. */
  ghost predicate Lists(entries: nat -> Reading<Entry>, at: nat, end: nat, commands: seq<Command>)
    decreases |commands|
  {
    if commands == [] then at == end
    else exists next: nat ::
      at + 8 <= next && entries(at) == Fine(Entry(MinimumOf(commands[0]), next)) && Lists(entries, next, end, commands[1..])
  }

  lemma ListsFrom(entries: nat -> Reading<Entry>, at: nat, next: nat, end: nat, commands: seq<Command>)
    requires commands != [] && at + 8 <= next && entries(at) == Fine(Entry(MinimumOf(commands[0]), next))
    requires Lists(entries, next, end, commands[1..])
    ensures Lists(entries, at, end, commands)
  {
  }

  lemma {:induction false} ListsWalk(entries: nat -> Reading<Entry>, at: nat, end: nat, commands: seq<Command>)
    requires Lists(entries, at, end, commands)
    ensures Walk(entries, at, |commands|) == Fine(Walked(MinimaOf(commands), end))
    ensures at + 8 * |commands| <= end
    decreases |commands|
  {
    if commands != [] {
      var next: nat :| at + 8 <= next && entries(at) == Fine(Entry(MinimumOf(commands[0]), next)) && Lists(entries, next, end, commands[1..]);
      ListsWalk(entries, next, end, commands[1..]);
    }
  }

  lemma {:induction false} EncodedLists(data: Bytes, at: nat, end: nat, commands: seq<Command>, big: bool)
    requires SoundCommands(commands) && Holds(data, at, EncodeCommands(commands, big))
    requires end == at + |EncodeCommands(commands, big)|
    ensures Lists(Entries(data, end, big), at, end, commands)
    decreases |commands|
  {
    if commands != [] {
      var first := EncodeCommand(commands[0], big);
      var next := at + |first|;
      FirstAndRest(data, at, commands, first, EncodeCommands(commands[1..], big), big);
      EntryReadsBack(data, at, end, commands[0], big);
      EncodedLists(data, next, end, commands[1..], big);
      ListsFrom(Entries(data, end, big), at, next, end, commands);
    }
  }

  lemma CommandsReadBack(data: Bytes, at: nat, end: nat, commands: seq<Command>, big: bool)
    requires SoundCommands(commands) && Holds(data, at, EncodeCommands(commands, big))
    requires end == at + |EncodeCommands(commands, big)|
    ensures Walk(Entries(data, end, big), at, |commands|) == Fine(Walked(MinimaOf(commands), end))
    ensures at + 8 * |commands| <= end
  {
    EncodedLists(data, at, end, commands, big);
    ListsWalk(Entries(data, end, big), at, end, commands);
  }

  // -------------------------------------------------------------- thin images

  /** An image for any processor and of any kind: its header, its commands and everything after them. */
  datatype Image = Image(big: bool, wide: bool, cpu: nat, subtype: nat, kind: nat, tail: Bytes, commands: seq<Command>, contents: Bytes)

  function MagicOf(big: bool, wide: bool): Bytes {
    if big then (if wide then [0xfe, 0xed, 0xfa, 0xcf] else [0xfe, 0xed, 0xfa, 0xce])
    else if wide then [0xcf, 0xfa, 0xed, 0xfe] else [0xce, 0xfa, 0xed, 0xfe]
  }

  predicate SoundImage(m: Image) {
    && m.cpu < 0x1_0000_0000 && m.subtype < 0x1_0000_0000 && m.kind < 0x1_0000_0000
    && |m.tail| == (if m.wide then 8 else 4)
    && SoundCommands(m.commands)
    && |m.commands| < 0x1_0000_0000 && |EncodeCommands(m.commands, m.big)| < 0x1_0000_0000
  }

  /** A runtime image for Intel, not an object file. */
  predicate Runs(m: Image) { m.cpu == INTEL && m.kind != OBJECT }

  /** What an image should be answered with: its minima if it runs on Intel, and it must then state one. */
  function AnswerOf(m: Image): Reading<seq<string>> {
    if !Runs(m) then Fine([])
    else if MinimaOf(m.commands) == [] then Bad(Inconsistent)
    else Fine(MinimaOf(m.commands))
  }

  function HeaderOf(m: Image): (b: Bytes)
    requires SoundImage(m)
    ensures |b| == if m.wide then 32 else 28
  {
    MagicOf(m.big, m.wide) + EncodeWord(m.cpu, m.big) + EncodeWord(m.subtype, m.big) + EncodeWord(m.kind, m.big)
    + EncodeWord(|m.commands|, m.big) + EncodeWord(|EncodeCommands(m.commands, m.big)|, m.big) + m.tail
  }

  function EncodeImage(m: Image): Bytes
    requires SoundImage(m)
  {
    HeaderOf(m) + EncodeCommands(m.commands, m.big) + m.contents
  }

  lemma HeaderReadsBack(data: Bytes, m: Image)
    requires SoundImage(m) && Holds(data, 0, HeaderOf(m))
    ensures ThinMagic(data[0..4]) == Some(Thin(m.big, if m.wide then 32 else 28))
    ensures ReadHeader(data, 0, m.big) == Header(m.cpu, m.kind, |m.commands|, |EncodeCommands(m.commands, m.big)|)
  {
    var magic, cpu, subtype, kind := MagicOf(m.big, m.wide), EncodeWord(m.cpu, m.big), EncodeWord(m.subtype, m.big), EncodeWord(m.kind, m.big);
    var count, bytes := EncodeWord(|m.commands|, m.big), EncodeWord(|EncodeCommands(m.commands, m.big)|, m.big);
    HoldsParts(data, 0, magic + cpu + subtype + kind + count + bytes, m.tail);
    HoldsParts(data, 0, magic + cpu + subtype + kind + count, bytes);
    HoldsParts(data, 0, magic + cpu + subtype + kind, count);
    HoldsParts(data, 0, magic + cpu + subtype, kind);
    HoldsParts(data, 0, magic + cpu, subtype);
    HoldsParts(data, 0, magic, cpu);
    HoldsSlice(data, 0, magic);
    WordReadsBack(data, 4, m.cpu, m.big);
    WordReadsBack(data, 12, m.kind, m.big);
    WordReadsBack(data, 16, |m.commands|, m.big);
    WordReadsBack(data, 20, |EncodeCommands(m.commands, m.big)|, m.big);
  }

  lemma ImageParts(m: Image)
    requires SoundImage(m)
    ensures Holds(EncodeImage(m), 0, HeaderOf(m)) && Holds(EncodeImage(m), |HeaderOf(m)|, EncodeCommands(m.commands, m.big))
  {
    var data, header, commands := EncodeImage(m), HeaderOf(m), EncodeCommands(m.commands, m.big);
    HoldsWhole(data);
    HoldsParts(data, 0, header + commands, m.contents);
    HoldsParts(data, 0, header, commands);
  }

  lemma ImageLoads(m: Image, data: Bytes, style: Thin)
    requires SoundImage(m) && data == EncodeImage(m) && style == Thin(m.big, |HeaderOf(m)|)
    ensures style.header <= |data| && ThinMagic(data[0..4]) == Some(style)
    ensures LoadableMinimums(data, 0, |data|, style) == AnswerOf(m)
  {
    var end := style.header + |EncodeCommands(m.commands, m.big)|;
    ImageParts(m);
    HeaderReadsBack(data, m);
    CommandsReadBack(data, style.header, end, m.commands, m.big);
    if Runs(m) {
      LoadableWhen(data, style, |m.commands|, end, ReadHeader(data, 0, m.big), MinimaOf(m.commands));
    } else {
      SkippedWhen(data, style, ReadHeader(data, 0, m.big));
    }
  }

  /**
   Reading an encoded image answers with the minima its commands state, in order;
   with nothing when it is an object file or for another processor.
   */
  lemma ImageReadsBack(m: Image)
    requires SoundImage(m)
    ensures SliceMinimums(EncodeImage(m), 0, |EncodeImage(m)|) == AnswerOf(m)
  {
    ImageLoads(m, EncodeImage(m), Thin(m.big, |HeaderOf(m)|));
    SliceWhen(EncodeImage(m), Thin(m.big, |HeaderOf(m)|));
  }

  lemma SliceWhen(data: Bytes, style: Thin)
    requires 28 <= style.header <= |data| && ThinMagic(data[0..4]) == Some(style)
    ensures SliceMinimums(data, 0, |data|) == LoadableMinimums(data, 0, |data|, style)
  {
  }

  lemma SkippedWhen(data: Bytes, style: Thin, h: Header)
    requires 28 <= style.header <= |data| && ReadHeader(data, 0, style.big) == h && !Loadable(h)
    ensures LoadableMinimums(data, 0, |data|, style) == Fine([])
  {
  }

  lemma LoadableWhen(data: Bytes, style: Thin, count: nat, end: nat, h: Header, found: seq<string>)
    requires 28 <= style.header && style.header + 8 * count <= end <= |data|
    requires ReadHeader(data, 0, style.big) == h && Loadable(h) && h.count == count && h.bytes == end - style.header
    requires Walk(Entries(data, end, style.big), style.header, count) == Fine(Walked(found, end))
    ensures LoadableMinimums(data, 0, |data|, style) == if found == [] then Bad(Inconsistent) else Fine(found)
  {
  }
}
