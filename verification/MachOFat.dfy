/** Whole files, thin and fat, are read back slice by slice. */
module MachOFat {
  import opened Options
  import opened MachO
  import opened MachOFormat

  // -------------------------------------------------------------- thin files

  /** A file that is one image, for any processor and of any kind, is answered as that image. */
  lemma ThinFileReadsBack(m: Image, isClass: bool)
    requires SoundImage(m)
    ensures Answers(EncodeImage(m), isClass, AnswerOf(m))
  {
    var data := EncodeImage(m);
    ImageLoads(m, data, Thin(m.big, |HeaderOf(m)|));
    ImageReadsBack(m);
    assert data[..4] == data[0..4];
    WholeFile(data, AnswerOf(m), isClass);
  }

  lemma WholeFile(data: Bytes, answer: Reading<seq<string>>, isClass: bool)
    requires |data| >= 4 && ThinMagic(data[..4]).Some? && SliceMinimums(data, 0, |data|) == answer
    ensures Answers(data, isClass, answer)
  {
    OneSlice(SliceReader(data), Slice(0, |data|), answer);
    assert FatMagic(data[..4]).None?;
  }

  // --------------------------------------------------------------- fat files

  /** A part of a fat file: its row in the table, some padding, its bytes; a row for Intel has an image of any kind. */
  datatype Member = Member(cpu: nat, subtype: nat, align: nat, gap: Bytes, contents: Bytes, image: Option<Image>)

  predicate SoundMember(m: Member) {
    && m.cpu < 0x1_0000_0000 && m.subtype < 0x1_0000_0000 && m.align < 0x1_0000_0000
    && (m.image.Some? <==> m.cpu == INTEL)
    && (m.image.Some? ==> SoundImage(m.image.value) && m.contents == EncodeImage(m.image.value))
  }

  function Limit(wide: bool): nat { if wide then 0x1_0000_0000_0000_0000 else 0x1_0000_0000 }

  function EncodeDouble(n: nat, big: bool): (b: Bytes)
    requires n < 0x1_0000_0000_0000_0000
    ensures |b| == 8
  {
    var high, low := EncodeWord(n / 0x1_0000_0000, big), EncodeWord(n % 0x1_0000_0000, big);
    if big then high + low else low + high
  }

  function EncodePlace(n: nat, fat: Fat): (b: Bytes)
    requires n < Limit(fat.wide)
    ensures |b| == if fat.wide then 8 else 4
  {
    if fat.wide then EncodeDouble(n, fat.big) else EncodeWord(n, fat.big)
  }

  /** The row of a member that begins at `offset`. */
  function EncodeRow(m: Member, offset: nat, fat: Fat): (b: Bytes)
    requires SoundMember(m) && offset + |m.contents| < Limit(fat.wide)
    ensures |b| == EntrySize(fat.wide)
  {
    EncodeWord(m.cpu, fat.big) + EncodeWord(m.subtype, fat.big) + EncodePlace(offset, fat) + EncodePlace(|m.contents|, fat)
    + (EncodeWord(m.align, fat.big) + if fat.wide then EncodeWord(0, fat.big) else [])
  }

  predicate SoundMembers(ms: seq<Member>) {
    forall i :: 0 <= i < |ms| ==> SoundMember(ms[i])
  }

  function EncodeMembers(ms: seq<Member>): Bytes {
    if ms == [] then [] else ms[0].gap + ms[0].contents + EncodeMembers(ms[1..])
  }

  function EncodeRows(ms: seq<Member>, at: nat, fat: Fat): Bytes
    requires SoundMembers(ms) && at + |EncodeMembers(ms)| < Limit(fat.wide)
  {
    if ms == [] then []
    else
      var offset := at + |ms[0].gap|;
      EncodeRow(ms[0], offset, fat) + EncodeRows(ms[1..], offset + |ms[0].contents|, fat)
  }

  function FatMagicOf(fat: Fat): Bytes {
    if fat.big then (if fat.wide then [0xca, 0xfe, 0xba, 0xbf] else [0xca, 0xfe, 0xba, 0xbe])
    else if fat.wide then [0xbf, 0xba, 0xfe, 0xca] else [0xbe, 0xba, 0xfe, 0xca]
  }

  /** Where the rows before `count` end. */
  function TableEnd(count: nat, fat: Fat): nat {
    if fat.wide then 8 + count * 32 else 8 + count * 20
  }

  predicate SoundFat(ms: seq<Member>, fat: Fat) {
    && 1 <= |ms| <= 64 && SoundMembers(ms)
    && TableEnd(|ms|, fat) + |EncodeMembers(ms)| < Limit(fat.wide)
  }

  function EncodeFat(ms: seq<Member>, fat: Fat): Bytes
    requires SoundFat(ms, fat)
  {
    FatMagicOf(fat) + EncodeWord(|ms|, fat.big) + EncodeRows(ms, TableEnd(|ms|, fat), fat) + EncodeMembers(ms)
  }

  function IntelSlice(m: Member, offset: nat): seq<Slice> {
    if m.cpu == INTEL then [Slice(offset, |m.contents|)] else []
  }

  /** Where the Intel members lie, the first one at `at`. */
  function IntelSlices(ms: seq<Member>, at: nat): seq<Slice> {
    if ms == [] then []
    else
      var offset := at + |ms[0].gap|;
      IntelSlice(ms[0], offset) + IntelSlices(ms[1..], offset + |ms[0].contents|)
  }

  /** The minima of a member that runs on Intel. */
  function MemberMinima(m: Member): seq<string> {
    if m.image.Some? && Runs(m.image.value) then MinimaOf(m.image.value.commands) else []
  }

  function IntelMinima(ms: seq<Member>): seq<string> {
    if ms == [] then [] else MemberMinima(ms[0]) + IntelMinima(ms[1..])
  }

  /** A member that runs on Intel and does not say on which systems. */
  predicate Silent(m: Member) {
    m.image.Some? && Runs(m.image.value) && MinimaOf(m.image.value.commands) == []
  }

  /** What a file of these members should be answered with. */
  function IntelAnswer(ms: seq<Member>): Reading<seq<string>> {
    if exists i :: 0 <= i < |ms| && Silent(ms[i]) then Bad(Inconsistent) else Fine(IntelMinima(ms))
  }

  function MemberAnswer(m: Member): Reading<seq<string>> {
    if Silent(m) then Bad(Inconsistent) else Fine(MemberMinima(m))
  }

  /** The answer of two parts, the first one read first. */
  function Joined(first: Reading<seq<string>>, rest: Reading<seq<string>>): Reading<seq<string>> {
    if first.Bad? then first else PrependMinima(first.value, rest)
  }

  lemma AnswerSplits(ms: seq<Member>)
    requires ms != []
    ensures IntelAnswer(ms) == Joined(MemberAnswer(ms[0]), IntelAnswer(ms[1..]))
  {
    if i :| 0 <= i < |ms| && Silent(ms[i]) {
      assert i > 0 ==> Silent(ms[1..][i - 1]);
    }
    if i :| 0 <= i < |ms[1..]| && Silent(ms[1..][i]) {
      assert Silent(ms[i + 1]);
    }
  }

  // -------------------------------------------------------------- the table

  lemma EightBytes(data: Bytes, at: nat)
    requires at + 8 <= |data|
    ensures BigEndian(data, at, at + 8) == BigEndian(data, at, at + 4) * 0x1_0000_0000 + BigEndian(data, at + 4, at + 8)
    ensures LittleEndian(data, at, at + 8) == LittleEndian(data, at + 4, at + 8) * 0x1_0000_0000 + LittleEndian(data, at, at + 4)
  {
    FourBytes(data, at);
    FourBytes(data, at + 4);
    assert BigEndian(data, at, at + 5) == 0x100 * BigEndian(data, at, at + 4) + data[at + 4] as int;
    assert BigEndian(data, at, at + 6) == 0x100 * BigEndian(data, at, at + 5) + data[at + 5] as int;
    assert BigEndian(data, at, at + 7) == 0x100 * BigEndian(data, at, at + 6) + data[at + 6] as int;
    assert LittleEndian(data, at + 3, at + 8) == 0x100 * LittleEndian(data, at + 4, at + 8) + data[at + 3] as int;
    assert LittleEndian(data, at + 2, at + 8) == 0x100 * LittleEndian(data, at + 3, at + 8) + data[at + 2] as int;
    assert LittleEndian(data, at + 1, at + 8) == 0x100 * LittleEndian(data, at + 2, at + 8) + data[at + 1] as int;
  }

  lemma DoubleReadsBack(data: Bytes, at: nat, n: nat, big: bool)
    requires n < 0x1_0000_0000_0000_0000 && Holds(data, at, EncodeDouble(n, big))
    ensures DoubleWord(data, at, big) == n
  {
    var high, low := EncodeWord(n / 0x1_0000_0000, big), EncodeWord(n % 0x1_0000_0000, big);
    HoldsParts(data, at, if big then high else low, if big then low else high);
    WordReadsBack(data, if big then at else at + 4, n / 0x1_0000_0000, big);
    WordReadsBack(data, if big then at + 4 else at, n % 0x1_0000_0000, big);
    EightBytes(data, at);
  }

  lemma RowReadsBack(data: Bytes, at: nat, m: Member, offset: nat, fat: Fat)
    requires SoundMember(m) && offset + |m.contents| < Limit(fat.wide)
    requires Holds(data, at, EncodeRow(m, offset, fat))
    ensures Word(data, at, fat.big) == m.cpu && EntrySlice(data, at, fat) == Slice(offset, |m.contents|)
  {
    var cpu, subtype := EncodeWord(m.cpu, fat.big), EncodeWord(m.subtype, fat.big);
    var from, size := EncodePlace(offset, fat), EncodePlace(|m.contents|, fat);
    HoldsParts(data, at, cpu + subtype + from + size, EncodeWord(m.align, fat.big) + if fat.wide then EncodeWord(0, fat.big) else []);
    HoldsParts(data, at, cpu + subtype + from, size);
    HoldsParts(data, at, cpu + subtype, from);
    HoldsParts(data, at, cpu, subtype);
    WordReadsBack(data, at, m.cpu, fat.big);
    PlaceReadsBack(data, at + 8, offset, fat);
    PlaceReadsBack(data, at + if fat.wide then 16 else 12, |m.contents|, fat);
  }

  lemma PlaceReadsBack(data: Bytes, at: nat, n: nat, fat: Fat)
    requires n < Limit(fat.wide) && Holds(data, at, EncodePlace(n, fat))
    ensures (if fat.wide then DoubleWord(data, at, fat.big) else Word(data, at, fat.big)) == n
  {
    if fat.wide { DoubleReadsBack(data, at, n, fat.big); } else { WordReadsBack(data, at, n, fat.big); }
  }

  lemma NextEntry(index: nat, fat: Fat)
    ensures TableEnd(index + 1, fat) == TableEnd(index, fat) + EntrySize(fat.wide)
  {
  }

  lemma TableGrows(index: nat, count: nat, fat: Fat)
    requires index <= count
    ensures TableEnd(index, fat) <= TableEnd(count, fat)
  {
  }

  /** One row of the table, read at its place. */
  ghost predicate RowReads(rows: nat -> Reading<seq<Slice>>, data: Bytes, fat: Fat, count: nat, index: nat, m: Member, offset: nat) {
    && SoundMember(m) && offset + |m.contents| < Limit(fat.wide) && index < count
    && Holds(data, TableEnd(index, fat), EncodeRow(m, offset, fat))
    && TableEnd(count, fat) <= offset && offset + |m.contents| <= |data|
    ==> rows(index) == Fine(IntelSlice(m, offset))
  }

  lemma TableReads(data: Bytes, fat: Fat, count: nat, index: nat, m: Member, offset: nat)
    ensures RowReads(TableReader(data, fat, count), data, fat, count, index, m, offset)
  {
    if SoundMember(m) && offset + |m.contents| < Limit(fat.wide) && Holds(data, TableEnd(index, fat), EncodeRow(m, offset, fat)) {
      RowReadsBack(data, TableEnd(index, fat), m, offset, fat);
    }
  }

  lemma HoldsNext(data: Bytes, at: nat, whole: Bytes, a: Bytes, b: Bytes, next: nat)
    requires Holds(data, at, whole) && whole == a + b && next == at + |a|
    ensures Holds(data, at, a) && Holds(data, next, b)
  {
    HoldsParts(data, at, a, b);
  }

  lemma RowParts(data: Bytes, fat: Fat, index: nat, ms: seq<Member>, at: nat)
    requires SoundMembers(ms) && at + |EncodeMembers(ms)| < Limit(fat.wide) && ms != []
    requires Holds(data, TableEnd(index, fat), EncodeRows(ms, at, fat))
    ensures Holds(data, TableEnd(index, fat), EncodeRow(ms[0], at + |ms[0].gap|, fat))
    ensures Holds(data, TableEnd(index + 1, fat), EncodeRows(ms[1..], at + |ms[0].gap| + |ms[0].contents|, fat))
  {
    var offset := at + |ms[0].gap|;
    var row, rest := EncodeRow(ms[0], offset, fat), EncodeRows(ms[1..], offset + |ms[0].contents|, fat);
    NextEntry(index, fat);
    HoldsNext(data, TableEnd(index, fat), EncodeRows(ms, at, fat), row, rest, TableEnd(index + 1, fat));
  }

  /** Each row reads as its member's slice. */
  ghost predicate RowsMatch(rows: nat -> Reading<seq<Slice>>, index: nat, ms: seq<Member>, at: nat)
    decreases |ms|
  {
    ms == [] ||
    (rows(index) == Fine(IntelSlice(ms[0], at + |ms[0].gap|))
     && RowsMatch(rows, index + 1, ms[1..], at + |ms[0].gap| + |ms[0].contents|))
  }

  lemma {:induction false} RowsJoin(rows: nat -> Reading<seq<Slice>>, index: nat, count: nat, ms: seq<Member>, at: nat)
    requires RowsMatch(rows, index, ms, at) && index + |ms| == count
    ensures FatSlices(rows, index, count) == Fine(IntelSlices(ms, at))
    decreases |ms|
  {
    if ms != [] { RowsJoin(rows, index + 1, count, ms[1..], at + |ms[0].gap| + |ms[0].contents|); }
  }

  lemma FirstRow(rows: nat -> Reading<seq<Slice>>, data: Bytes, fat: Fat, index: nat, count: nat, ms: seq<Member>, at: nat, end: nat)
    requires SoundMembers(ms) && ms != [] && at + |EncodeMembers(ms)| < Limit(fat.wide) && index < count
    requires RowReads(rows, data, fat, count, index, ms[0], at + |ms[0].gap|)
    requires Holds(data, TableEnd(index, fat), EncodeRow(ms[0], at + |ms[0].gap|, fat))
    requires end == TableEnd(count, fat) && end <= at && at + |EncodeMembers(ms)| <= |data|
    ensures rows(index) == Fine(IntelSlice(ms[0], at + |ms[0].gap|))
  {
  }

  lemma {:induction false} RowsReadBack(rows: nat -> Reading<seq<Slice>>, data: Bytes, fat: Fat, index: nat, count: nat, ms: seq<Member>, at: nat)
    requires forall i, m, offset :: RowReads(rows, data, fat, count, i, m, offset)
    requires SoundMembers(ms) && at + |EncodeMembers(ms)| < Limit(fat.wide) && index + |ms| == count
    requires Holds(data, TableEnd(index, fat), EncodeRows(ms, at, fat))
    requires TableEnd(count, fat) <= at && at + |EncodeMembers(ms)| <= |data|
    ensures RowsMatch(rows, index, ms, at)
    decreases |ms|
  {
    if ms != [] {
      var offset := at + |ms[0].gap|;
      RowParts(data, fat, index, ms, at);
      RowsReadBack(rows, data, fat, index + 1, count, ms[1..], offset + |ms[0].contents|);
      FirstRow(rows, data, fat, index, count, ms, at, TableEnd(count, fat));
    }
  }

  // ------------------------------------------------------------- the members

  lemma SliceCopy(data: Bytes, offset: nat, slice: Bytes, r: Reading<seq<string>>)
    requires Holds(data, offset, slice) && SliceMinimums(slice, 0, |slice|) == r
    ensures SliceMinimums(data, offset, |slice|) == r
  {
    HoldsSlice(data, offset, slice);
    SliceIsLocal(data, offset, |slice|);
  }

  lemma MemberReadsBack(data: Bytes, offset: nat, m: Member)
    requires SoundMember(m) && Holds(data, offset, m.contents)
    ensures AllMinimums(SliceReader(data), IntelSlice(m, offset)) == MemberAnswer(m)
  {
    if m.image.Some? {
      ImageReadsBack(m.image.value);
      SliceCopy(data, offset, m.contents, AnswerOf(m.image.value));
      OneSlice(SliceReader(data), Slice(offset, |m.contents|), AnswerOf(m.image.value));
    }
  }

  lemma OneSlice(read: Slice -> Reading<seq<string>>, slice: Slice, answer: Reading<seq<string>>)
    requires read(slice) == answer
    ensures AllMinimums(read, [slice]) == answer
  {
    assert [slice][1..] == [];
    if answer.Fine? { assert answer.value + [] == answer.value; }
  }

  lemma JoinedTwice(a: seq<string>, b: Reading<seq<string>>, c: Reading<seq<string>>)
    ensures Joined(PrependMinima(a, b), c) == PrependMinima(a, Joined(b, c)) && Joined(Fine([]), c) == c
  {
    if c.Fine? { assert [] + c.value == c.value; }
    if b.Fine? && c.Fine? { assert a + b.value + c.value == a + (b.value + c.value); }
  }

  lemma {:induction false} SlicesJoin(read: Slice -> Reading<seq<string>>, a: seq<Slice>, b: seq<Slice>)
    ensures AllMinimums(read, a + b) == Joined(AllMinimums(read, a), AllMinimums(read, b))
  {
    if a == [] {
      assert a + b == b;
      JoinedTwice([], Fine([]), AllMinimums(read, b));
    } else {
      SlicesJoin(read, a[1..], b);
      assert (a + b)[1..] == a[1..] + b;
      if read(a[0]).Fine? { JoinedTwice(read(a[0]).value, AllMinimums(read, a[1..]), AllMinimums(read, b)); }
    }
  }

  /** Each member's slice reads as its image does. */
  ghost predicate ReadsMembers(read: Slice -> Reading<seq<string>>, ms: seq<Member>, at: nat)
    decreases |ms|
  {
    ms == [] ||
    (AllMinimums(read, IntelSlice(ms[0], at + |ms[0].gap|)) == MemberAnswer(ms[0])
     && ReadsMembers(read, ms[1..], at + |ms[0].gap| + |ms[0].contents|))
  }

  lemma {:induction false} MembersJoin(read: Slice -> Reading<seq<string>>, ms: seq<Member>, at: nat)
    requires ReadsMembers(read, ms, at)
    ensures AllMinimums(read, IntelSlices(ms, at)) == IntelAnswer(ms)
    decreases |ms|
  {
    if ms != [] {
      var offset := at + |ms[0].gap|;
      var next := offset + |ms[0].contents|;
      MembersJoin(read, ms[1..], next);
      SlicesJoin(read, IntelSlice(ms[0], offset), IntelSlices(ms[1..], next));
      AnswerSplits(ms);
    }
  }

  ghost predicate MemberReads(read: Slice -> Reading<seq<string>>, data: Bytes, m: Member, offset: nat) {
    SoundMember(m) && Holds(data, offset, m.contents) ==> AllMinimums(read, IntelSlice(m, offset)) == MemberAnswer(m)
  }

  lemma {:induction false} MembersReadBack(read: Slice -> Reading<seq<string>>, data: Bytes, ms: seq<Member>, at: nat)
    requires forall m, offset :: MemberReads(read, data, m, offset)
    requires SoundMembers(ms) && Holds(data, at, EncodeMembers(ms))
    ensures ReadsMembers(read, ms, at)
    decreases |ms|
  {
    if ms != [] {
      HoldsThree(data, at, ms[0].gap, ms[0].contents, EncodeMembers(ms[1..]));
      MembersReadBack(read, data, ms[1..], at + |ms[0].gap| + |ms[0].contents|);
      assert MemberReads(read, data, ms[0], at + |ms[0].gap|);
    }
  }

  // ----------------------------------------------------------- the whole file

  lemma {:induction false} RowsLength(ms: seq<Member>, at: nat, fat: Fat)
    requires SoundMembers(ms) && at + |EncodeMembers(ms)| < Limit(fat.wide)
    ensures 8 + |EncodeRows(ms, at, fat)| == TableEnd(|ms|, fat)
    decreases |ms|
  {
    if ms != [] {
      RowsLength(ms[1..], at + |ms[0].gap| + |ms[0].contents|, fat);
      NextEntry(|ms| - 1, fat);
    }
  }

  lemma LastPiece(data: Bytes, front: Bytes, back: Bytes)
    requires data == front + back
    ensures Holds(data, 0, front) && Holds(data, |front|, back)
  {
    HoldsWhole(data);
    HoldsParts(data, 0, front, back);
  }

  /** Four pieces, one after the other. */
  lemma FourPieces(a: Bytes, b: Bytes, c: Bytes, d: Bytes)
    ensures Holds(a + b + c + d, 0, a) && Holds(a + b + c + d, |a|, b)
    ensures Holds(a + b + c + d, |a| + |b|, c) && Holds(a + b + c + d, |a| + |b| + |c|, d)
  {
    var ab := a + b;
    var abc := ab + c;
    var data := abc + d;
    LastPiece(data, abc, d);
    HoldsParts(data, 0, ab, c);
    HoldsParts(data, 0, a, b);
  }

  lemma FatParts(data: Bytes, ms: seq<Member>, fat: Fat)
    requires SoundFat(ms, fat) && data == EncodeFat(ms, fat)
    ensures Holds(data, 0, FatMagicOf(fat)) && Holds(data, 4, EncodeWord(|ms|, fat.big))
    ensures Holds(data, 8, EncodeRows(ms, TableEnd(|ms|, fat), fat)) && Holds(data, TableEnd(|ms|, fat), EncodeMembers(ms))
    ensures |data| == TableEnd(|ms|, fat) + |EncodeMembers(ms)|
  {
    RowsLength(ms, TableEnd(|ms|, fat), fat);
    FourPieces(FatMagicOf(fat), EncodeWord(|ms|, fat.big), EncodeRows(ms, TableEnd(|ms|, fat), fat), EncodeMembers(ms));
  }

  lemma MagicReadsBack(data: Bytes, count: nat, fat: Fat)
    requires count < 0x1_0000_0000 && Holds(data, 0, FatMagicOf(fat)) && Holds(data, 4, EncodeWord(count, fat.big))
    ensures FatMagic(data[..4]) == Some(fat) && Word(data, 4, fat.big) == count
  {
    WordReadsBack(data, 4, count, fat.big);
    HoldsSlice(data, 0, FatMagicOf(fat));
    assert data[..4] == data[0..4];
  }

  lemma LayoutWhen(data: Bytes, fat: Fat, count: nat, slices: seq<Slice>, isClass: bool)
    requires |data| >= 8 && FatMagic(data[..4]) == Some(fat) && Word(data, 4, fat.big) == count && 1 <= count <= 64
    requires FatSlices(TableReader(data, fat, count), 0, count) == Fine(slices)
    ensures LayoutOf(data, isClass) == Fine(Slices(slices))
  {
  }

  lemma TableReadsBack(data: Bytes, ms: seq<Member>, fat: Fat)
    requires SoundFat(ms, fat) && data == EncodeFat(ms, fat)
    ensures FatSlices(TableReader(data, fat, |ms|), 0, |ms|) == Fine(IntelSlices(ms, TableEnd(|ms|, fat)))
  {
    FatParts(data, ms, fat);
    forall i, m, offset ensures RowReads(TableReader(data, fat, |ms|), data, fat, |ms|, i, m, offset) {
      TableReads(data, fat, |ms|, i, m, offset);
    }
    RowsReadBack(TableReader(data, fat, |ms|), data, fat, 0, |ms|, ms, TableEnd(|ms|, fat));
    RowsJoin(TableReader(data, fat, |ms|), 0, |ms|, ms, TableEnd(|ms|, fat));
  }

  lemma ContentsReadBack(data: Bytes, ms: seq<Member>, fat: Fat)
    requires SoundFat(ms, fat) && data == EncodeFat(ms, fat)
    ensures AllMinimums(SliceReader(data), IntelSlices(ms, TableEnd(|ms|, fat))) == IntelAnswer(ms)
  {
    FatParts(data, ms, fat);
    forall m, offset ensures MemberReads(SliceReader(data), data, m, offset) {
      if SoundMember(m) && Holds(data, offset, m.contents) { MemberReadsBack(data, offset, m); }
    }
    MembersReadBack(SliceReader(data), data, ms, TableEnd(|ms|, fat));
    MembersJoin(SliceReader(data), ms, TableEnd(|ms|, fat));
  }

  lemma AnswersWhen(data: Bytes, slices: seq<Slice>, answer: Reading<seq<string>>, isClass: bool)
    requires LayoutOf(data, isClass) == Fine(Slices(slices)) && AllMinimums(SliceReader(data), slices) == answer
    ensures Answers(data, isClass, answer)
  {
  }

  /** A fat file gives the minima of its members that run on Intel, in table order; it is refused if one of them states none. */
  lemma FatFileReadsBack(ms: seq<Member>, fat: Fat, isClass: bool)
    requires SoundFat(ms, fat)
    ensures Answers(EncodeFat(ms, fat), isClass, IntelAnswer(ms))
  {
    var data := EncodeFat(ms, fat);
    FatParts(data, ms, fat);
    MagicReadsBack(data, |ms|, fat);
    TableReadsBack(data, ms, fat);
    LayoutWhen(data, fat, |ms|, IntelSlices(ms, TableEnd(|ms|, fat)), isClass);
    ContentsReadBack(data, ms, fat);
    AnswersWhen(data, IntelSlices(ms, TableEnd(|ms|, fat)), IntelAnswer(ms), isClass);
  }
}
