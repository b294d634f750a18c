/** When a whole file is answered, and with what, said of its bytes, table rows and slices alone. */
module MachOLaws {
  import opened Options
  import opened Versions
  import opened MachO
  import opened MachOFormat

  // ------------------------------------------------------------------ one slice

  /** Too short for its header, or with an unknown magic number, a slice cannot be read. */
  predicate Headed(data: Bytes, offset: nat, length: nat)
    requires offset + length <= |data|
  {
    length >= 28 && ThinMagic(data[offset..offset + 4]).Some? && ThinMagic(data[offset..offset + 4]).value.header <= length
  }

  /** Of another processor, an object file, or well tiled by commands that state a minimum. */
  ghost predicate Tiled(data: Bytes, start: nat, limit: nat, style: Thin, h: Header)
    requires limit <= |data|
  {
    h.cpu == 0x0100_0007 && h.kind != 1 ==>
      start + h.bytes <= limit && WellTiled(Entries(data, start + h.bytes, style.big), start, start + h.bytes, h.count)
  }

  ghost predicate Acceptable(data: Bytes, offset: nat, length: nat)
    requires offset + length <= |data|
  {
    Headed(data, offset, length) &&
    var style := ThinMagic(data[offset..offset + 4]).value;
    Tiled(data, offset + style.header, offset + length, style, ReadHeader(data, offset, style.big))
  }

  lemma TiledExactly(data: Bytes, start: nat, limit: nat, style: Thin, h: Header, r: Reading<seq<string>>)
    requires limit <= |data| && Loadable(h)
    requires if start + h.bytes > limit then r.Bad? else r == CountedMinimums(Entries(data, start + h.bytes, style.big), start, h.bytes, h.count)
    ensures r.Fine? <==> Tiled(data, start, limit, style, h)
  {
    if start + h.bytes <= limit { AcceptedWithin(data, style, start, h.bytes, h.count, start + h.bytes, r); }
  }

  lemma LoadableExactly(data: Bytes, offset: nat, length: nat, style: Thin, start: nat, h: Header, r: Reading<seq<string>>)
    requires 28 <= style.header <= length && offset + length <= |data|
    requires start == offset + style.header && h == ReadHeader(data, offset, style.big) && r == LoadableMinimums(data, offset, length, style)
    ensures r.Fine? <==> Tiled(data, start, offset + length, style, h)
  {
    if Loadable(h) {
      LoadableIs(data, offset, length, style, start, h, start + h.bytes);
      TiledExactly(data, start, offset + length, style, h, r);
    }
  }

  lemma SliceExactly(data: Bytes, offset: nat, length: nat)
    requires offset + length <= |data|
    ensures SliceMinimums(data, offset, length).Fine? <==> Acceptable(data, offset, length)
  {
    if Headed(data, offset, length) {
      var style := ThinMagic(data[offset..offset + 4]).value;
      LoadableExactly(data, offset, length, style, offset + style.header, ReadHeader(data, offset, style.big),
                      LoadableMinimums(data, offset, length, style));
    }
  }

  // ------------------------------------------------------------------ the table

  function RowAt(index: nat, fat: Fat): nat { 8 + index * EntrySize(fat.wide) }

  /** The row is in the file, and the slice it names lies between the end of the table and the end of the file. */
  predicate RowSound(data: Bytes, fat: Fat, count: nat, index: nat) {
    RowAt(index, fat) + EntrySize(fat.wide) <= |data| &&
    var slice := EntrySlice(data, RowAt(index, fat), fat);
    RowAt(count, fat) <= slice.offset && slice.offset + slice.length <= |data|
  }

  predicate ForIntel(data: Bytes, fat: Fat, index: nat) {
    RowAt(index, fat) + 4 <= |data| && Word(data, RowAt(index, fat), fat.big) == 0x0100_0007
  }

  ghost predicate RowLaw(data: Bytes, fat: Fat, count: nat, index: nat, row: Reading<seq<Slice>>) {
    && (row.Fine? <==> RowSound(data, fat, count, index))
    && (row.Fine? ==> row.value == if ForIntel(data, fat, index) then [EntrySlice(data, RowAt(index, fat), fat)] else [])
  }

  lemma RowLawful(data: Bytes, fat: Fat, count: nat, index: nat)
    ensures RowLaw(data, fat, count, index, TableReader(data, fat, count)(index))
  {
  }

  ghost predicate Names(rows: nat -> Reading<seq<Slice>>, index: nat, count: nat, s: Slice) {
    exists i: nat :: index <= i < count && rows(i).Fine? && s in rows(i).value
  }

  /** A table can be read exactly when each of its rows can; the slices are theirs. */
  lemma {:induction false} TableExactly(rows: nat -> Reading<seq<Slice>>, index: nat, count: nat)
    requires index <= count
    ensures var r := FatSlices(rows, index, count);
      && (r.Fine? <==> forall i: nat :: index <= i < count ==> rows(i).Fine?)
      && (r.Fine? ==> forall s :: s in r.value <==> Names(rows, index, count, s))
    decreases count - index
  {
    if index < count { TableExactly(rows, index + 1, count); }
  }

  lemma {:induction false} AllExactly(read: Slice -> Reading<seq<string>>, slices: seq<Slice>)
    ensures AllMinimums(read, slices).Fine? <==> forall s :: s in slices ==> read(s).Fine?
  {
    if slices != [] {
      AllExactly(read, slices[1..]);
      assert slices == [slices[0]] + slices[1..];
    }
  }

  // ------------------------------------------------------------------ the file

  function MagicOf(data: Bytes): Bytes { if |data| >= 4 then data[..4] else [] }

  /** Every row of the table is sound, and every slice it names for Intel acceptable. */
  ghost predicate FatAcceptable(data: Bytes, fat: Fat, count: nat) {
    forall i: nat :: i < count ==> RowAcceptable(data, fat, count, i)
  }

  /** Which files are answered at all. */
  ghost predicate AnswerLaw(data: Bytes, isClass: bool, r: Reading<seq<string>>) {
    var fat, thin := FatMagic(MagicOf(data)), ThinMagic(MagicOf(data));
    if fat.Some? then
      if |data| < 8 then r == Bad(Truncated)
      else
        var count := Word(data, 4, fat.value.big);
        if 1 <= count <= 64 then r.Fine? <==> FatAcceptable(data, fat.value, count)
        else r == if isClass then Fine([]) else Bad(FatCount)
    else if thin.Some? then r.Fine? <==> Acceptable(data, 0, |data|)
    else r == Fine([])
  }

  lemma ReadExactly(data: Bytes, slice: Slice)
    ensures SliceReader(data)(slice).Fine? <==> slice.offset + slice.length <= |data| && Acceptable(data, slice.offset, slice.length)
  {
    if slice.offset + slice.length <= |data| { SliceExactly(data, slice.offset, slice.length); }
  }

  lemma SlicesRead(data: Bytes, slices: seq<Slice>)
    ensures AllMinimums(SliceReader(data), slices).Fine? <==>
      forall s :: s in slices ==> s.offset + s.length <= |data| && Acceptable(data, s.offset, s.length)
  {
    AllExactly(SliceReader(data), slices);
    forall s ensures SliceReader(data)(s).Fine? <==> s.offset + s.length <= |data| && Acceptable(data, s.offset, s.length) {
      ReadExactly(data, s);
    }
  }

  predicate Good(rows: nat -> Reading<seq<Slice>>, i: nat, good: Slice -> bool) {
    rows(i).Fine? && forall s :: s in rows(i).value ==> good(s)
  }

  /** Reading every slice that is named is reading every row's. */
  lemma NamedGood(rows: nat -> Reading<seq<Slice>>, count: nat, slices: Reading<seq<Slice>>, good: Slice -> bool)
    requires slices == FatSlices(rows, 0, count)
    ensures slices.Fine? && (forall s :: s in slices.value ==> good(s)) <==> forall i: nat :: i < count ==> Good(rows, i, good)
  {
    TableExactly(rows, 0, count);
    if slices.Fine? && forall s :: s in slices.value ==> good(s) {
      forall i: nat | i < count ensures Good(rows, i, good) {
        forall s | s in rows(i).value ensures good(s) { assert Names(rows, 0, count, s); }
      }
    }
    if forall i: nat :: i < count ==> Good(rows, i, good) {
      assert forall i: nat :: i < count ==> Good(rows, i, good) ==> rows(i).Fine?;
      forall s | s in slices.value ensures good(s) {
        var i: nat :| i < count && rows(i).Fine? && s in rows(i).value;
        assert Good(rows, i, good);
      }
    }
  }

  /** What a row must be for its file to be answered. */
  ghost predicate RowAcceptable(data: Bytes, fat: Fat, count: nat, i: nat) {
    RowSound(data, fat, count, i) &&
    (ForIntel(data, fat, i) ==> var slice := EntrySlice(data, RowAt(i, fat), fat); Acceptable(data, slice.offset, slice.length))
  }

  lemma RowGood(data: Bytes, fat: Fat, count: nat, i: nat, good: Slice -> bool)
    requires forall s :: good(s) <==> SliceReader(data)(s).Fine?
    ensures Good(TableReader(data, fat, count), i, good) <==> RowAcceptable(data, fat, count, i)
  {
    RowLawful(data, fat, count, i);
    if RowSound(data, fat, count, i) { ReadExactly(data, EntrySlice(data, RowAt(i, fat), fat)); }
  }

  lemma FatExactly(data: Bytes, fat: Fat, count: nat)
    ensures var slices := FatSlices(TableReader(data, fat, count), 0, count);
      FatAcceptable(data, fat, count) <==> slices.Fine? && AllMinimums(SliceReader(data), slices.value).Fine?
  {
    var rows, good := TableReader(data, fat, count), (s: Slice) => SliceReader(data)(s).Fine?;
    var slices := FatSlices(rows, 0, count);
    NamedGood(rows, count, slices, good);
    forall i: nat ensures Good(rows, i, good) <==> RowAcceptable(data, fat, count, i) { RowGood(data, fat, count, i, good); }
    if slices.Fine? { AllExactly(SliceReader(data), slices.value); }
  }

  /** A file is answered exactly when its slices for Intel are all acceptable and its table is sound. */
  lemma AnswerExactly(data: Bytes, isClass: bool, r: Reading<seq<string>>)
    requires Answers(data, isClass, r)
    ensures AnswerLaw(data, isClass, r)
  {
    var fat := FatMagic(MagicOf(data));
    if fat.Some? {
      if |data| >= 8 { FatExactly(data, fat.value, Word(data, 4, fat.value.big)); }
    } else if ThinMagic(MagicOf(data)).Some? {
      SlicesRead(data, [Slice(0, |data|)]);
    }
  }
}
