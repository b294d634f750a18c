/**
 The bounded audit log: one JSON event a line, in a file that is rewritten when
 it grows past its limits. Reading an event out of a record is a parameter.
 */
module Audit {
  import opened Options

  type Bytes = seq<bv8>

  const NEWLINE: bv8 := 10
  const MAX_EVENT_BYTES := 65536

  // ------------------------------------------------------------------ records

  /** Where the record at the head of `data` ends. */
  function LineEnd(data: Bytes): (n: nat)
    requires data != []
    ensures 0 < n <= |data|
  {
    if data[0] == NEWLINE || |data| == 1 then 1 else 1 + LineEnd(data[1..])
  }

  function Records(data: Bytes): seq<Bytes>
    decreases |data|
  {
    if data == [] then [] else [data[..LineEnd(data)]] + Records(data[LineEnd(data)..])
  }

  function Flatten(lines: seq<Bytes>): Bytes {
    if lines == [] then [] else lines[0] + Flatten(lines[1..])
  }

  predicate Terminated(data: Bytes) { data == [] || data[|data| - 1] == NEWLINE }

  /** A newline at the end and nowhere else. */
  ghost predicate OneLine(line: Bytes) {
    line != [] && line[|line| - 1] == NEWLINE && forall i :: 0 <= i < |line| - 1 ==> line[i] != NEWLINE
  }

  /** A record too long to be an event is not looked at. */
  function Capped(record: Bytes): Option<Bytes> {
    if |record| > MAX_EVENT_BYTES then None else Some(record)
  }

  function CappedAll(records: seq<Bytes>): seq<Option<Bytes>> {
    seq(|records|, i requires 0 <= i < |records| => Capped(records[i]))
  }

  lemma {:induction false} RecordsLoseNothing(data: Bytes)
    ensures Flatten(Records(data)) == data
    decreases |data|
  {
    if data != [] {
      RecordsLoseNothing(data[LineEnd(data)..]);
      assert data == data[..LineEnd(data)] + data[LineEnd(data)..];
    }
  }

  lemma {:induction false} LineEndStops(data: Bytes)
    requires data != []
    ensures forall i :: 0 <= i < LineEnd(data) - 1 ==> data[i] != NEWLINE
    ensures LineEnd(data) < |data| ==> data[LineEnd(data) - 1] == NEWLINE
  {
    if !(data[0] == NEWLINE || |data| == 1) {
      LineEndStops(data[1..]);
      assert forall i :: 1 <= i < |data| ==> data[i] == data[1..][i - 1];
    }
  }

  lemma LineEndIs(data: Bytes, n: nat)
    requires 0 < n <= |data| && (forall i :: 0 <= i < n - 1 ==> data[i] != NEWLINE)
    requires data[n - 1] == NEWLINE || n == |data|
    ensures LineEnd(data) == n
  {
    LineEndStops(data);
  }

  lemma LineEndInJoin(a: Bytes, b: Bytes)
    requires a != [] && Terminated(a)
    ensures LineEnd(a + b) == LineEnd(a)
  {
    LineEndStops(a);
    LineEndIs(a + b, LineEnd(a));
  }

  lemma {:induction false} RecordsJoin(a: Bytes, b: Bytes)
    requires Terminated(a)
    ensures Records(a + b) == Records(a) + Records(b)
    decreases |a|
  {
    if a == [] {
      assert a + b == b;
    } else {
      var n := LineEnd(a);
      LineEndInJoin(a, b);
      assert (a + b)[..n] == a[..n] && (a + b)[n..] == a[n..] + b;
      RecordsJoin(a[n..], b);
    }
  }

  lemma OneLineIsOneRecord(line: Bytes)
    requires OneLine(line)
    ensures Records(line) == [line]
  {
    LineEndIs(line, |line|);
    assert line[..|line|] == line && line[|line|..] == [];
  }

  lemma TerminatedJoin(a: Bytes, b: Bytes)
    requires Terminated(a) && Terminated(b)
    ensures Terminated(a + b)
  {
    if b == [] { assert a + b == a; }
  }

  lemma {:induction false} FlattenedRecords(lines: seq<Bytes>)
    requires forall l :: l in lines ==> OneLine(l)
    ensures Records(Flatten(lines)) == lines && Terminated(Flatten(lines))
  {
    if lines != [] {
      var rest := Flatten(lines[1..]);
      FlattenedRecords(lines[1..]);
      assert OneLine(lines[0]);
      OneLineIsOneRecord(lines[0]);
      RecordsJoin(lines[0], rest);
      TerminatedJoin(lines[0], rest);
    }
  }

  // ------------------------------------------------------- reading by chunks

  /** What one bounded read of a line returns. */
  function ReadLine(data: Bytes, at: nat, most: nat): (line: Bytes)
    requires at <= |data| && 0 < most
    ensures |line| <= most && at + |line| <= |data|
  {
    if at == |data| then []
    else
      var n := LineEnd(data[at..]);
      data[at..at + if n <= most then n else most]
  }

  predicate EndsLine(line: Bytes) { line != [] && line[|line| - 1] == NEWLINE }

  /** Where the record holding `at` ends, when `at` is inside or at its start. */
  function RestEnd(data: Bytes, at: nat): (n: nat)
    requires at <= |data|
    ensures at <= n <= |data| && (at < |data| ==> at < n)
  {
    if at == |data| then at else at + LineEnd(data[at..])
  }

  lemma {:induction false} LineEndAfter(data: Bytes, k: nat)
    requires k < LineEndOf(data)
    ensures data != [] && LineEnd(data) == k + LineEnd(data[k..])
  {
    LineEndStops(data);
    LineEndIs(data[k..], LineEnd(data) - k);
  }

  function LineEndOf(data: Bytes): nat { if data == [] then 0 else LineEnd(data) }

  /** One bounded read either finishes the record or stops short of its newline. */
  lemma ReadLineAdvances(data: Bytes, at: nat, most: nat)
    requires at < |data| && 0 < most
    ensures var line := ReadLine(data, at, most);
            && 0 < |line| && at + |line| <= RestEnd(data, at)
            && (at + |line| < RestEnd(data, at) ==>
                  (!EndsLine(line) && |line| == most && RestEnd(data, at + |line|) == RestEnd(data, at)))
            && (at + |line| == RestEnd(data, at) && !EndsLine(line) ==> RestEnd(data, at) == |data|)
  {
    var rest := data[at..];
    var n := LineEnd(rest);
    LineEndStops(rest);
    if n > most {
      LineEndAfter(rest, most);
      assert ReadLine(data, at, most)[most - 1] == rest[most - 1];
      assert rest[most..] == data[at + most..];
    }
  }

  lemma RecordsFrom(data: Bytes, at: nat)
    requires at < |data|
    ensures Records(data[at..]) == [data[at..RestEnd(data, at)]] + Records(data[RestEnd(data, at)..])
  {
    var n := LineEnd(data[at..]);
    assert data[at..][..n] == data[at..at + n] && data[at..][n..] == data[at + n..];
  }

  lemma NextCapped(data: Bytes, at: nat)
    requires at < |data|
    ensures CappedAll(Records(data[at..]))
         == [Capped(data[at..RestEnd(data, at)])] + CappedAll(Records(data[RestEnd(data, at)..]))
  {
    RecordsFrom(data, at);
  }

  /** Reads on past an overlong record. */
  method Drain(data: Bytes, from: nat, first: Bytes) returns (at: nat)
    requires from + |first| <= |data| && first == data[from..from + |first|] && first != []
    requires from + |first| <= RestEnd(data, from)
    requires from + |first| < RestEnd(data, from) ==> !EndsLine(first) && RestEnd(data, from + |first|) == RestEnd(data, from)
    requires from + |first| == RestEnd(data, from) && !EndsLine(first) ==> RestEnd(data, from) == |data|
    ensures at == RestEnd(data, from)
  {
    var line := first;
    ghost var end := RestEnd(data, from);
    at := from + |first|;
    while line != [] && line[|line| - 1] != NEWLINE
      invariant at <= end <= |data|
      invariant at < end ==> line != [] && !EndsLine(line) && RestEnd(data, at) == end
      invariant at == end && line != [] && !EndsLine(line) ==> end == |data|
      decreases end - at, |line|
    {
      line := ReadLine(data, at, MAX_EVENT_BYTES + 1);
      if at < |data| { ReadLineAdvances(data, at, MAX_EVENT_BYTES + 1); }
      at := at + |line|;
    }
  }

  /** Reads one record, or past it when it is too long. */
  method NextRecord(data: Bytes, from: nat) returns (record: Option<Bytes>, at: nat)
    requires from < |data|
    ensures at == RestEnd(data, from) && record == Capped(data[from..at])
  {
    var line := ReadLine(data, from, MAX_EVENT_BYTES + 1);
    ReadLineAdvances(data, from, MAX_EVENT_BYTES + 1);
    if |line| > MAX_EVENT_BYTES {
      at := Drain(data, from, line);
      return None, at;
    }
    return Some(line), from + |line|;
  }

  /** The records of a file, read no more than a bounded chunk at a time. */
  method Lines(data: Bytes) returns (lines: seq<Option<Bytes>>)
    ensures lines == CappedAll(Records(data))
  {
    lines := [];
    var at := 0;
    assert data[0..] == data;
    while at < |data|
      invariant at <= |data|
      invariant lines + CappedAll(Records(data[at..])) == CappedAll(Records(data))
    {
      NextCapped(data, at);
      var record, next := NextRecord(data, at);
      lines, at := lines + [record], next;
    }
  }

  // ------------------------------------------------------------- retention

  datatype Policy = Policy(days: int, maxBytes: int, maxEvents: int)

  predicate ValidPolicy(p: Policy) {
    1 <= p.days <= 3650 && 65536 <= p.maxBytes <= 64 * 1024 * 1024 && 100 <= p.maxEvents <= 100000
  }

  /** What a record says: when it was, and its cleaned line. */
  datatype Event = Event(ts: int, clean: Bytes)

  /** How records are read; a cleaned event is written on one line. */
  ghost predicate Reader(parse: Bytes -> Option<Event>) {
    forall r :: parse(r).Some? ==> OneLine(parse(r).value.clean)
  }

  function Cutoff(now: int, policy: Policy): int { now - policy.days * 86400 }

  function Accepted(record: Bytes, cutoff: int, parse: Bytes -> Option<Event>): Option<Bytes> {
    if Capped(record).None? || parse(record).None? || parse(record).value.ts < cutoff then None
    else Some(parse(record).value.clean)
  }

  /** The cleaned lines of the records that may stay, oldest first. */
  function AllAccepted(records: seq<Bytes>, cutoff: int, parse: Bytes -> Option<Event>): seq<Bytes> {
    if records == [] then []
    else
      var last := Accepted(records[|records| - 1], cutoff, parse);
      AllAccepted(records[..|records| - 1], cutoff, parse) + (if last.Some? then [last.value] else [])
  }

  function Size(lines: seq<Bytes>): nat { if lines == [] then 0 else |lines[0]| + Size(lines[1..]) }

  /** The limits, and what is set aside for lines to come. */
  datatype Room = Room(policy: Policy, bytes: nat, events: nat)

  predicate Fits(lines: seq<Bytes>, room: Room) {
    Size(lines) + room.bytes <= room.policy.maxBytes && |lines| + room.events <= room.policy.maxEvents
  }

  /** Drops lines from the front until the rest fits. */
  function Evict(lines: seq<Bytes>, room: Room): seq<Bytes> {
    if lines == [] || Fits(lines, room) then lines else Evict(lines[1..], room)
  }

  /** `kept` is the longest suffix that fits, or nothing when none does. */
  ghost predicate LongestFitting(kept: seq<Bytes>, lines: seq<Bytes>, room: Room) {
    && |kept| <= |lines| && kept == lines[|lines| - |kept|..]
    && (kept == [] || Fits(kept, room))
    && (forall k :: 0 <= k < |lines| - |kept| ==> !Fits(lines[k..], room))
  }

  lemma {:induction false} EvictIsLongest(lines: seq<Bytes>, room: Room)
    ensures LongestFitting(Evict(lines, room), lines, room)
  {
    if lines != [] && !Fits(lines, room) {
      EvictIsLongest(lines[1..], room);
      var kept := Evict(lines[1..], room);
      assert lines[1..][|lines| - 1 - |kept|..] == lines[|lines| - |kept|..];
      forall k | 0 <= k < |lines| - |kept| ensures !Fits(lines[k..], room) {
        if k == 0 { assert lines[0..] == lines; } else { assert lines[k..] == lines[1..][k - 1..]; }
      }
    }
  }

  lemma {:induction false} SizeJoin(a: seq<Bytes>, b: seq<Bytes>)
    ensures Size(a + b) == Size(a) + Size(b)
  {
    if a == [] {
      assert a + b == b;
    } else {
      assert (a + b)[1..] == a[1..] + b;
      SizeJoin(a[1..], b);
    }
  }

  lemma {:induction false} FlattenedSize(lines: seq<Bytes>)
    ensures |Flatten(lines)| == Size(lines)
  {
    if lines != [] { FlattenedSize(lines[1..]); }
  }

  /** Evicting as lines arrive keeps what evicting once at the end would. */
  lemma {:induction false} EvictEarly(lines: seq<Bytes>, next: Bytes, room: Room)
    ensures Evict(lines + [next], room) == Evict(Evict(lines, room) + [next], room)
    ensures lines != [] && !Fits(lines, room) ==> !Fits(lines + [next], room)
  {
    SizeJoin(lines, [next]);
    if lines != [] && !Fits(lines, room) {
      EvictEarly(lines[1..], next, room);
      assert (lines + [next])[1..] == lines[1..] + [next];
    }
  }

  datatype Pruned = Pruned(removed: nat, retained: nat, bytes: nat)

  function Retained(data: Bytes, cutoff: int, room: Room, parse: Bytes -> Option<Event>): seq<Bytes> {
    Evict(AllAccepted(Records(data), cutoff, parse), room)
  }

  lemma {:induction false} AcceptedLines(records: seq<Bytes>, cutoff: int, parse: Bytes -> Option<Event>)
    requires Reader(parse)
    ensures |AllAccepted(records, cutoff, parse)| <= |records|
    ensures forall l :: l in AllAccepted(records, cutoff, parse) ==> OneLine(l)
  {
    if records != [] { AcceptedLines(records[..|records| - 1], cutoff, parse); }
  }

  /** One turn of the pruning loop on the queue of kept lines. */
  method Push(kept: seq<Bytes>, total: nat, clean: Bytes, room: Room) returns (kept': seq<Bytes>, total': nat, evicted: nat)
    requires total == Size(kept)
    ensures kept' == Evict(kept + [clean], room) && total' == Size(kept')
    ensures evicted + |kept'| == |kept| + 1
  {
    kept', total', evicted := kept + [clean], total + |clean|, 0;
    SizeJoin(kept, [clean]);
    while kept' != [] && (total' + room.bytes > room.policy.maxBytes || |kept'| + room.events > room.policy.maxEvents)
      invariant Evict(kept', room) == Evict(kept + [clean], room)
      invariant total' == Size(kept') && evicted + |kept'| == |kept| + 1
      decreases |kept'|
    {
      total' := total' - |kept'[0]|;
      kept' := kept'[1..];
      evicted := evicted + 1;
    }
  }

  lemma AcceptedNext(records: seq<Bytes>, k: nat, cutoff: int, room: Room, parse: Bytes -> Option<Event>)
    requires k < |records|
    ensures var last, before := Accepted(records[k], cutoff, parse), Evict(AllAccepted(records[..k], cutoff, parse), room);
            Evict(AllAccepted(records[..k + 1], cutoff, parse), room)
            == if last.Some? then Evict(before + [last.value], room) else before
  {
    var accepted := AllAccepted(records[..k], cutoff, parse);
    assert records[..k + 1][..k] == records[..k];
    if Accepted(records[k], cutoff, parse).Some? {
      EvictEarly(accepted, Accepted(records[k], cutoff, parse).value, room);
    } else {
      assert accepted + [] == accepted;
    }
  }

  method Sift(lines: seq<Option<Bytes>>, cutoff: int, room: Room, parse: Bytes -> Option<Event>, ghost records: seq<Bytes>)
    returns (kept: seq<Bytes>, total: nat, discarded: nat)
    requires lines == CappedAll(records)
    ensures kept == Evict(AllAccepted(records, cutoff, parse), room)
    ensures total == Size(kept) && discarded + |kept| == |records|
  {
    kept, total, discarded := [], 0, 0;
    for k := 0 to |lines|
      invariant kept == Evict(AllAccepted(records[..k], cutoff, parse), room)
      invariant total == Size(kept) && discarded + |kept| == k
    {
      AcceptedNext(records, k, cutoff, room, parse);
      assert lines[k] == Capped(records[k]);
      if lines[k].None? || parse(lines[k].value).None? || parse(lines[k].value).value.ts < cutoff {
        discarded := discarded + 1;
        continue;
      }
      assert Accepted(records[k], cutoff, parse) == Some(parse(lines[k].value).value.clean);
      var evicted;
      kept, total, evicted := Push(kept, total, parse(lines[k].value).value.clean, room);
      discarded := discarded + evicted;
    }
    assert records[..|records|] == records;
  }

  // ------------------------------------------------- what pruning comes to

  /** A record of bounded length that can be read and is not too old. */
  predicate Keepable(record: Bytes, since: int, parse: Bytes -> Option<Event>) {
    |record| <= 65536 && parse(record).Some? && parse(record).value.ts >= since
  }

  /** The places of exactly the records that may be kept, in order. */
  ghost predicate Places(at: seq<nat>, records: seq<Bytes>, since: int, parse: Bytes -> Option<Event>) {
    && (forall i :: 0 <= i < |at| ==> at[i] < |records| && Keepable(records[at[i]], since, parse))
    && (forall i, j :: 0 <= i < j < |at| ==> at[i] < at[j])
    && (forall k :: 0 <= k < |records| && Keepable(records[k], since, parse) ==> k in at)
  }

  /** The cleaned lines of the events at these places. */
  ghost predicate CleanedAt(lines: seq<Bytes>, at: seq<nat>, records: seq<Bytes>, parse: Bytes -> Option<Event>) {
    && |lines| == |at|
    && forall i :: 0 <= i < |at| ==> at[i] < |records| && parse(records[at[i]]).Some? && lines[i] == parse(records[at[i]]).value.clean
  }

  /** As a file they leave the room set aside. */
  predicate LeavesRoom(lines: seq<Bytes>, room: Room) {
    |Flatten(lines)| + room.bytes <= room.policy.maxBytes && |lines| + room.events <= room.policy.maxEvents
  }

  /** The newest of the events that may be kept, as many as there is room for, in order and cleaned. */
  ghost predicate PruneLaw(before: seq<Bytes>, after: seq<Bytes>, now: int, room: Room, parse: Bytes -> Option<Event>) {
    exists lines: seq<Bytes>, at: seq<nat> ::
      && Places(at, before, now - room.policy.days * 86400, parse) && CleanedAt(lines, at, before, parse)
      && |after| <= |lines| && after == lines[|lines| - |after|..]
      && (after == [] || LeavesRoom(after, room))
      && forall k :: 0 <= k < |lines| - |after| ==> !LeavesRoom(lines[k..], room)
  }

  lemma PlacesSkip(at: seq<nat>, records: seq<Bytes>, record: Bytes, since: int, parse: Bytes -> Option<Event>)
    requires Places(at, records, since, parse) && !Keepable(record, since, parse)
    ensures Places(at, records + [record], since, parse)
  {
  }

  lemma PlacesAdd(at: seq<nat>, records: seq<Bytes>, record: Bytes, since: int, parse: Bytes -> Option<Event>)
    requires Places(at, records, since, parse) && Keepable(record, since, parse)
    ensures Places(at + [|records|], records + [record], since, parse)
  {
    var more, all := at + [|records|], records + [record];
    assert all[|records|] == record && more[|at|] == |records|;
    forall k | 0 <= k < |all| && Keepable(all[k], since, parse) ensures k in more {
      if k < |records| { assert Keepable(records[k], since, parse) && k in at; }
    }
  }

  lemma CleanedNext(lines: seq<Bytes>, at: seq<nat>, records: seq<Bytes>, record: Bytes, parse: Bytes -> Option<Event>)
    requires CleanedAt(lines, at, records, parse)
    ensures CleanedAt(lines, at, records + [record], parse)
    ensures parse(record).Some? ==> CleanedAt(lines + [parse(record).value.clean], at + [|records|], records + [record], parse)
  {
  }

  lemma {:induction false} AcceptedPlaces(records: seq<Bytes>, cutoff: int, parse: Bytes -> Option<Event>) returns (at: seq<nat>)
    ensures Places(at, records, cutoff, parse) && CleanedAt(AllAccepted(records, cutoff, parse), at, records, parse)
  {
    if records == [] {
      at := [];
    } else {
      var init, last := records[..|records| - 1], records[|records| - 1];
      at := AcceptedPlaces(init, cutoff, parse);
      CleanedNext(AllAccepted(init, cutoff, parse), at, init, last, parse);
      assert records == init + [last];
      if Keepable(last, cutoff, parse) {
        PlacesAdd(at, init, last, cutoff, parse);
        at := at + [|init|];
      } else {
        PlacesSkip(at, init, last, cutoff, parse);
        assert AllAccepted(records, cutoff, parse) == AllAccepted(init, cutoff, parse);
      }
    }
  }

  lemma FitsIsRoom(lines: seq<Bytes>, room: Room)
    ensures Fits(lines, room) <==> LeavesRoom(lines, room)
  {
    FlattenedSize(lines);
  }

  lemma PruneLawful(data: Bytes, now: int, room: Room, parse: Bytes -> Option<Event>)
    ensures PruneLaw(Records(data), Retained(data, Cutoff(now, room.policy), room, parse), now, room, parse)
  {
    var records, cutoff := Records(data), Cutoff(now, room.policy);
    var lines, after := AllAccepted(records, cutoff, parse), Retained(data, cutoff, room, parse);
    var at := AcceptedPlaces(records, cutoff, parse);
    EvictIsLongest(lines, room);
    FitsIsRoom(after, room);
    forall k | 0 <= k < |lines| - |after| ensures !LeavesRoom(lines[k..], room) { FitsIsRoom(lines[k..], room); }
  }

  /** Every line left is the cleaned line of a record that was there, was readable and is recent. */
  lemma KeptIsRecent(before: seq<Bytes>, after: seq<Bytes>, now: int, room: Room, parse: Bytes -> Option<Event>, line: Bytes)
    requires PruneLaw(before, after, now, room, parse) && line in after
    ensures exists r :: r in before && Keepable(r, now - room.policy.days * 86400, parse) && parse(r).value.clean == line
  {
    var lines: seq<Bytes>, at: seq<nat> :|
      && Places(at, before, now - room.policy.days * 86400, parse) && CleanedAt(lines, at, before, parse)
      && |after| <= |lines| && after == lines[|lines| - |after|..];
    var i :| 0 <= i < |after| && after[i] == line;
    assert lines[|lines| - |after| + i] == line;
    assert before[at[|lines| - |after| + i]] in before;
  }

  /** A file may go on only on the day it was last counted, within its limits with one more event. */
  predicate MayGrow(file: Bytes, last: Bytes, day: Option<int>, now: int, policy: Policy) {
    day == Some(now / 86400) && |file| + |last| <= policy.maxBytes && |Records(file)| + 1 <= policy.maxEvents
  }

  /** The event comes last, after everything that was there, or after what pruning leaves of it. */
  ghost predicate LogLaw(before: Bytes, day: Option<int>, line: Bytes, summary: Bytes, after: seq<Bytes>, now: int, policy: Policy, parse: Bytes -> Option<Event>) {
    var last := if |line| <= 65536 then line else summary;
    && |after| > 0 && after[|after| - 1] == last
    && var kept := after[..|after| - 1];
       if MayGrow(before, last, day, now, policy) then kept == Records(before)
       else PruneLaw(Records(before), kept, now, Room(policy, |last|, 1), parse)
  }

  function DayOf(cached: Option<(int, nat)>): Option<int> { if cached.Some? then Some(cached.value.0) else None }

  lemma LogLawful(file: Bytes, cached: Option<(int, nat)>, line: Bytes, summary: Bytes, now: int, policy: Policy, parse: Bytes -> Option<Event>)
    requires cached.Some? ==> cached.value.1 == |Records(file)|
    ensures LogLaw(file, DayOf(cached), line, summary, Logged(file, cached, Shortened(line, summary), now, policy, parse), now, policy, parse)
  {
    var last := Shortened(line, summary);
    var after := Logged(file, cached, last, now, policy, parse);
    PruneLawful(file, now, Room(policy, |last|, 1), parse);
    assert after[..|after| - 1] == if Overdue(file, cached, last, now, policy)
      then Retained(file, Cutoff(now, policy), Room(policy, |last|, 1), parse) else Records(file);
  }

  // ------------------------------------------------------- the log and its count

  datatype Outcome = Written | InvalidPolicy

  class AuditLog {
    var file: Bytes
    /** The day of the last write and how many events the file then held. */
    var cached: Option<(int, nat)>

    ghost predicate Valid()
      reads this
    {
      cached.Some? ==> Terminated(file) && cached.value.1 == |Records(file)|
    }

    /** A process starts over a file it has not counted. */
    constructor (data: Bytes)
      ensures Valid() && file == data && cached.None?
    {
      file, cached := data, None;
    }

    method PruneEvents(now: int, room: Room, parse: Bytes -> Option<Event>) returns (report: Pruned)
      requires Reader(parse)
      modifies this
      ensures Valid() && cached.Some? && cached.value.0 == now / 86400
      ensures var kept := Retained(old(file), Cutoff(now, room.policy), room, parse);
              && file == Flatten(kept) && Records(file) == kept
              && report.retained == |kept| && report.bytes == |file|
              && report.removed + report.retained == |Records(old(file))|
      ensures PruneLaw(Records(old(file)), Records(file), now, room, parse)
    {
      PruneLawful(file, now, room, parse);
      ghost var records := Records(file);
      var lines := Lines(file);
      var cutoff := Cutoff(now, room.policy);
      var kept, total, discarded := Sift(lines, cutoff, room, parse, records);
      KeptLines(records, cutoff, room, parse);
      FlattenedRecords(kept);
      FlattenedSize(kept);
      file, cached := Flatten(kept), Some((now / 86400, |kept|));
      return Pruned(discarded, |kept|, total);
    }

    method LogEvent(line: Bytes, summary: Bytes, now: int, policy: Policy, parse: Bytes -> Option<Event>) returns (outcome: Outcome)
      requires Valid() && Reader(parse)
      requires OneLine(line) && OneLine(summary) && |summary| <= MAX_EVENT_BYTES
      modifies this
      ensures Valid()
      ensures outcome.Written? <==> 1 <= policy.days <= 3650 && 65536 <= policy.maxBytes <= 67108864 && 100 <= policy.maxEvents <= 100000
      ensures outcome == InvalidPolicy ==> file == old(file) && cached == old(cached)
      ensures outcome == Written ==> |file| <= policy.maxBytes && |Records(file)| <= policy.maxEvents
      ensures outcome == Written ==> cached == Some((now / 86400, |Records(file)|))
      ensures outcome == Written ==>
        Records(file) == Logged(old(file), old(cached), Shortened(line, summary), now, policy, parse)
      ensures outcome == Written ==> LogLaw(old(file), DayOf(old(cached)), line, summary, Records(file), now, policy, parse)
    {
      LogLawful(file, cached, line, summary, now, policy, parse);
      if !ValidPolicy(policy) { return InvalidPolicy; }
      var last := Shortened(line, summary);
      if Overdue(file, cached, last, now, policy) {
        var room := Room(policy, |last|, 1);
        RetainedFits(file, Cutoff(now, policy), room, parse);
        var _ := PruneEvents(now, room, parse);
      }
      Append(last, now);
      return Written;
    }

    method Append(last: Bytes, now: int)
      requires Valid() && cached.Some? && OneLine(last)
      modifies this
      ensures Valid() && |file| == |old(file)| + |last| && Records(file) == Records(old(file)) + [last]
      ensures cached == Some((now / 86400, |Records(file)|))
    {
      RecordsJoin(file, last);
      OneLineIsOneRecord(last);
      file, cached := file + last, Some((now / 86400, cached.value.1 + 1));
    }
  }

  /** The records after a line is logged. */
  function Logged(file: Bytes, cached: Option<(int, nat)>, last: Bytes, now: int, policy: Policy, parse: Bytes -> Option<Event>): seq<Bytes> {
    (if Overdue(file, cached, last, now, policy) then Retained(file, Cutoff(now, policy), Room(policy, |last|, 1), parse)
     else Records(file)) + [last]
  }

  function Shortened(line: Bytes, summary: Bytes): Bytes {
    if |line| > MAX_EVENT_BYTES then summary else line
  }

  /** The file must be pruned before this line is appended. */
  predicate Overdue(file: Bytes, cached: Option<(int, nat)>, line: Bytes, now: int, policy: Policy) {
    |file| + |line| > policy.maxBytes || cached.None? || cached.value.0 != now / 86400 || cached.value.1 + 1 > policy.maxEvents
  }

  lemma KeptLines(records: seq<Bytes>, cutoff: int, room: Room, parse: Bytes -> Option<Event>)
    requires Reader(parse)
    ensures forall l :: l in Evict(AllAccepted(records, cutoff, parse), room) ==> OneLine(l)
  {
    AcceptedLines(records, cutoff, parse);
    EvictIsLongest(AllAccepted(records, cutoff, parse), room);
  }

  /** What is retained leaves room for what was set aside, if that fits at all. */
  lemma RetainedFits(data: Bytes, cutoff: int, room: Room, parse: Bytes -> Option<Event>)
    requires room.bytes <= room.policy.maxBytes && room.events <= room.policy.maxEvents
    ensures var kept := Retained(data, cutoff, room, parse);
            |Flatten(kept)| + room.bytes <= room.policy.maxBytes && |kept| + room.events <= room.policy.maxEvents
  {
    EvictIsLongest(AllAccepted(Records(data), cutoff, parse), room);
    FlattenedSize(Retained(data, cutoff, room, parse));
  }

  /** What pruning keeps: the longest suffix of the acceptable events that fits. */
  lemma RetentionIsOptimal(data: Bytes, cutoff: int, room: Room, parse: Bytes -> Option<Event>)
    ensures LongestFitting(Retained(data, cutoff, room, parse), AllAccepted(Records(data), cutoff, parse), room)
  {
    EvictIsLongest(AllAccepted(Records(data), cutoff, parse), room);
  }
}
