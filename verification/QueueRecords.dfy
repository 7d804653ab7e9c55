// The record file of internal/fleet/queue.go, byte by byte: reading one
// newline-terminated record through a buffer of any size, eviction, and the
// queue object with its live, claimed and temporary files.

module QueueRecords {
  import opened Wrappers

  const NEWLINE: Byte := 10
  const MAX_PAYLOAD_BYTES := 0x10_0000

  // ----- a plain newline split, reading on from position i -----

  /** The first newline at or after i, or the end of the file. */
  function LineEnd(b: Bytes, i: nat): (n: nat)
    requires i <= |b|
    ensures i <= n <= |b|
    ensures n < |b| ==> b[n] == NEWLINE
    ensures forall k :: i <= k < n ==> b[k] != NEWLINE
    decreases |b| - i
  {
    if i == |b| || b[i] == NEWLINE then i else LineEnd(b, i + 1)
  }

  lemma {:induction false} LineEndUnique(b: Bytes, i: nat, n: nat)
    requires i <= n <= |b| && (n < |b| ==> b[n] == NEWLINE) && forall k :: i <= k < n ==> b[k] != NEWLINE
    ensures LineEnd(b, i) == n
  {
  }

  /** The record at i, without its newline. */
  function Payload(b: Bytes, i: nat): Bytes
    requires i <= |b|
  {
    b[i..LineEnd(b, i)]
  }

  /** Where the next record starts; the last record may have no newline. */
  function Next(b: Bytes, i: nat): (n: nat)
    requires i <= |b|
    ensures i <= n <= |b|
    ensures i < |b| ==> i < n
  {
    if LineEnd(b, i) < |b| then LineEnd(b, i) + 1 else |b|
  }

  function Records(b: Bytes, i: nat): seq<Bytes>
    requires i <= |b|
    decreases |b| - i
  {
    if i == |b| then [] else [Payload(b, i)] + Records(b, Next(b, i))
  }

  /** The position after n more records, or the end of the file. */
  function Skip(b: Bytes, i: nat, n: nat): (p: nat)
    requires i <= |b|
    ensures i <= p <= |b|
    decreases n
  {
    if n == 0 || i == |b| then i else Skip(b, Next(b, i), n - 1)
  }

  predicate Oversized(payload: Bytes) {
    |payload| > MAX_PAYLOAD_BYTES
  }

  /** Skipping n records leaves the others. */
  lemma {:induction false} SkipDrops(b: Bytes, i: nat, n: nat)
    requires i <= |b| && n <= |Records(b, i)|
    ensures Records(b, Skip(b, i, n)) == Records(b, i)[n..]
    decreases n
  {
    if n > 0 {
      SkipDrops(b, Next(b, i), n - 1);
    }
  }

  lemma {:induction false} SkipOn(b: Bytes, i: nat, n: nat)
    requires i <= |b|
    ensures Skip(b, i, n + 1) == Next(b, Skip(b, i, n))
    decreases n
  {
    if i < |b| && n > 0 {
      SkipOn(b, Next(b, i), n - 1);
    } else if i < |b| {
      assert Skip(b, i, 1) == Skip(b, Next(b, i), 0);
    }
  }

  lemma {:induction false} RecordCount(b: Bytes, i: nat, n: nat)
    requires i <= |b|
    ensures Skip(b, i, n) < |b| <==> n < |Records(b, i)|
    decreases n
  {
    if n > 0 && i < |b| {
      RecordCount(b, Next(b, i), n - 1);
    }
  }

  lemma {:induction false} LineEndOfSuffix(b: Bytes, i: nat, j: nat)
    requires i <= j <= |b|
    ensures LineEnd(b[i..], j - i) == LineEnd(b, j) - i
    ensures Payload(b[i..], j - i) == Payload(b, j)
  {
    LineEndUnique(b[i..], j - i, LineEnd(b, j) - i);
  }

  /** A suffix is split like the file it was cut from. */
  lemma {:induction false} RecordsOfSuffix(b: Bytes, i: nat, j: nat)
    requires i <= j <= |b|
    ensures Records(b[i..], j - i) == Records(b, j)
    decreases |b| - j
  {
    if j < |b| {
      LineEndOfSuffix(b, i, j);
      var c := b[i..];
      var n := Next(b, j);
      RecordsOfSuffix(b, i, n);
      assert Next(c, j - i) == n - i;
      assert Records(c, j - i) == [Payload(c, j - i)] + Records(c, n - i);
    }
  }

  /** Every record of the file has its newline. */
  predicate WholeLines(b: Bytes) {
    b == [] || b[|b| - 1] == NEWLINE
  }

  lemma {:induction false} LineEndOfPrefix(a: Bytes, b: Bytes, i: nat)
    requires WholeLines(a) && i < |a|
    ensures LineEnd(a + b, i) == LineEnd(a, i) < |a|
    ensures Payload(a + b, i) == Payload(a, i)
  {
    assert LineEnd(a, i) < |a|;
    LineEndUnique(a + b, i, LineEnd(a, i));
  }

  lemma {:induction false} RecordsAfter(a: Bytes, b: Bytes)
    ensures Records(a + b, |a|) == Records(b, 0)
  {
    RecordsOfSuffix(a + b, |a|, |a|);
    assert (a + b)[|a|..] == b;
  }

  lemma {:induction false} Reassociate(p: Bytes, x: seq<Bytes>, y: seq<Bytes>)
    ensures [p] + (x + y) == ([p] + x) + y
  {
  }

  lemma {:induction false} RecordsStep(a: Bytes, b: Bytes, i: nat, n: nat)
    requires WholeLines(a) && i < |a| && n == Next(a, i)
    requires Records(a + b, n) == Records(a, n) + Records(b, 0)
    ensures Records(a + b, i) == Records(a, i) + Records(b, 0)
  {
    LineEndOfPrefix(a, b, i);
    var p := Payload(a, i);
    assert Records(a, i) == [p] + Records(a, n);
    assert Records(a + b, i) == [p] + Records(a + b, n);
    Reassociate(p, Records(a, n), Records(b, 0));
  }

  lemma {:induction false} RecordsOfPrefix(a: Bytes, b: Bytes, i: nat)
    requires WholeLines(a) && i <= |a|
    ensures Records(a + b, i) == Records(a, i) + Records(b, 0)
    decreases |a| - i
  {
    if i == |a| {
      RecordsAfter(a, b);
    } else {
      var n := Next(a, i);
      RecordsOfPrefix(a, b, n);
      RecordsStep(a, b, i, n);
    }
  }

  /** Appending a payload and a newline appends one record, whatever the payload holds but a newline. */
  lemma {:induction false} RecordsOfAppend(a: Bytes, payload: Bytes)
    requires WholeLines(a) && NEWLINE !in payload
    ensures WholeLines(a + payload + [NEWLINE])
    ensures Records(a + payload + [NEWLINE], 0) == Records(a, 0) + [payload]
  {
    var line := payload + [NEWLINE];
    LineEndUnique(line, 0, |payload|);
    assert Records(line, |line|) == [];
    assert Records(line, 0) == [payload];
    RecordsOfPrefix(a, line, 0);
    assert a + line == a + payload + [NEWLINE];
  }

  // ----- the buffered reader -----

  datatype SliceEnd = Found | BufferFull | AtEOF

  class Reader {
    const data: Bytes
    const size: nat  // of the buffer
    var pos: nat

    constructor (data: Bytes, size: nat)
      requires size > 0
      ensures this.data == data && this.size == size && pos == 0
    {
      this.data, this.size, pos := data, size, 0;
    }

    ghost predicate Valid()
      reads this
    {
      pos <= |data| && size > 0
    }

    /** Up to the next newline, or a full buffer without one, or the end of the file. */
    method ReadSlice() returns (chunk: Bytes, end: SliceEnd)
      requires Valid()
      modifies this`pos
      ensures Valid() && old(pos) <= pos
      ensures chunk == data[old(pos)..pos]
      ensures match end
              case Found => pos == LineEnd(data, old(pos)) + 1
              case BufferFull => old(pos) < pos <= LineEnd(data, old(pos))
              case AtEOF => pos == |data| == LineEnd(data, old(pos))
    {
      ghost var start := pos;
      var n := 0;
      while n < size && pos + n < |data| && data[pos + n] != NEWLINE
        invariant n <= size && pos + n <= |data|
        invariant forall k :: pos <= k < pos + n ==> data[k] != NEWLINE
      {
        n := n + 1;
      }
      if n < size && pos + n < |data| {
        LineEndUnique(data, pos, pos + n);
        n := n + 1;
        end := Found;
      } else if n == size {
        end := BufferFull;
      } else {
        LineEndUnique(data, pos, pos + n);
        end := AtEOF;
      }
      chunk := data[pos..pos + n];
      pos := pos + n;
    }

    /** Reads one record; `line` is meaningful unless the record is oversized. */
    method ReadRecord() returns (line: Bytes, consumed: nat, oversized: bool, eof: bool)
      requires Valid()
      modifies this`pos
      ensures Valid()
      ensures eof <==> old(pos) == |data|
      ensures pos == Next(data, old(pos)) && consumed == pos - old(pos)
      ensures !eof ==> oversized == Oversized(Payload(data, old(pos)))
      ensures !eof && !oversized ==> line == Payload(data, old(pos))
    {
      ghost var start := pos;
      line := [];
      while true
        invariant Valid() && start <= pos <= LineEnd(data, start)
        invariant line == data[start..pos]
        invariant |line| <= MAX_PAYLOAD_BYTES
        decreases |data| - pos
      {
        ghost var mid := pos;
        LineEndUnique(data, pos, LineEnd(data, start));
        var chunk, end := ReadSlice();
        line := line + chunk;
        SliceJoin(data, start, mid, pos);
        match end {
          case Found =>
            return line[..|line| - 1], |line|, |line| - 1 > MAX_PAYLOAD_BYTES, false;
          case BufferFull =>
            if |line| > MAX_PAYLOAD_BYTES {
              LineEndUnique(data, pos, LineEnd(data, start));
              var skipped := DiscardRecord();
              return [], |line| + skipped, true, false;
            }
          case AtEOF =>
            if |line| == 0 {
              return [], 0, false, true;
            }
            return line, |line|, |line| > MAX_PAYLOAD_BYTES, false;
        }
      }
    }

    /** Drops bytes up to and including the next newline. */
    method DiscardRecord() returns (consumed: nat)
      requires Valid()
      modifies this`pos
      ensures Valid()
      ensures pos == Next(data, old(pos)) && consumed == pos - old(pos)
    {
      ghost var start := pos;
      consumed := 0;
      while true
        invariant Valid() && pos == start + consumed <= LineEnd(data, start)
        decreases |data| - pos
      {
        LineEndUnique(data, pos, LineEnd(data, start));
        var chunk, end := ReadSlice();
        consumed := consumed + |chunk|;
        if !end.BufferFull? {
          return;
        }
      }
    }
  }

  lemma {:induction false} SliceJoin(b: Bytes, i: nat, j: nat, k: nat)
    requires i <= j <= k <= |b|
    ensures b[i..j] + b[j..k] == b[i..k]
  {
  }

  // ----- eviction -----

  /** How many records from i on have to go so that the rest fits in `target` bytes. */
  function Excess(b: Bytes, i: nat, target: nat): (n: nat)
    requires i <= |b|
    decreases |b| - i
  {
    if |b| - i <= target then 0 else 1 + Excess(b, Next(b, i), target)
  }

  /** After that many records the rest fits, and no longer record-aligned rest does. */
  lemma {:induction false} ExcessIsLeast(b: Bytes, i: nat, target: nat, n: nat)
    requires i <= |b|
    ensures |b| - Skip(b, i, n) <= target <==> n >= Excess(b, i, target)
    decreases |b| - i
  {
    if |b| - i > target && n > 0 {
      ExcessIsLeast(b, Next(b, i), target, n - 1);
    }
  }

  function Evicted(b: Bytes, target: nat): Bytes {
    b[Skip(b, 0, Excess(b, 0, target))..]
  }

  /** Eviction keeps whole records: those after the ones it counts. */
  lemma {:induction false} EvictionKeepsNewest(b: Bytes, target: nat)
    ensures |Evicted(b, target)| <= target
    ensures Excess(b, 0, target) <= |Records(b, 0)|
    ensures Records(Evicted(b, target), 0) == Records(b, 0)[Excess(b, 0, target)..]
  {
    var n := Excess(b, 0, target);
    ExcessIsLeast(b, 0, target, n);
    if n > 0 {
      ExcessIsLeast(b, 0, target, n - 1);
      RecordCount(b, 0, n - 1);
    }
    SkipDrops(b, 0, n);
    RecordsOfSuffix(b, Skip(b, 0, n), Skip(b, 0, n));
  }

  method EvictOldest(data: Bytes, target: nat, bufferSize: nat) returns (kept: Bytes, evicted: nat)
    requires bufferSize > 0
    ensures evicted == Excess(data, 0, target) && kept == Evicted(data, target)
  {
    var r := new Reader(data, bufferSize);
    var skip := |data| - target;
    evicted := 0;
    while skip > 0
      invariant r.Valid() && r.data == data
      invariant skip == |data| - r.pos - target
      invariant evicted + Excess(data, r.pos, target) == Excess(data, 0, target)
      invariant r.pos == Skip(data, 0, evicted)
      decreases |data| - r.pos
    {
      var _, consumed, _, eof := r.ReadRecord();
      if eof {
        break;
      }
      SkipOn(data, 0, evicted);
      skip := skip - consumed;
      evicted := evicted + 1;
    }
    kept := data[r.pos..];
  }

  /** The tail of one file followed by another: its undelivered records, then the newer ones. */
  lemma {:induction false} RestoredRecords(file: Bytes, newer: Bytes, n: nat)
    requires WholeLines(file) && n <= |Records(file, 0)|
    ensures var tail := file[Skip(file, 0, n)..];
            WholeLines(tail) && Records(tail + newer, 0) == Records(file, 0)[n..] + Records(newer, 0)
  {
    var p := Skip(file, 0, n);
    var tail := file[p..];
    assert WholeLines(tail);
    SkipDrops(file, 0, n);
    assert Records(tail, 0) == Records(file, p) by {
      RecordsOfSuffix(file, p, p);
    }
    RecordsOfPrefix(tail, newer, 0);
  }

  // ----- sending a claimed file -----

  datatype Answer = Accepted | Permanent | Transient

  /** What happens to one record of a claimed file. */
  datatype Fate = Delivered | Rejected | TooLarge | Blank | Kept

  /** The fate of a record when the n-th attempt of the drain would be the next. */
  function FateOf(send: (nat, Bytes) -> Answer, n: nat, payload: Bytes): Fate {
    if Oversized(payload) then TooLarge
    else if payload == [] then Blank
    else
      match send(n, payload)
      case Accepted => Delivered
      case Permanent => Rejected
      case Transient => Kept
  }

  predicate Attempted(f: Fate) {
    f.Delivered? || f.Rejected? || f.Kept?
  }

  /** The records dealt with in order, up to the first one that has to be kept. */
  function Fates(send: (nat, Bytes) -> Answer, n: nat, records: seq<Bytes>): (r: seq<Fate>)
    ensures |r| <= |records|
    ensures Kept !in r
    decreases |records|
  {
    if records == [] then []
    else
      var f := FateOf(send, n, records[0]);
      if f.Kept? then [] else [f] + Fates(send, if Attempted(f) then n + 1 else n, records[1..])
  }

  function Count(fates: seq<Fate>, f: Fate): nat {
    if fates == [] then 0 else (if fates[0] == f then 1 else 0) + Count(fates[1..], f)
  }

  /** The payloads offered to the server, in order: those dealt with, then the one that failed. */
  function Offered(send: (nat, Bytes) -> Answer, n: nat, records: seq<Bytes>): seq<Bytes>
    decreases |records|
  {
    if records == [] then []
    else
      var f := FateOf(send, n, records[0]);
      if f.Kept? then [records[0]]
      else (if Attempted(f) then [records[0]] else []) +
           Offered(send, if Attempted(f) then n + 1 else n, records[1..])
  }

  /** The running totals of a drain. */
  datatype Tally = Tally(handled: nat, offered: seq<Bytes>, rejected: nat, tooLarge: nat)

  function Add(t: Tally, f: Fate, payload: Bytes): Tally {
    Tally(t.handled + 1,
          if Attempted(f) then t.offered + [payload] else t.offered,
          if f == Rejected then t.rejected + 1 else t.rejected,
          if f == TooLarge then t.tooLarge + 1 else t.tooLarge)
  }

  function Tallied(send: (nat, Bytes) -> Answer, t: Tally, records: seq<Bytes>): Tally
    decreases |records|
  {
    if records == [] then t
    else
      var f := FateOf(send, |t.offered|, records[0]);
      if f.Kept? then t.(offered := t.offered + [records[0]])
      else Tallied(send, Add(t, f, records[0]), records[1..])
  }

  lemma {:induction false} TallyStep(send: (nat, Bytes) -> Answer, t: Tally, b: Bytes, i: nat)
    requires i < |b|
    ensures var f := FateOf(send, |t.offered|, Payload(b, i));
            Tallied(send, t, Records(b, i)) ==
            if f.Kept? then t.(offered := t.offered + [Payload(b, i)])
            else Tallied(send, Add(t, f, Payload(b, i)), Records(b, Next(b, i)))
  {
    var records := Records(b, i);
    assert records[0] == Payload(b, i) && records[1..] == Records(b, Next(b, i));
  }

  /** The k-th record is read, and its fate is added. */
  lemma {:induction false} OneMore(send: (nat, Bytes) -> Answer, t: Tally, b: Bytes, k: nat, goal: Tally)
    requires var i := Skip(b, 0, k); i < |b| && Tallied(send, t, Records(b, i)) == goal
    ensures var i := Skip(b, 0, k);
            var f := FateOf(send, |t.offered|, Payload(b, i));
            && Skip(b, 0, k + 1) == Next(b, i)
            && if f.Kept? then goal == t.(offered := t.offered + [Payload(b, i)])
               else Tallied(send, Add(t, f, Payload(b, i)), Records(b, Next(b, i))) == goal
  {
    SkipOn(b, 0, k);
    TallyStep(send, t, b, Skip(b, 0, k));
  }

  lemma {:induction false} CountStep(f: Fate, fates: seq<Fate>, g: Fate)
    ensures Count([f] + fates, g) == (if f == g then 1 else 0) + Count(fates, g)
  {
    assert ([f] + fates)[1..] == fates;
  }

  /** What a drain that is at `t` has counted when it stops. */
  function Totals(send: (nat, Bytes) -> Answer, t: Tally, records: seq<Bytes>): Tally {
    var n := |t.offered|;
    var fates := Fates(send, n, records);
    Tally(t.handled + |fates|, t.offered + Offered(send, n, records),
          t.rejected + Count(fates, Rejected), t.tooLarge + Count(fates, TooLarge))
  }

  lemma {:induction false} TotalsStep(send: (nat, Bytes) -> Answer, t: Tally, records: seq<Bytes>)
    requires records != [] && !FateOf(send, |t.offered|, records[0]).Kept?
    ensures var f := FateOf(send, |t.offered|, records[0]);
            Totals(send, t, records) == Totals(send, Add(t, f, records[0]), records[1..])
  {
    var f, rest := FateOf(send, |t.offered|, records[0]), records[1..];
    var t' := Add(t, f, records[0]);
    var fates := Fates(send, |t'.offered|, rest);
    assert Fates(send, |t.offered|, records) == [f] + fates;
    CountStep(f, fates, Rejected);
    CountStep(f, fates, TooLarge);
    var more := Offered(send, |t'.offered|, rest);
    var first := if Attempted(f) then [records[0]] else [];
    assert Offered(send, |t.offered|, records) == first + more;
    assert t.offered + (first + more) == t'.offered + more;
  }

  lemma {:induction false} TallyMeans(send: (nat, Bytes) -> Answer, t: Tally, records: seq<Bytes>)
    ensures Tallied(send, t, records) == Totals(send, t, records)
    decreases |records|
  {
    if records != [] {
      var f := FateOf(send, |t.offered|, records[0]);
      if !f.Kept? {
        TotalsStep(send, t, records);
        TallyMeans(send, Add(t, f, records[0]), records[1..]);
      }
    }
  }

  // ----- what a call leaves in the files -----

  /** Compaction goes down to four fifths of the bound. */
  function Target(maxBytes: nat): nat {
    maxBytes * 4 / 5
  }

  function Contents(file: Option<Bytes>): Bytes {
    if file.Some? then file.value else []
  }

  /** The live file after a payload that is not oversized. */
  function EnqueuedFile(live: Option<Bytes>, payload: Bytes, maxBytes: nat): Bytes {
    var appended := Contents(live) + payload + [NEWLINE];
    if |appended| <= maxBytes then appended else Evicted(appended, Target(maxBytes))
  }

  /** The live file after a drain: the undelivered tail of the claimed file, then what is newer. */
  function DrainedFile(live: Option<Bytes>, claimed: Option<Bytes>, send: (nat, Bytes) -> Answer): Option<Bytes> {
    var file := if claimed.Some? then claimed else live;
    var newer := if claimed.Some? then live else None;
    if file.None? then None
    else
      var records := Records(file.value, 0);
      var handled := |Fates(send, 0, records)|;
      if handled == |records| then newer else Some(file.value[Skip(file.value, 0, handled)..] + Contents(newer))
  }

  /** How many records an enqueue evicts. */
  function Overflow(live: Option<Bytes>, payload: Bytes, maxBytes: nat): nat {
    var appended := Contents(live) + payload + [NEWLINE];
    if |appended| <= maxBytes then 0 else Excess(appended, 0, Target(maxBytes))
  }

  /**
   An enqueued payload becomes the last record, and the oldest records go if
   the file is too long: the new one stays exactly if nothing had to go, or if
   it fits the target by itself.
   */
  lemma {:induction false} EnqueuedRecords(live: Option<Bytes>, payload: Bytes, maxBytes: nat)
    requires WholeLines(Contents(live)) && NEWLINE !in payload
    ensures var file := EnqueuedFile(live, payload, maxBytes);
            var all, n := Records(Contents(live), 0) + [payload], Overflow(live, payload, maxBytes);
            && WholeLines(file) && n <= |all| && Records(file, 0) == all[n..]
            && (n < |all| <==> |Contents(live)| + |payload| + 1 <= maxBytes || |payload| + 1 <= Target(maxBytes))
  {
    var appended, all := Contents(live) + payload + [NEWLINE], Records(Contents(live), 0) + [payload];
    RecordsOfAppend(Contents(live), payload);
    EvictionKeepsNewest(appended, Target(maxBytes));
    assert all[0..] == all;
    LastRecordFits(Contents(live), payload, Target(maxBytes));
  }

  lemma {:induction false} SkipPrefix(a: Bytes, b: Bytes, i: nat, n: nat)
    requires WholeLines(a) && i <= |a| && n <= |Records(a, i)|
    ensures Skip(a + b, i, n) == Skip(a, i, n)
    decreases n
  {
    if n > 0 {
      LineEndOfPrefix(a, b, i);
      SkipPrefix(a, b, Next(a, i), n - 1);
    }
  }

  lemma {:induction false} LastRecordFits(a: Bytes, payload: Bytes, target: nat)
    requires WholeLines(a)
    ensures Excess(a + payload + [NEWLINE], 0, target) <= |Records(a, 0)| <==> |payload| + 1 <= target
  {
    var n, b := |Records(a, 0)|, payload + [NEWLINE];
    assert a + payload + [NEWLINE] == a + b;
    SkipPrefix(a, b, 0, n);
    RecordCount(a, 0, n);
    ExcessIsLeast(a + b, 0, target, n);
  }

  /** What a drain that dealt with `n` records leaves. */
  function LeftOver(file: Bytes, newer: Bytes, n: nat): Bytes
    requires n <= |Records(file, 0)|
  {
    if n == |Records(file, 0)| then newer else file[Skip(file, 0, n)..] + newer
  }

  lemma {:induction false} LeftRecords(file: Bytes, newer: Bytes, n: nat)
    requires WholeLines(file) && WholeLines(newer) && n <= |Records(file, 0)|
    ensures WholeLines(LeftOver(file, newer, n))
    ensures Records(LeftOver(file, newer, n), 0) == Records(file, 0)[n..] + Records(newer, 0)
  {
    RestoredRecords(file, newer, n);
  }

  lemma {:induction false} DrainLeaves(live: Option<Bytes>, claimed: Option<Bytes>, send: (nat, Bytes) -> Answer)
    ensures var file := Contents(if claimed.Some? then claimed else live);
            var newer := Contents(if claimed.Some? then live else None);
            Contents(DrainedFile(live, claimed, send)) == LeftOver(file, newer, |Fates(send, 0, Records(file, 0))|)
  {
  }

  /** A drain leaves the records that were not dealt with, and then the newer ones. */
  lemma {:induction false} DrainedRecords(live: Option<Bytes>, claimed: Option<Bytes>, send: (nat, Bytes) -> Answer)
    requires WholeLines(Contents(live)) && WholeLines(Contents(claimed))
    ensures var file := Contents(if claimed.Some? then claimed else live);
            var newer := Contents(if claimed.Some? then live else None);
            var left, n := Contents(DrainedFile(live, claimed, send)), |Fates(send, 0, Records(file, 0))|;
            WholeLines(left) && Records(left, 0) == Records(file, 0)[n..] + Records(newer, 0)
  {
    var file := Contents(if claimed.Some? then claimed else live);
    var newer := Contents(if claimed.Some? then live else None);
    DrainLeaves(live, claimed, send);
    LeftRecords(file, newer, |Fates(send, 0, Records(file, 0))|);
  }

  /** An unbounded eviction bound means the default. */
  const DEFAULT_MAX_QUEUE_BYTES := 64 * 0x10_0000

  class Queue {
    const maxBytes: nat
    const bufferSize: nat
    var live: Option<Bytes>
    var claimed: Option<Bytes>
    var draining: bool
    var droppedPermanent: nat
    var droppedOversized: nat
    var droppedEvicted: nat

    constructor (maxBytes: int, bufferSize: nat, live: Option<Bytes>, claimed: Option<Bytes>)
      requires bufferSize > 0
      ensures this.maxBytes == (if maxBytes <= 0 then DEFAULT_MAX_QUEUE_BYTES else maxBytes)
      ensures this.bufferSize == bufferSize && this.live == live && this.claimed == claimed && !draining
      ensures droppedPermanent == droppedOversized == droppedEvicted == 0
    {
      this.maxBytes := if maxBytes <= 0 then DEFAULT_MAX_QUEUE_BYTES else maxBytes;
      this.bufferSize, this.live, this.claimed := bufferSize, live, claimed;
      draining, droppedPermanent, droppedOversized, droppedEvicted := false, 0, 0, 0;
    }

    method Enqueue(payload: Bytes)
      requires bufferSize > 0
      modifies this`live, this`droppedOversized, this`droppedEvicted
      ensures Oversized(payload) ==>
                live == old(live) && droppedOversized == old(droppedOversized) + 1 &&
                  droppedEvicted == old(droppedEvicted)
      ensures !Oversized(payload) ==>
                var appended := Contents(old(live)) + payload + [NEWLINE];
                && droppedOversized == old(droppedOversized)
                && live == Some(EnqueuedFile(old(live), payload, maxBytes))
                && droppedEvicted == old(droppedEvicted) +
                  (if |appended| <= maxBytes then 0 else Excess(appended, 0, Target(maxBytes)))
                && |live.value| <= maxBytes
    {
      if |payload| > MAX_PAYLOAD_BYTES {
        droppedOversized := droppedOversized + 1;
        return;
      }
      var appended := Contents(live) + payload + [NEWLINE];
      live := Some(appended);
      if |appended| <= maxBytes {
        return;
      }
      EvictOldestLocked();
      EvictionKeepsNewest(appended, Target(maxBytes));
    }

    method EvictOldestLocked()
      requires bufferSize > 0 && live.Some?
      modifies this`live, this`droppedEvicted
      ensures live == Some(Evicted(old(live).value, Target(maxBytes)))
      ensures droppedEvicted == old(droppedEvicted) + Excess(old(live).value, 0, Target(maxBytes))
    {
      var kept, evicted := EvictOldest(live.value, Target(maxBytes), bufferSize);
      live := Some(kept);
      droppedEvicted := droppedEvicted + evicted;
    }

    /** Moves the live file aside, unless a previous drain left its own behind. */
    method Claim() returns (claimedFile: bool)
      modifies this`live, this`claimed
      ensures claimedFile <==> old(claimed).Some? || old(live).Some?
      ensures if old(claimed).Some? then claimed == old(claimed) && live == old(live)
              else claimed == old(live) && live == None
    {
      if claimed.Some? {
        return true;
      }
      if live.None? {
        return false;
      }
      claimed, live := live, None;
      return true;
    }

    /** One record read from the claimed file: skipped and counted, or offered to the server. */
    method SendRecord(send: (nat, Bytes) -> Answer, n: nat, line: Bytes, oversized: bool, ghost payload: Bytes)
      returns (fate: Fate)
      requires oversized == Oversized(payload) && (!oversized ==> line == payload)
      modifies this`droppedPermanent, this`droppedOversized
      ensures fate == FateOf(send, n, payload)
      ensures Attempted(fate) ==> line == payload
      ensures droppedPermanent == old(droppedPermanent) + (if fate == Rejected then 1 else 0)
      ensures droppedOversized == old(droppedOversized) + (if fate == TooLarge then 1 else 0)
    {
      if oversized {
        droppedOversized := droppedOversized + 1;
        return TooLarge;
      }
      if |line| == 0 {
        return Blank;
      }
      match send(n, line) {
        case Accepted => return Delivered;
        case Permanent =>
          droppedPermanent := droppedPermanent + 1;
          return Rejected;
        case Transient => return Kept;
      }
    }

    /** The offset of the first record not dealt with, or `None` when all were. */
    method SendClaimed(send: (nat, Bytes) -> Answer) returns (offset: Option<nat>, offered: seq<Bytes>)
      requires bufferSize > 0 && claimed.Some?
      modifies this`droppedPermanent, this`droppedOversized
      ensures var records := Records(claimed.value, 0);
              var fates := Fates(send, 0, records);
              && offered == Offered(send, 0, records)
              && offset == (if |fates| == |records| then None else Some(Skip(claimed.value, 0, |fates|)))
              && droppedPermanent == old(droppedPermanent) + Count(fates, Rejected)
              && droppedOversized == old(droppedOversized) + Count(fates, TooLarge)
    {
      ghost var k;
      TallyMeans(send, Tally(0, [], droppedPermanent, droppedOversized), Records(claimed.value, 0));
      offset, offered, k := SendFile(claimed.value, send);
      RecordCount(claimed.value, 0, k);
    }

    /** The loop of SendClaimed; k counts the records dealt with. */
    method SendFile(data: Bytes, send: (nat, Bytes) -> Answer)
      returns (offset: Option<nat>, offered: seq<Bytes>, ghost k: nat)
      requires bufferSize > 0
      modifies this`droppedPermanent, this`droppedOversized
      ensures Tally(k, offered, droppedPermanent, droppedOversized) ==
              Tallied(send, Tally(0, [], old(droppedPermanent), old(droppedOversized)), Records(data, 0))
      ensures offset == (if Skip(data, 0, k) == |data| then None else Some(Skip(data, 0, k)))
    {
      ghost var goal := Tallied(send, Tally(0, [], droppedPermanent, droppedOversized), Records(data, 0));
      var r := new Reader(data, bufferSize);
      offered, k := [], 0;
      var done := 0;
      while true
        invariant r.Valid() && r.data == data && r.pos == done
        invariant done == Skip(data, 0, k)
        invariant Tallied(send, Tally(k, offered, droppedPermanent, droppedOversized), Records(data, done)) == goal
        decreases |data| - done
      {
        var line, consumed, oversized, eof := r.ReadRecord();
        if eof {
          return None, offered, k;
        }
        ghost var t, payload := Tally(k, offered, droppedPermanent, droppedOversized), Payload(data, done);
        OneMore(send, t, data, k, goal);
        var fate := SendRecord(send, |offered|, line, oversized, payload);
        if fate.Kept? {
          return Some(done), offered + [line], k;
        }
        if Attempted(fate) {
          offered := offered + [line];
        }
        done := done + consumed;
        k := k + 1;
        assert Tally(k, offered, droppedPermanent, droppedOversized) == Add(t, fate, payload);
      }
    }

    /** Puts the undelivered tail back ahead of anything enqueued since, then drops the claimed copy. */
    method Restore(from: Option<nat>)
      requires claimed.Some? && (from.Some? ==> from.value <= |claimed.value|)
      modifies this`live, this`claimed
      ensures claimed == None
      ensures live == if from.None? then old(live) else Some(old(claimed).value[from.value..] + Contents(old(live)))
    {
      if from.Some? {
        var undelivered := claimed.value[from.value..];
        live := Some(undelivered + Contents(live));
      }
      claimed := None;
    }

    method Drain(send: (nat, Bytes) -> Answer) returns (offered: seq<Bytes>)
      requires bufferSize > 0
      modifies this
      ensures draining == old(draining)
      ensures old(draining) ==> offered == [] && live == old(live) && claimed == old(claimed)
      ensures !old(draining) ==>
                var file := if old(claimed).Some? then old(claimed) else old(live);
                && claimed == None && live == DrainedFile(old(live), old(claimed), send)
                && if file.None? then offered == []
                else
                  var records := Records(file.value, 0);
                  var fates := Fates(send, 0, records);
                  && offered == Offered(send, 0, records)
                  && droppedPermanent == old(droppedPermanent) + Count(fates, Rejected)
                  && droppedOversized == old(droppedOversized) + Count(fates, TooLarge)
    {
      offered := [];
      if draining {
        return;
      }
      draining := true;
      var got := Claim();
      if got {
        var offset;
        offset, offered := SendClaimed(send);
        Restore(offset);
      }
      draining := false;
    }
  }
}
