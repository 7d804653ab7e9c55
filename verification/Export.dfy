// The weekly export (scripts/export_parquet.py): weeks and chunk windows that
// tile time, and a publication order that leaves the store consistent
// wherever a run stops.

module Export {
  import opened Wrappers

  const DAY_MS := 86_400_000
  const WEEK_MS := 604_800_000

  // ----- weeks -----

  /** From Monday 00:00 UTC, inclusive, to the next one, exclusive. */
  datatype Week = Week(start: int, end: int)

  /** 1 January 1970 was a Thursday, the third day after a Monday. */
  function WeekOf(ts: int): (w: Week)
    ensures w.start <= ts < w.end && w.end == w.start + WEEK_MS
  {
    var monday := Monday(ts / DAY_MS);
    Week(monday * DAY_MS, monday * DAY_MS + WEEK_MS)
  }

  function Monday(day: int): int {
    day - (day + 3) % 7
  }

  lemma {:induction false} SameWeek(day: int, other: int)
    ensures Monday(day) <= other < Monday(day) + 7 <==> Monday(other) == Monday(day)
    ensures Monday(Monday(day) + 7) == Monday(day) + 7
  {
  }

  /** Weeks start on Mondays, so a time that lies in a week is in the week it starts. */
  lemma {:induction false} WeeksTile(ts: int, other: int)
    ensures WeekOf(WeekOf(ts).end).start == WeekOf(ts).end
    ensures WeekOf(ts).start <= other < WeekOf(ts).end <==> WeekOf(other) == WeekOf(ts)
  {
    SameWeek(ts / DAY_MS, other / DAY_MS);
    SameWeek(WeekOf(ts).end / DAY_MS, WeekOf(ts).end / DAY_MS);
  }

  /** Weeks start on Mondays, as 5 January 1970 was one. */
  lemma {:induction false} WeeksStartOnMondays(ts: int)
    ensures (WeekOf(ts).start - 345_600_000) % 604_800_000 == 0
    ensures ts - 604_800_000 < WeekOf(ts).start <= ts
  {
    var day := ts / DAY_MS;
    assert Monday(day) == 7 * ((day + 3) / 7) - 3;
    assert WeekOf(ts).start - 345_600_000 == 604_800_000 * ((day + 3) / 7 - 1);
  }

  /** Whole weeks one after another, all of which ended `lag` ago. */
  predicate Follow(weeks: seq<Week>, start: int, now: int, lag: int) {
    forall i :: 0 <= i < |weeks| ==>
      weeks[i] == Week(start + i * WEEK_MS, start + i * WEEK_MS + WEEK_MS) && weeks[i].end + lag <= now
  }

  ghost predicate Holding(weeks: seq<Week>, lo: int, hi: int) {
    forall ts :: lo <= ts < hi ==> WeekOf(ts) in weeks
  }

  lemma {:induction false} OneWeekMore(weeks: seq<Week>, lo: int, w: Week)
    requires Holding(weeks, lo, w.start) && WeekOf(w.start) == w
    ensures Holding(weeks + [w], lo, w.end)
  {
    forall ts | lo <= ts < w.end ensures WeekOf(ts) in weeks + [w] {
      if ts >= w.start {
        WeeksTile(w.start, ts);
      }
    }
  }

  /**
   `complete_weeks`: the weeks from the one of `first` on, as long as they
   ended `lag` ago. Each time in them is in one of them.
   */
  method CompleteWeeks(first: int, now: int, lag: int) returns (weeks: seq<Week>)
    ensures Follow(weeks, WeekOf(first).start, now, lag)
    ensures WeekOf(first).end + |weeks| * WEEK_MS + lag > now
    ensures forall ts :: WeekOf(first).start <= ts && WeekOf(ts).end + lag <= now ==> WeekOf(ts) in weeks
  {
    weeks := [];
    var w := WeekOf(first);
    ghost var start := w.start;
    WeeksTile(first, w.start);
    while w.end + lag <= now
      invariant w == Week(start + |weeks| * WEEK_MS, start + |weeks| * WEEK_MS + WEEK_MS) && WeekOf(w.start) == w
      invariant Follow(weeks, start, now, lag) && Holding(weeks, start, w.start)
      decreases now - lag - w.end
    {
      WeeksTile(w.start, w.end);
      OneWeekMore(weeks, start, w);
      weeks := weeks + [w];
      w := WeekOf(w.end);
    }
    forall ts | start <= ts && WeekOf(ts).end + lag <= now ensures WeekOf(ts) in weeks {
      WeeksTile(ts, w.start);
    }
  }

  // ----- chunk windows -----

  datatype Row = Row(id: nat, ts: int)

  /** The rows that start in a window. */
  function Select(db: seq<Row>, lo: int, hi: int): seq<Row> {
    if db == [] then [] else (if lo <= db[0].ts < hi then [db[0]] else []) + Select(db[1..], lo, hi)
  }

  /** A window has a row as often as the database, if the row starts in it, and else not at all. */
  lemma {:induction false} SelectHolds(db: seq<Row>, lo: int, hi: int, row: Row)
    ensures multiset(Select(db, lo, hi))[row] == if lo <= row.ts < hi then multiset(db)[row] else 0
  {
    if db != [] {
      SelectHolds(db[1..], lo, hi, row);
      assert db == [db[0]] + db[1..];
    }
  }

  /** `ORDER BY start_ms` */
  predicate Ordered(db: seq<Row>) {
    forall i, j :: 0 <= i < j < |db| ==> db[i].ts <= db[j].ts
  }

  lemma {:induction false} SelectIsOrdered(db: seq<Row>, lo: int, hi: int)
    requires Ordered(db)
    ensures Ordered(Select(db, lo, hi))
  {
    if db != [] {
      var row, rest := db[0], Select(db[1..], lo, hi);
      SelectIsOrdered(db[1..], lo, hi);
      forall k | 0 <= k < |rest| ensures row.ts <= rest[k].ts {
        SelectedIsThere(db[1..], lo, hi, k);
      }
      OrderedBehind(row, rest);
      assert Select(db, lo, hi) == if lo <= row.ts < hi then [row] + rest else rest;
    }
  }

  lemma {:induction false} SelectedIsThere(db: seq<Row>, lo: int, hi: int, k: nat)
    requires k < |Select(db, lo, hi)|
    ensures Select(db, lo, hi)[k] in db
  {
    var row := Select(db, lo, hi)[k];
    SelectHolds(db, lo, hi, row);
    assert row in multiset(Select(db, lo, hi));
  }

  lemma {:induction false} OrderedBehind(row: Row, rest: seq<Row>)
    requires Ordered(rest) && forall k :: 0 <= k < |rest| ==> row.ts <= rest[k].ts
    ensures Ordered([row] + rest)
  {
    var all := [row] + rest;
    forall i, j | 0 <= i < j < |all| ensures all[i].ts <= all[j].ts {
      assert all[j] == rest[j - 1];
    }
  }

  /** Two windows side by side hold what the joint window holds. */
  lemma {:induction false} WindowsJoin(db: seq<Row>, lo: int, mid: int, hi: int)
    requires lo <= mid <= hi
    ensures multiset(Select(db, lo, mid) + Select(db, mid, hi)) == multiset(Select(db, lo, hi))
  {
    if db != [] {
      WindowsJoin(db[1..], lo, mid, hi);
    }
  }

  /** They hold it in the same order if the rows are in order. */
  lemma {:induction false} WindowsInOrder(db: seq<Row>, lo: int, mid: int, hi: int)
    requires lo <= mid <= hi && Ordered(db)
    ensures Select(db, lo, mid) + Select(db, mid, hi) == Select(db, lo, hi)
  {
    if db != [] {
      WindowsInOrder(db[1..], lo, mid, hi);
      if mid <= db[0].ts {
        LaterThan(db[1..], lo, mid);
      }
    }
  }

  lemma {:induction false} LaterThan(db: seq<Row>, lo: int, hi: int)
    requires forall row :: row in db ==> hi <= row.ts
    ensures Select(db, lo, hi) == []
  {
    if db != [] {
      LaterThan(db[1..], lo, hi);
    }
  }

  const ROW_GROUP_ROWS := 100_000

  /** The rows of the window, in the order of the database. */
  ghost predicate IsWindow(rows: seq<Row>, db: seq<Row>, lo: int, hi: int) {
    && multiset(rows) == multiset(Select(db, lo, hi))
    && (Ordered(db) ==> rows == Select(db, lo, hi))
  }

  /** What was written and what is buffered are the rows of the window. */
  ghost predicate Holds(written: seq<Row>, buffer: seq<Row>, db: seq<Row>, lo: int, hi: int) {
    IsWindow(written + buffer, db, lo, hi)
  }

  lemma {:induction false} NextWindow(written: seq<Row>, buffer: seq<Row>, db: seq<Row>, lo: int, mid: int, hi: int)
    requires lo <= mid <= hi && Holds(written, buffer, db, lo, mid)
    ensures Holds(written, buffer + Select(db, mid, hi), db, lo, hi)
  {
    NextBatch(written + buffer, db, lo, mid, hi);
    assert written + (buffer + Select(db, mid, hi)) == written + buffer + Select(db, mid, hi);
  }

  lemma {:induction false} NextBatch(rows: seq<Row>, db: seq<Row>, lo: int, mid: int, hi: int)
    requires lo <= mid <= hi && IsWindow(rows, db, lo, mid)
    ensures IsWindow(rows + Select(db, mid, hi), db, lo, hi)
  {
    WindowsJoin(db, lo, mid, hi);
    if Ordered(db) {
      WindowsInOrder(db, lo, mid, hi);
    }
    SameRows(rows, Select(db, lo, mid), Select(db, mid, hi));
  }

  lemma {:induction false} SameRows(a: seq<Row>, b: seq<Row>, more: seq<Row>)
    requires multiset(a) == multiset(b)
    ensures multiset(a + more) == multiset(b + more)
  {
  }

  /** Writes full row groups from the front of the buffer. */
  method FlushGroups(written: seq<Row>, buffer: seq<Row>) returns (out: seq<Row>, rest: seq<Row>)
    ensures out + rest == written + buffer && |rest| < ROW_GROUP_ROWS
  {
    out, rest := written, buffer;
    while |rest| >= ROW_GROUP_ROWS
      invariant out + rest == written + buffer
    {
      ghost var was := out;
      out := out + rest[..ROW_GROUP_ROWS];
      MoveGroup(was, rest);
      rest := rest[ROW_GROUP_ROWS..];
    }
  }

  lemma {:induction false} MoveGroup(written: seq<Row>, buffer: seq<Row>)
    requires |buffer| >= ROW_GROUP_ROWS
    ensures written + buffer[..ROW_GROUP_ROWS] + buffer[ROW_GROUP_ROWS..] == written + buffer
  {
  }

  /**
   `write_table`: window after window, in row groups. Every row of the week is
   written exactly once, and no other, in the order of the database.
   */
  method WriteTable(db: seq<Row>, start: int, end: int, chunk: nat) returns (written: seq<Row>, rows: nat)
    requires start <= end && chunk > 0
    ensures IsWindow(written, db, start, end) && rows == |written|
  {
    written := [];
    var buffer: seq<Row> := [];
    var lo := start;
    ghost var done := start;
    NoRows(db, start);
    while lo < end
      invariant start <= lo && start <= done && done == (if lo < end then lo else end)
      invariant Holds(written, buffer, db, start, done)
    {
      var hi := if lo + chunk < end then lo + chunk else end;
      written, buffer := WriteWindow(written, buffer, db, start, lo, hi);
      lo, done := lo + chunk, hi;
    }
    written := written + buffer;
    rows := |written|;
  }

  method WriteWindow(written: seq<Row>, buffer: seq<Row>, db: seq<Row>, start: int, lo: int, hi: int)
    returns (out: seq<Row>, rest: seq<Row>)
    requires start <= lo <= hi && Holds(written, buffer, db, start, lo)
    ensures Holds(out, rest, db, start, hi)
  {
    NextWindow(written, buffer, db, start, lo, hi);
    out, rest := FlushGroups(written, buffer + Select(db, lo, hi));
  }

  lemma {:induction false} NoRows(db: seq<Row>, lo: int)
    ensures Holds([], [], db, lo, lo)
  {
    EmptyWindow(db, lo);
  }

  lemma {:induction false} EmptyWindow(db: seq<Row>, lo: int)
    ensures Select(db, lo, lo) == []
  {
    if db != [] {
      EmptyWindow(db[1..], lo);
    }
  }

  // ----- the store -----

  type Content = seq<Row>

  datatype Table = Sessions | Commands

  datatype Path = Manifest | Data(table: Table, protocol: string, week: int)

  /** A listed file; its content stands for its hash, its size and its number of rows. */
  datatype Entry = Entry(table: Table, protocol: string, week: int, content: Content)

  datatype Object = File(content: Content) | Index(entries: seq<Entry>)

  function PathOf(e: Entry): Path {
    Data(e.table, e.protocol, e.week)
  }

  type Objects = map<Path, Object>

  function Listed(objects: Objects): seq<Entry> {
    if Manifest in objects && objects[Manifest].Index? then objects[Manifest].entries else []
  }

  predicate Lists(entries: seq<Entry>, table: Table, protocol: string, week: int) {
    exists e :: e in entries && PathOf(e) == Data(table, protocol, week)
  }

  predicate Covers(entries: seq<Entry>, protocol: string, week: int) {
    Lists(entries, Sessions, protocol, week) && Lists(entries, Commands, protocol, week)
  }

  /** The manifest lists only files that are there with the content it says, and both tables of a week or neither. */
  predicate Sound(objects: Objects) {
    && (forall e :: e in Listed(objects) ==> PathOf(e) in objects && objects[PathOf(e)] == File(e.content))
    && (forall e :: e in Listed(objects) ==> Covers(Listed(objects), e.protocol, e.week))
  }

  /** What was listed stays listed, with the same content. */
  predicate Grows(a: Objects, b: Objects) {
    forall e :: e in Listed(a) ==> e in Listed(b)
  }

  /** A put, and what the manifest in the store listed at that time. */
  datatype Logged = Logged(path: Path, listed: seq<Entry>)

  /** No put after the first `n` was to a file that was listed when it happened. */
  predicate PutsNoneAgain(puts: seq<Logged>, n: nat) {
    forall k :: n <= k < |puts| && puts[k].path.Data? ==>
      var Data(table, protocol, week) := puts[k].path; !Lists(puts[k].listed, table, protocol, week)
  }

  /** The object store. A run is cut off when no more puts are left to it. */
  class Store {
    var objects: Objects
    var left: nat
    ghost var puts: seq<Logged>

    constructor (objects: Objects, left: nat)
      ensures this.objects == objects && this.left == left && puts == []
    {
      this.objects, this.left, puts := objects, left, [];
    }

    method Put(path: Path, object_: Object) returns (ok: bool)
      modifies this
      ensures ok <==> old(left) > 0
      ensures objects == if ok then old(objects)[path := object_] else old(objects)
      ensures puts == if ok then old(puts) + [Logged(path, Listed(old(objects)))] else old(puts)
    {
      if left == 0 {
        return false;
      }
      left := left - 1;
      puts := puts + [Logged(path, Listed(objects))];
      objects := objects[path := object_];
      return true;
    }

    /** A data file is only ever put where the manifest lists none. */
    method PutData(path: Path, content: Content) returns (ok: bool)
      requires Sound(objects) && path.Data? && !Lists(Listed(objects), path.table, path.protocol, path.week)
      modifies this
      ensures Sound(objects) && Listed(objects) == Listed(old(objects))
      ensures ok ==> objects == old(objects)[path := File(content)]
      ensures old(puts) <= puts && PutsNoneAgain(puts, |old(puts)|)
    {
      ok := Put(path, File(content));
    }
  }

  /** `Manifest.add` */
  function Added(entries: seq<Entry>, e: Entry): seq<Entry> {
    Others(entries, PathOf(e)) + [e]
  }

  function Others(entries: seq<Entry>, path: Path): seq<Entry> {
    if entries == [] then []
    else (if PathOf(entries[0]) == path then [] else [entries[0]]) + Others(entries[1..], path)
  }

  lemma {:induction false} OthersAre(entries: seq<Entry>, path: Path)
    ensures forall e :: e in Others(entries, path) <==> e in entries && PathOf(e) != path
  {
    if entries != [] {
      OthersAre(entries[1..], path);
    }
  }

  predicate Has(objects: Objects, path: Path, object_: Object) {
    path in objects && objects[path] == object_
  }

  /** `publish_week`: the data files first, then the manifest that lists them. */
  method PublishWeek(store: Store, manifest: seq<Entry>, protocol: string, week: int, files: map<Table, Content>)
    returns (published: seq<Entry>, ok: bool)
    requires Sound(store.objects) && manifest == Listed(store.objects) && !Covers(manifest, protocol, week)
    requires files.Keys == {Sessions, Commands}
    modifies store
    ensures Sound(store.objects) && Grows(old(store.objects), store.objects)
    ensures old(store.puts) <= store.puts && PutsNoneAgain(store.puts, |old(store.puts)|)
    ensures ok ==> published == Listed(store.objects) && Covers(published, protocol, week)
    ensures ok ==> Has(store.objects, Data(Sessions, protocol, week), File(files[Sessions]))
    ensures ok ==> Has(store.objects, Data(Commands, protocol, week), File(files[Commands]))
    ensures ok ==> IsWith(published, manifest, Entry(Sessions, protocol, week, files[Sessions]),
                          Entry(Commands, protocol, week, files[Commands]))
    ensures !ok ==> Listed(store.objects) == manifest
  {
    published := manifest;
    var sessions := Entry(Sessions, protocol, week, files[Sessions]);
    var commands := Entry(Commands, protocol, week, files[Commands]);
    ok := store.PutData(PathOf(sessions), sessions.content);
    if !ok {
      return;
    }
    ok := store.PutData(PathOf(commands), commands.content);
    if !ok {
      return;
    }
    published, ok := PublishIndex(store, manifest, sessions, commands);
  }

  predicate IsWith(after: seq<Entry>, before: seq<Entry>, a: Entry, b: Entry) {
    (forall e :: e in before ==> e in after) && a in after && b in after &&
    forall e :: e in after ==> e in before || e == a || e == b
  }

  /** The manifest that lists two files that are there. */
  method PublishIndex(store: Store, manifest: seq<Entry>, sessions: Entry, commands: Entry)
    returns (published: seq<Entry>, ok: bool)
    requires Sound(store.objects) && manifest == Listed(store.objects) && sessions.table == Sessions
    requires commands == Entry(Commands, sessions.protocol, sessions.week, commands.content)
    requires !Covers(manifest, sessions.protocol, sessions.week)
    requires Has(store.objects, PathOf(sessions), File(sessions.content))
    requires Has(store.objects, PathOf(commands), File(commands.content))
    modifies store
    ensures Sound(store.objects) && Grows(old(store.objects), store.objects)
    ensures old(store.puts) <= store.puts && PutsNoneAgain(store.puts, |old(store.puts)|)
    ensures forall path :: path != Manifest && path in old(store.objects) ==>
              Has(store.objects, path, old(store.objects)[path])
    ensures if ok then published == Listed(store.objects) && IsWith(published, manifest, sessions, commands)
                       && Covers(published, sessions.protocol, sessions.week)
            else Listed(store.objects) == manifest
  {
    published := Added(Added(manifest, sessions), commands);
    BothOrNeither(store.objects, Sessions, sessions.protocol, sessions.week);
    IndexIsSound(store.objects, sessions, commands);
    ok := store.Put(Manifest, Index(published));
  }

  /** With both files there, the manifest may list them. */
  lemma {:induction false} IndexIsSound(objects: Objects, sessions: Entry, commands: Entry)
    requires Sound(objects) && sessions.table == Sessions
    requires commands == Entry(Commands, sessions.protocol, sessions.week, commands.content)
    requires !Lists(Listed(objects), Sessions, sessions.protocol, sessions.week)
    requires !Lists(Listed(objects), Commands, sessions.protocol, sessions.week)
    requires PathOf(sessions) in objects && objects[PathOf(sessions)] == File(sessions.content)
    requires PathOf(commands) in objects && objects[PathOf(commands)] == File(commands.content)
    ensures var all := Added(Added(Listed(objects), sessions), commands);
            var after := objects[Manifest := Index(all)];
            Sound(after) && Listed(after) == all && Grows(objects, after) &&
              Covers(all, sessions.protocol, sessions.week) && IsWith(all, Listed(objects), sessions, commands)
  {
    ListedAfter(Listed(objects), sessions, commands);
    var all := Added(Added(Listed(objects), sessions), commands);
    forall e | e in all ensures Covers(all, e.protocol, e.week) {
      if e in Listed(objects) {
        KeptListed(Listed(objects), all, e.protocol, e.week);
      }
    }
  }

  lemma {:induction false} KeptListed(a: seq<Entry>, b: seq<Entry>, protocol: string, week: int)
    requires Covers(a, protocol, week) && forall e :: e in a ==> e in b
    ensures Covers(b, protocol, week)
  {
  }

  lemma {:induction false} ListedAfter(entries: seq<Entry>, sessions: Entry, commands: Entry)
    requires sessions.table == Sessions
    requires commands == Entry(Commands, sessions.protocol, sessions.week, commands.content)
    requires !Lists(entries, Sessions, sessions.protocol, sessions.week)
    requires !Lists(entries, Commands, sessions.protocol, sessions.week)
    ensures var all := Added(Added(entries, sessions), commands);
      && (forall e :: e in all <==> e in entries || e == sessions || e == commands)
      && Covers(all, sessions.protocol, sessions.week)
  {
    OthersAre(entries, PathOf(sessions));
    OthersAre(Added(entries, sessions), PathOf(commands));
    var all := Added(Added(entries, sessions), commands);
    assert sessions in all && commands in all;
  }

  /** A week of which one table is listed is covered. */
  lemma {:induction false} BothOrNeither(objects: Objects, table: Table, protocol: string, week: int)
    requires Sound(objects)
    ensures Lists(Listed(objects), table, protocol, week) ==> Covers(Listed(objects), protocol, week)
  {
  }

  // ----- whole runs -----

  /** What a run finds in the database. A command counts as starting when its session does. */
  datatype Source = Source(
    rows: (string, Table) -> seq<Row>, // the rows of a protocol
    unenriched: int -> nat)            // ssh sessions of a week that wait for their enrichment

  /** The start of the first session of a protocol. */
  function First(sessions: seq<Row>): (r: Option<int>)
    ensures r.None? <==> sessions == []
    ensures r.Some? ==> exists row :: row in sessions && row.ts == r.value
    ensures forall row :: r.Some? && row in sessions ==> r.value <= row.ts
  {
    if sessions == [] then None
    else
      var rest := First(sessions[1..]);
      assert sessions == [sessions[0]] + sessions[1..];
      if rest.None? || sessions[0].ts <= rest.value then Some(sessions[0].ts) else rest
  }

  function Pending(db: Source, protocol: string, week: int): nat {
    if protocol == "ssh" then db.unenriched(week) else 0
  }

  /** `is_ready` */
  predicate IsReady(week: Week, now: int, pending: nat, maxWait: int) {
    pending == 0 || now >= week.end + maxWait
  }

  /** The week ended the lag ago, and no ssh session in it waits for its enrichment, or not for that long. */
  predicate Settled(db: Source, protocol: string, week: int, now: int, lag: int, maxWait: int) {
    && week + 604_800_000 + lag <= now
    && (protocol == "ssh" && db.unenriched(week) > 0 ==> week + 604_800_000 + maxWait <= now)
  }

  /** A week that a finished run has published, now or before: it is settled, and there is a session so old. */
  predicate Due(db: Source, protocol: string, ts: int, now: int, lag: int, maxWait: int) {
    && (exists row :: row in db.rows(protocol, Sessions) && WeekOf(row.ts).start <= ts)
    && Settled(db, protocol, WeekOf(ts).start, now, lag, maxWait)
  }

  /** A listed file has each row that starts in its week as often as the database has it, and no other row. */
  ghost predicate Faithful(db: Source, e: Entry) {
    forall row :: multiset(e.content)[row] ==
      if e.week <= row.ts < e.week + 604_800_000 then multiset(db.rows(e.protocol, e.table))[row] else 0
  }

  ghost predicate InOrder(db: Source, e: Entry) {
    Ordered(db.rows(e.protocol, e.table)) ==> Ordered(e.content)
  }

  predicate OfDueWeek(db: Source, e: Entry, now: int, lag: int, maxWait: int) {
    Due(db, e.protocol, e.week, now, lag, maxWait) && WeekOf(e.week).start == e.week
  }

  /** An entry that a run may add. */
  ghost predicate Publishable(db: Source, e: Entry, now: int, lag: int, maxWait: int) {
    Faithful(db, e) && InOrder(db, e) && OfDueWeek(db, e, now, lag, maxWait)
  }

  ghost predicate AddsOnly(a: seq<Entry>, b: seq<Entry>, db: Source, now: int, lag: int, maxWait: int) {
    forall e :: e in b && e !in a ==> Publishable(db, e, now, lag, maxWait)
  }

  lemma {:induction false} WindowIsFaithful(db: Source, e: Entry)
    requires IsWindow(e.content, db.rows(e.protocol, e.table), e.week, e.week + WEEK_MS)
    ensures Faithful(db, e)
  {
    forall row ensures multiset(e.content)[row] ==
      if e.week <= row.ts < e.week + 604_800_000 then multiset(db.rows(e.protocol, e.table))[row] else 0
    {
      SelectHolds(db.rows(e.protocol, e.table), e.week, e.week + WEEK_MS, row);
    }
  }

  lemma {:induction false} WindowIsInOrder(db: Source, e: Entry)
    requires IsWindow(e.content, db.rows(e.protocol, e.table), e.week, e.week + WEEK_MS)
    ensures InOrder(db, e)
  {
    if Ordered(db.rows(e.protocol, e.table)) {
      SelectIsOrdered(db.rows(e.protocol, e.table), e.week, e.week + WEEK_MS);
    }
  }

  lemma {:induction false} GrowsCovers(a: Objects, b: Objects, protocol: string, week: int)
    requires Grows(a, b) && Covers(Listed(a), protocol, week)
    ensures Covers(Listed(b), protocol, week)
  {
  }

  /** The files of one week, written and published. */
  method ExportWeek(store: Store, manifest: seq<Entry>, db: Source, protocol: string, w: Week, chunk: nat)
    returns (published: seq<Entry>, ok: bool, ghost a: Entry, ghost b: Entry)
    requires Sound(store.objects) && manifest == Listed(store.objects) && !Covers(manifest, protocol, w.start)
    requires chunk > 0 && w.start <= w.end
    modifies store
    ensures Sound(store.objects) && Grows(old(store.objects), store.objects)
    ensures old(store.puts) <= store.puts && PutsNoneAgain(store.puts, |old(store.puts)|)
    ensures IsFile(db, a, Sessions, protocol, w) && IsFile(db, b, Commands, protocol, w)
    ensures if ok then published == Listed(store.objects) && IsWith(published, manifest, a, b)
                       && Covers(published, protocol, w.start)
            else Listed(store.objects) == manifest
  {
    var sessions, n := WriteTable(db.rows(protocol, Sessions), w.start, w.end, chunk);
    var commands, m := WriteTable(db.rows(protocol, Commands), w.start, w.end, chunk);
    a, b := Entry(Sessions, protocol, w.start, sessions), Entry(Commands, protocol, w.start, commands);
    published, ok := PublishWeek(store, manifest, protocol, w.start, map[Sessions := sessions, Commands := commands]);
  }

  ghost predicate IsFile(db: Source, e: Entry, table: Table, protocol: string, w: Week) {
    e.table == table && e.protocol == protocol && e.week == w.start
    && IsWindow(e.content, db.rows(protocol, table), w.start, w.end)
  }

  lemma {:induction false} WeekAdds(manifest: seq<Entry>, before: Objects, after: Objects, db: Source, a: Entry,
      b: Entry, now: int, lag: int, maxWait: int)
    requires AddsOnly(manifest, Listed(before), db, now, lag, maxWait)
    requires Listed(after) == Listed(before) || IsWith(Listed(after), Listed(before), a, b)
    requires Publishable(db, a, now, lag, maxWait) && Publishable(db, b, now, lag, maxWait)
    ensures AddsOnly(manifest, Listed(after), db, now, lag, maxWait)
  {
  }

  lemma {:induction false} FileIsPublishable(db: Source, e: Entry, table: Table, protocol: string, w: Week,
      now: int, lag: int, maxWait: int)
    requires IsFile(db, e, table, protocol, w) && w.end == w.start + WEEK_MS
    requires Due(db, protocol, w.start, now, lag, maxWait) && w == WeekOf(w.start)
    ensures Publishable(db, e, now, lag, maxWait)
  {
    WindowIsFaithful(db, e);
    WindowIsInOrder(db, e);
    assert OfDueWeek(db, e, now, lag, maxWait);
  }

  /** The weeks of one protocol, from the one of its first session on. */
  method PublishWeeks(store: Store, manifest: seq<Entry>, db: Source, protocol: string, first: int, chunk: nat,
      now: int, lag: int, maxWait: int) returns (published: seq<Entry>, ok: bool)
    requires Sound(store.objects) && manifest == Listed(store.objects) && chunk > 0
    requires First(db.rows(protocol, Sessions)) == Some(first)
    modifies store
    ensures Sound(store.objects) && Grows(old(store.objects), store.objects)
    ensures old(store.puts) <= store.puts && PutsNoneAgain(store.puts, |old(store.puts)|)
    ensures AddsOnly(manifest, Listed(store.objects), db, now, lag, maxWait)
    ensures ok ==> published == Listed(store.objects)
    ensures ok ==> forall ts :: Due(db, protocol, ts, now, lag, maxWait) ==>
                     Covers(published, protocol, WeekOf(ts).start)
  {
    var weeks := CompleteWeeks(first, now, lag);
    published, ok := manifest, true;
    for k := 0 to |weeks|
      invariant Sound(store.objects) && Grows(old(store.objects), store.objects) && published == Listed(store.objects)
      invariant old(store.puts) <= store.puts && PutsNoneAgain(store.puts, |old(store.puts)|)
      invariant AddsOnly(manifest, published, db, now, lag, maxWait)
      invariant AllCovered(published, db, protocol, weeks[..k], now, lag, maxWait)
    {
      var w := weeks[k];
      var covered := IsCovered(published, protocol, w.start);
      ghost var before := store.objects;
      if !covered && IsReady(w, now, Pending(db, protocol, w.start), maxWait) {
        WeekIsDue(db, protocol, first, weeks, k, now, lag, maxWait);
        ghost var a, b;
        published, ok, a, b := ExportWeek(store, published, db, protocol, w, chunk);
        FileIsPublishable(db, a, Sessions, protocol, w, now, lag, maxWait);
        FileIsPublishable(db, b, Commands, protocol, w, now, lag, maxWait);
        WeekAdds(manifest, before, store.objects, db, a, b, now, lag, maxWait);
        if !ok {
          return;
        }
      }
      StillCovered(before, store.objects, db, protocol, weeks, k, now, lag, maxWait);
    }
    assert weeks[..|weeks|] == weeks;
    forall ts | Due(db, protocol, ts, now, lag, maxWait) ensures Covers(published, protocol, WeekOf(ts).start) {
      FirstWeek(db, protocol, first, ts);
    }
  }

  /** Every settled one of the weeks is listed. */
  ghost predicate AllCovered(entries: seq<Entry>, db: Source, protocol: string, weeks: seq<Week>, now: int, lag: int,
      maxWait: int) {
    forall w :: w in weeks && Settled(db, protocol, w.start, now, lag, maxWait) ==> Covers(entries, protocol, w.start)
  }

  lemma {:induction false} StillCovered(a: Objects, b: Objects, db: Source, protocol: string, weeks: seq<Week>, k: nat,
      now: int, lag: int, maxWait: int)
    requires Grows(a, b) && k < |weeks| && AllCovered(Listed(a), db, protocol, weeks[..k], now, lag, maxWait)
    requires Settled(db, protocol, weeks[k].start, now, lag, maxWait) ==> Covers(Listed(b), protocol, weeks[k].start)
    ensures AllCovered(Listed(b), db, protocol, weeks[..k + 1], now, lag, maxWait)
  {
    forall w | w in weeks[..k + 1] && Settled(db, protocol, w.start, now, lag, maxWait)
      ensures Covers(Listed(b), protocol, w.start)
    {
      assert weeks[..k + 1] == weeks[..k] + [weeks[k]];
      if w in weeks[..k] {
        GrowsCovers(a, b, protocol, w.start);
      }
    }
  }

  /** A complete week from the first session on that is ready is due. */
  lemma {:induction false} WeekIsDue(db: Source, protocol: string, first: int, weeks: seq<Week>, k: nat, now: int,
      lag: int, maxWait: int)
    requires First(db.rows(protocol, Sessions)) == Some(first) && k < |weeks|
    requires Follow(weeks, WeekOf(first).start, now, lag)
    requires IsReady(weeks[k], now, Pending(db, protocol, weeks[k].start), maxWait)
    ensures weeks[k] == WeekOf(weeks[k].start) && Due(db, protocol, weeks[k].start, now, lag, maxWait)
  {
    var w := weeks[k];
    WeeksStartOnMondays(first);
    assert w.start == WeekOf(first).start + k * WEEK_MS;
    MondayWeek(w.start, WeekOf(first).start, k);
  }

  /** Whole weeks after the start of a week, another week starts. */
  lemma {:induction false} MondayWeek(ts: int, start: int, k: nat)
    requires (start - 345_600_000) % 604_800_000 == 0 && ts == start + k * WEEK_MS
    ensures WeekOf(ts) == Week(ts, ts + WEEK_MS)
  {
    WeeksStartOnMondays(ts);
    var a, b := (start - 345_600_000) / 604_800_000, (WeekOf(ts).start - 345_600_000) / 604_800_000;
    assert ts - WeekOf(ts).start == 604_800_000 * (a + k - b);
  }

  lemma {:induction false} FirstWeek(db: Source, protocol: string, first: int, ts: int)
    requires First(db.rows(protocol, Sessions)) == Some(first)
    requires exists row :: row in db.rows(protocol, Sessions) && WeekOf(row.ts).start <= ts
    ensures WeekOf(first).start <= ts
  {
    var row :| row in db.rows(protocol, Sessions) && WeekOf(row.ts).start <= ts;
    if ts < WeekOf(first).start {
      WeeksTile(row.ts, first);
      WeeksStartOnMondays(first);
      WeeksStartOnMondays(row.ts);
      EarlierWeek(row.ts, first);
    }
  }

  lemma {:induction false} EarlierWeek(ts: int, first: int)
    requires first <= ts
    ensures WeekOf(first).start <= WeekOf(ts).start
  {
    assert first / DAY_MS <= ts / DAY_MS;
    EarlierMonday(first / DAY_MS, ts / DAY_MS);
  }

  lemma {:induction false} EarlierMonday(a: int, b: int)
    requires a <= b
    ensures Monday(a) <= Monday(b)
  {
  }

  /** `Manifest.covers` */
  method IsCovered(entries: seq<Entry>, protocol: string, week: int) returns (covered: bool)
    ensures covered <==> Covers(entries, protocol, week)
  {
    var present: set<Table> := {};
    for k := 0 to |entries|
      invariant forall t :: t in present <==> exists i :: 0 <= i < k && PathOf(entries[i]) == Data(t, protocol, week)
    {
      var e := entries[k];
      if e.protocol == protocol && e.week == week {
        present := present + {e.table};
      }
    }
    covered := present >= {Sessions, Commands};
    assert covered <==> Sessions in present && Commands in present;
  }

  /**
   `run`: wherever it stops, what was listed stays listed, the store is sound,
   no file was put that was listed at the time, and what it lists anew are the
   rows of weeks that are due; if it is not cut off, every week that is due is
   listed.
   */
  method Run(store: Store, db: Source, protocols: seq<string>, chunk: nat, now: int, lag: int, maxWait: int)
    returns (ok: bool)
    requires Sound(store.objects) && chunk > 0
    modifies store
    ensures Sound(store.objects) && Grows(old(store.objects), store.objects)
    ensures old(store.puts) <= store.puts && PutsNoneAgain(store.puts, |old(store.puts)|)
    ensures AddsOnly(Listed(old(store.objects)), Listed(store.objects), db, now, lag, maxWait)
    ensures ok ==> forall protocol, ts :: protocol in protocols && Due(db, protocol, ts, now, lag, maxWait) ==>
                     Covers(Listed(store.objects), protocol, WeekOf(ts).start)
  {
    var manifest := Listed(store.objects);
    ok := true;
    for k := 0 to |protocols|
      invariant Sound(store.objects) && Grows(old(store.objects), store.objects) && manifest == Listed(store.objects)
      invariant old(store.puts) <= store.puts && PutsNoneAgain(store.puts, |old(store.puts)|)
      invariant AddsOnly(Listed(old(store.objects)), manifest, db, now, lag, maxWait)
      invariant forall i, ts :: 0 <= i < k && Due(db, protocols[i], ts, now, lag, maxWait) ==>
        Covers(manifest, protocols[i], WeekOf(ts).start)
    {
      var first := First(db.rows(protocols[k], Sessions));
      if first.Some? {
        ghost var before := store.objects;
        manifest, ok := PublishWeeks(store, manifest, db, protocols[k], first.value, chunk, now, lag, maxWait);
        if !ok {
          return;
        }
        forall i, ts | 0 <= i < k && Due(db, protocols[i], ts, now, lag, maxWait)
          ensures Covers(manifest, protocols[i], WeekOf(ts).start)
        {
          GrowsCovers(before, store.objects, protocols[i], WeekOf(ts).start);
        }
      }
    }
  }
}
