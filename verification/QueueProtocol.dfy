// The queue of internal/fleet/queue.go as a protocol: the steps that any
// number of enqueuers and one drain take under and outside the lock, with a
// crash possible between any two of them. Files hold whole records; every
// payload offered to `Enqueue` has a number, so that it can be followed.

module QueueProtocol {
  import opened QueueRecords
  import opened Wrappers

  datatype Rec = Rec(id: nat, payload: Bytes)

  type File = Option<seq<Rec>>

  /** What finally happened to a payload. */
  datatype End = WasDelivered | WasRejected | WasOversized | WasBlank | WasEvicted

  /** Who holds the lock, and how far it is. */
  datatype Lock = Free | MustEvict | EvictWritten(dropped: nat) | RestoreWritten | RestoreRenamed

  /** How far the drain is: `n` records of the claimed file are dealt with. */
  datatype Drain = Idle | Sending(n: nat) | Undelivered(n: nat)

  /** Three files that survive a crash, two program counters that do not, and the history. */
  datatype State = State(
    live: File, claimed: File, tmp: File,
    lock: Lock, drain: Drain,
    log: seq<Bytes>, ends: map<nat, End>, sent: seq<Rec>)

  datatype Step =
    | Enqueue(payload: Bytes)
    | WriteEvicted
    | RenameEvicted
    | Claim
    | Send(answer: Answer)
    | RemoveDrained
    | WriteRestored
    | RenameRestored
    | RemoveRestored
    | Crash(garbage: File)

  function All(f: File): seq<Rec> {
    if f.Some? then f.value else []
  }

  function SizeOf(recs: seq<Rec>): nat {
    if recs == [] then 0 else |recs[0].payload| + 1 + SizeOf(recs[1..])
  }

  /** How many of the oldest records eviction drops. */
  function Drop(recs: seq<Rec>, target: nat): (n: nat)
    ensures n <= |recs|
  {
    if SizeOf(recs) <= target then 0 else 1 + Drop(recs[1..], target)
  }

  const START := State(None, None, None, Free, Idle, [], map[], [])

  /** A step that is not enabled changes nothing. */
  function Next(max: nat, s: State, step: Step): State {
    match step
    case Enqueue(payload) =>
      var id := |s.log|;
      if Oversized(payload) then s.(log := s.log + [payload], ends := s.ends[id := WasOversized])
      else if !s.lock.Free? then s
      else
        var live := All(s.live) + [Rec(id, payload)];
        s.(live := Some(live), log := s.log + [payload], lock := if SizeOf(live) > max then MustEvict else Free)
    case WriteEvicted =>
      if !s.lock.MustEvict? then s
      else
        var n := Drop(All(s.live), max * 4 / 5);
        s.(tmp := Some(All(s.live)[n..]), lock := EvictWritten(n))
    case RenameEvicted =>
      if !s.lock.EvictWritten? || s.lock.dropped > |All(s.live)| then s
      else
        s.(live := s.tmp, tmp := None, lock := Free,
           ends := s.ends + EndsOf(All(s.live)[..s.lock.dropped], WasEvicted))
    case Claim =>
      if !s.drain.Idle? || !s.lock.Free? then s
      else if s.claimed.Some? then s.(drain := Sending(0))
      else if s.live.None? then s
      else s.(claimed := s.live, live := None, drain := Sending(0))
    case Send(answer) =>
      if !s.drain.Sending? || s.drain.n >= |All(s.claimed)| then s
      else
        var rec := All(s.claimed)[s.drain.n];
        if Oversized(rec.payload) then Done(s, rec, WasOversized)
        else if rec.payload == [] then Done(s, rec, WasBlank)
        else
          (match answer
           case Accepted => Done(s, rec, WasDelivered)
           case Permanent => Done(s, rec, WasRejected)
           case Transient => s.(drain := Undelivered(s.drain.n)))
    case RemoveDrained =>
      if !s.drain.Sending? || s.drain.n < |All(s.claimed)| || !s.lock.Free? then s
      else s.(claimed := None, drain := Idle)
    case WriteRestored =>
      if !s.drain.Undelivered? || s.drain.n > |All(s.claimed)| || !s.lock.Free? then s
      else s.(tmp := Some(All(s.claimed)[s.drain.n..] + All(s.live)), lock := RestoreWritten)
    case RenameRestored =>
      if !s.lock.RestoreWritten? then s else s.(live := s.tmp, tmp := None, lock := RestoreRenamed)
    case RemoveRestored =>
      if !s.lock.RestoreRenamed? then s else s.(claimed := None, lock := Free, drain := Idle)
    case Crash(garbage) =>
      s.(tmp := garbage, lock := Free, drain := Idle)
  }

  function Done(s: State, rec: Rec, end: End): State
    requires s.drain.Sending?
  {
    s.(drain := Sending(s.drain.n + 1), ends := s.ends[rec.id := end], sent := s.sent + [rec])
  }

  function EndsOf(recs: seq<Rec>, end: End): (m: map<nat, End>)
    ensures forall r :: r in recs ==> r.id in m
    ensures forall id :: id in m ==> exists r :: r in recs && r.id == id
    ensures forall id :: id in m ==> m[id] == end
  {
    map r | r in recs :: r.id := end
  }

  function Run(max: nat, s: State, steps: seq<Step>): State
    decreases |steps|
  {
    if steps == [] then s else Run(max, Next(max, s, steps[0]), steps[1..])
  }

  // ----- durability: every run, with crashes anywhere -----

  predicate Genuine(s: State, recs: seq<Rec>) {
    forall r :: r in recs ==> r.id < |s.log| && r.payload == s.log[r.id]
  }

  /** Payload `id` has come to an end or is still in a file that a restart reads. */
  predicate Kept(s: State, id: nat)
    requires id < |s.log|
  {
    id in s.ends || Rec(id, s.log[id]) in All(s.live) || Rec(id, s.log[id]) in All(s.claimed)
  }

  predicate Ended(s: State, recs: seq<Rec>) {
    forall r :: r in recs ==> r.id in s.ends
  }

  predicate HonestEnd(payload: Bytes, end: End) {
    && (end == WasBlank ==> payload == [])
    && (end == WasOversized ==> Oversized(payload))
  }

  predicate Inv(s: State) {
    && Genuine(s, All(s.live)) && Genuine(s, All(s.claimed))
    && (forall id :: id in s.ends ==> id < |s.log| && HonestEnd(s.log[id], s.ends[id]))
    && (forall id :: 0 <= id < |s.log| ==> Kept(s, id))
    && (!s.drain.Idle? ==> s.claimed.Some? && s.drain.n <= |All(s.claimed)| && Ended(s, All(s.claimed)[..s.drain.n]))
    && match s.lock
       case Free => true
       case MustEvict => s.live.Some?
       case EvictWritten(n) => s.live.Some? && n <= |s.live.value| && s.tmp == Some(s.live.value[n..])
       case RestoreWritten =>
         s.drain.Undelivered? && s.tmp == Some(All(s.claimed)[s.drain.n..] + All(s.live))
       case RestoreRenamed =>
         s.drain.Undelivered? && forall r :: r in All(s.claimed)[s.drain.n..] ==> r in All(s.live)
  }

  lemma {:induction false} EnqueueKeepsInv(max: nat, s: State, payload: Bytes)
    requires Inv(s)
    ensures Inv(Next(max, s, Enqueue(payload)))
  {
    var t := Next(max, s, Enqueue(payload));
    forall id | 0 <= id < |t.log| ensures Kept(t, id) {
      if id < |s.log| {
        assert Kept(s, id);
      } else {
        assert id in t.ends || All(t.live)[|All(s.live)|] == Rec(id, payload);
      }
    }
  }

  lemma {:induction false} EvictKeepsInv(max: nat, s: State)
    requires Inv(s)
    ensures Inv(Next(max, s, RenameEvicted))
  {
    var t := Next(max, s, RenameEvicted);
    if s.lock.EvictWritten? {
      var live, n := All(s.live), s.lock.dropped;
      assert live == live[..n] + live[n..];
      forall id | 0 <= id < |t.log| ensures Kept(t, id) {
        assert Kept(s, id);
      }
    }
  }

  lemma {:induction false} DoneKeepsInv(s: State, end: End)
    requires Inv(s) && s.drain.Sending? && s.drain.n < |All(s.claimed)|
    requires HonestEnd(All(s.claimed)[s.drain.n].payload, end)
    ensures Inv(Done(s, All(s.claimed)[s.drain.n], end))
  {
    var c, n := All(s.claimed), s.drain.n;
    var t := Done(s, c[n], end);
    assert c[..n + 1] == c[..n] + [c[n]];
    forall id | 0 <= id < |t.log| ensures Kept(t, id) {
      assert Kept(s, id);
    }
  }

  /** The tail is in the live file before the claimed file goes. */
  lemma {:induction false} RenameKeepsInv(max: nat, s: State)
    requires Inv(s)
    ensures Inv(Next(max, s, RenameRestored))
  {
    var t := Next(max, s, RenameRestored);
    if s.lock.RestoreWritten? {
      assert All(t.live) == All(s.claimed)[s.drain.n..] + All(s.live);
      forall id | 0 <= id < |t.log| ensures Kept(t, id) {
        assert Kept(s, id);
      }
    }
  }

  lemma {:induction false} RemoveKeepsInv(max: nat, s: State, step: Step)
    requires Inv(s) && (step.RemoveRestored? || step.RemoveDrained?)
    ensures Inv(Next(max, s, step))
  {
    var t := Next(max, s, step);
    if t != s {
      var c, n := All(s.claimed), s.drain.n;
      assert c == c[..n] + c[n..];
      forall id | 0 <= id < |t.log| ensures Kept(t, id) {
        assert Kept(s, id);
      }
    }
  }

  lemma {:induction false} NextKeepsInv(max: nat, s: State, step: Step)
    requires Inv(s)
    ensures Inv(Next(max, s, step))
  {
    match step
    case Enqueue(payload) => EnqueueKeepsInv(max, s, payload);
    case RenameEvicted => EvictKeepsInv(max, s);
    case Send(answer) =>
      if s.drain.Sending? && s.drain.n < |All(s.claimed)| {
        var rec := All(s.claimed)[s.drain.n];
        if Oversized(rec.payload) {
          DoneKeepsInv(s, WasOversized);
        } else if rec.payload == [] {
          DoneKeepsInv(s, WasBlank);
        } else if answer.Accepted? {
          DoneKeepsInv(s, WasDelivered);
        } else if answer.Permanent? {
          DoneKeepsInv(s, WasRejected);
        } else {
          SameFilesKeepInv(s, Next(max, s, step));
        }
      }
    case Claim => ClaimKeepsInv(max, s);
    case WriteEvicted => SameFilesKeepInv(s, Next(max, s, step));
    case Crash(garbage) => SameFilesKeepInv(s, Next(max, s, step));
    case WriteRestored => SameFilesKeepInv(s, Next(max, s, step));
    case RenameRestored => RenameKeepsInv(max, s);
    case RemoveRestored => RemoveKeepsInv(max, s, step);
    case RemoveDrained => RemoveKeepsInv(max, s, step);
  }

  lemma {:induction false} ClaimKeepsInv(max: nat, s: State)
    requires Inv(s)
    ensures Inv(Next(max, s, Claim))
  {
    var t := Next(max, s, Claim);
    forall id | 0 <= id < |t.log| ensures Kept(t, id) {
      assert Kept(s, id);
    }
  }

  lemma {:induction false} SameFilesKeepInv(s: State, t: State)
    requires Inv(s) && t.live == s.live && t.claimed == s.claimed && t.log == s.log && t.ends == s.ends
    ensures forall id :: 0 <= id < |t.log| ==> Kept(t, id)
  {
    forall id | 0 <= id < |t.log| ensures Kept(t, id) {
      assert Kept(s, id);
    }
  }

  /** Through any run, crashes included, no payload is lost. */
  lemma {:induction false} RunKeepsInv(max: nat, s: State, steps: seq<Step>)
    requires Inv(s)
    ensures Inv(Run(max, s, steps))
    decreases |steps|
  {
    if steps != [] {
      NextKeepsInv(max, s, steps[0]);
      RunKeepsInv(max, Next(max, s, steps[0]), steps[1..]);
    }
  }

  /**
   Every payload that `Enqueue` stored, in every run: unless it is empty it
   was delivered, rejected for good or evicted, or it is in the live or the
   claimed file.
   */
  lemma {:induction false} NothingIsLost(max: nat, steps: seq<Step>, id: nat)
    requires id < |Run(max, START, steps).log|
    ensures var s := Run(max, START, steps);
            var payload := s.log[id];
            payload != [] && !Oversized(payload) ==>
              || (id in s.ends && (s.ends[id].WasDelivered? || s.ends[id].WasRejected? || s.ends[id].WasEvicted?))
              || Rec(id, payload) in All(s.live)
              || Rec(id, payload) in All(s.claimed)
  {
    RunKeepsInv(max, START, steps);
    assert Kept(Run(max, START, steps), id);
  }

  /** Only an answer for its own record gives a payload its end, and only eviction evicts. */
  lemma {:induction false} EndsAreEarned(max: nat, s: State, step: Step, id: nat)
    requires var t := Next(max, s, step);
             id in t.ends && (id !in s.ends || s.ends[id] != t.ends[id])
    ensures match Next(max, s, step).ends[id]
            case WasEvicted => step.RenameEvicted? && Queued(All(s.live)[..s.lock.dropped], id)
            case WasOversized => step.Enqueue? || (step.Send? && Oversized(All(s.claimed)[s.drain.n].payload))
            case end =>
              && step.Send? && s.drain.Sending? && All(s.claimed)[s.drain.n].id == id
              && (end == WasDelivered ==> step.answer == Accepted && All(s.claimed)[s.drain.n].payload != [])
              && (end == WasRejected ==> step.answer == Permanent && All(s.claimed)[s.drain.n].payload != [])
  {
    if step.RenameEvicted? {
      assert id in EndsOf(All(s.live)[..s.lock.dropped], WasEvicted);
    }
  }

  // ----- runs without a crash: exactly one end each, in queue order -----

  /** The records of the claimed file that are still to be dealt with. */
  function Rest(s: State): seq<Rec>
    requires s.drain.Idle? || s.drain.n <= |All(s.claimed)|
  {
    if s.lock.RestoreRenamed? then []
    else if s.drain.Idle? then All(s.claimed)
    else All(s.claimed)[s.drain.n..]
  }

  /** Everything still queued, oldest first. */
  function Pending(s: State): seq<Rec>
    requires s.drain.Idle? || s.drain.n <= |All(s.claimed)|
  {
    Rest(s) + All(s.live)
  }

  predicate Shape(s: State) {
    && (if s.drain.Idle? then s.claimed.None? else s.claimed.Some? && s.drain.n <= |All(s.claimed)|)
    && match s.lock
       case Free => true
       case MustEvict => s.live.Some?
       case EvictWritten(n) => s.live.Some? && n <= |s.live.value| && s.tmp == Some(s.live.value[n..])
       case RestoreWritten => s.drain.Undelivered? && s.tmp == Some(Rest(s) + All(s.live))
       case RestoreRenamed => s.drain.Undelivered? && s.live.Some?
  }

  /** The records a step deals with for good, without sending: those evicted. */
  function EvictedBy(s: State, step: Step): nat {
    if step.RenameEvicted? && s.lock.EvictWritten? && s.lock.dropped <= |All(s.live)| then s.lock.dropped else 0
  }

  /** A stored payload goes to the end of the queue. */
  lemma {:induction false} EnqueueOnPending(max: nat, s: State, payload: Bytes)
    requires Shape(s)
    ensures var t := Next(max, s, Enqueue(payload));
            Shape(t) && t.sent == s.sent && Pending(t) == Pending(s) + Stored(s, t)
  {
  }

  /** A record dealt with leaves from the front; a failed send changes nothing. */
  lemma {:induction false} SendOnPending(max: nat, s: State, answer: Answer)
    requires Shape(s)
    ensures var t := Next(max, s, Send(answer));
            && Shape(t) && t.log == s.log
            && if t.sent == s.sent then Pending(t) == Pending(s) && t.ends == s.ends
               else
                 var rec := Pending(s)[0];
                 && Pending(s) == [rec] + Pending(t) && t.sent == s.sent + [rec]
                 && rec.id in t.ends && t.ends == s.ends[rec.id := t.ends[rec.id]]
  {
    var t := Next(max, s, Send(answer));
    if t.sent != s.sent {
      var c, n, live := All(s.claimed), s.drain.n, All(s.live);
      assert t.drain == Sending(n + 1) && t.claimed == s.claimed && t.live == s.live && t.lock == s.lock;
      assert Rest(s) == c[n..] && Rest(t) == c[n + 1..];
      TakeHead(c, n, live);
    }
  }

  lemma {:induction false} TakeHead(c: seq<Rec>, n: nat, live: seq<Rec>)
    requires n < |c|
    ensures c[n..] + live == [c[n]] + (c[n + 1..] + live)
    ensures (c[n..] + live)[0] == c[n]
  {
    assert c[n..] == [c[n]] + c[n + 1..];
  }

  /**
   Eviction removes the oldest live records. Claiming, and every step that
   puts the undelivered tail back ahead of what was enqueued since, leaves
   the queue exactly as it is.
   */
  lemma {:induction false} OtherOnPending(max: nat, s: State, step: Step)
    requires Shape(s) && !step.Enqueue? && !step.Send? && !step.Crash?
    ensures var t := Next(max, s, step);
            var n := EvictedBy(s, step);
            && Shape(t) && t.log == s.log && t.sent == s.sent
            && Pending(t) == Rest(s) + All(s.live)[n..]
            && t.ends == s.ends + EndsOf(All(s.live)[..n], WasEvicted)
  {
    if step.RenameEvicted? {
      EvictOnPending(max, s);
    } else {
      QuietOnPending(max, s, step);
      assert All(s.live)[0..] == All(s.live);
      assert s.ends + EndsOf([], WasEvicted) == s.ends;
    }
  }

  lemma {:induction false} EvictOnPending(max: nat, s: State)
    requires Shape(s)
    ensures var t := Next(max, s, RenameEvicted);
            var n := EvictedBy(s, RenameEvicted);
            && Shape(t) && t.log == s.log && t.sent == s.sent
            && Pending(t) == Rest(s) + All(s.live)[n..]
            && t.ends == s.ends + EndsOf(All(s.live)[..n], WasEvicted)
  {
    if s.lock.EvictWritten? {
    } else {
      assert All(s.live)[0..] == All(s.live);
      assert s.ends + EndsOf([], WasEvicted) == s.ends;
    }
  }

  lemma {:induction false} QuietOnPending(max: nat, s: State, step: Step)
    requires Shape(s) && !step.Enqueue? && !step.Send? && !step.Crash? && !step.RenameEvicted?
    ensures var t := Next(max, s, step);
            Shape(t) && t.log == s.log && t.sent == s.sent && Pending(t) == Pending(s) && t.ends == s.ends
  {
  }

  /** The record a payload that was just stored becomes. */
  function Stored(s: State, t: State): seq<Rec> {
    var id := |s.log|;
    if |t.log| > id && !Oversized(t.log[id]) then [Rec(id, t.log[id])] else []
  }

  predicate Increasing(recs: seq<Rec>) {
    forall i, j :: 0 <= i < j < |recs| ==> recs[i].id < recs[j].id
  }

  predicate Queued(recs: seq<Rec>, id: nat) {
    exists r :: r in recs && r.id == id
  }

  /** Each payload has one end or one place in the queue. */
  predicate Settled(queue: seq<Rec>, log: seq<Bytes>, ends: map<nat, End>) {
    && (forall r :: r in queue ==> r.id < |log| && r.id !in ends)
    && (forall id :: id in ends ==> id < |log|)
    && (forall id :: 0 <= id < |log| && id !in ends ==> Queued(queue, id))
  }

  /** And what was dealt with, then what is queued, is in the order of enqueuing. */
  predicate InOrder(sent: seq<Rec>, queue: seq<Rec>, log: seq<Bytes>, ends: map<nat, End>) {
    && Increasing(sent + queue)
    && (forall r :: r in sent ==> r.id < |log|)
    && Settled(queue, log, ends)
  }

  predicate Tidy(s: State) {
    Shape(s) && InOrder(s.sent, Pending(s), s.log, s.ends)
  }

  lemma {:induction false} OrderAppend(sent: seq<Rec>, queue: seq<Rec>, log: seq<Bytes>, ends: map<nat, End>,
      payload: Bytes)
    requires InOrder(sent, queue, log, ends)
    ensures InOrder(sent, queue + [Rec(|log|, payload)], log + [payload], ends)
  {
    var rec := Rec(|log|, payload);
    var all := sent + queue;
    assert sent + (queue + [rec]) == all + [rec];
    assert forall i :: 0 <= i < |all| ==> all[i] in sent || all[i] in queue;
    forall id | 0 <= id < |log + [payload]| && id !in ends ensures Queued(queue + [rec], id) {
      if id < |log| {
        var r :| r in queue && r.id == id;
        assert r in queue + [rec];
      } else {
        assert rec in queue + [rec];
      }
    }
  }

  lemma {:induction false} OrderEnd(sent: seq<Rec>, queue: seq<Rec>, log: seq<Bytes>, ends: map<nat, End>,
      payload: Bytes, end: End)
    requires InOrder(sent, queue, log, ends)
    ensures InOrder(sent, queue, log + [payload], ends[|log| := end])
  {
  }

  /** The records between two parts of the queue leave it. */
  lemma {:induction false} OrderDrop(a: seq<Rec>, b: seq<Rec>, c: seq<Rec>)
    requires Increasing(a + b + c)
    ensures Increasing(a + c)
  {
    var all, left := a + b + c, a + c;
    forall i, j | 0 <= i < j < |left|
      ensures left[i].id < left[j].id
    {
      var i' := if i < |a| then i else i + |b|;
      var j' := if j < |a| then j else j + |b|;
      assert left[i] == all[i'] && left[j] == all[j'];
    }
  }

  lemma {:induction false} Before(a: seq<Rec>, b: seq<Rec>)
    requires Increasing(a + b)
    ensures forall r, q :: r in a && q in b ==> r.id < q.id
  {
    forall r, q | r in a && q in b
      ensures r.id < q.id
    {
      var i :| 0 <= i < |a| && a[i] == r;
      var j :| 0 <= j < |b| && b[j] == q;
      assert (a + b)[i] == r && (a + b)[|a| + j] == q;
    }
  }

  lemma {:induction false} OrderPrefix(a: seq<Rec>, b: seq<Rec>)
    requires Increasing(a + b)
    ensures Increasing(a) && Increasing(b)
  {
    assert (a + b)[..|a|] == a && (a + b)[|a|..] == b;
  }

  lemma {:induction false} OrderSend(sent: seq<Rec>, rec: Rec, queue: seq<Rec>, log: seq<Bytes>, ends: map<nat, End>,
      end: End)
    requires InOrder(sent, [rec] + queue, log, ends)
    ensures InOrder(sent + [rec], queue, log, ends[rec.id := end])
  {
    assert sent + ([rec] + queue) == sent + [rec] + queue;
    Before(sent + [rec], queue);
    assert rec in sent + [rec] && rec in [rec] + queue;
    forall id | 0 <= id < |log| && id !in ends[rec.id := end] ensures Queued(queue, id) {
      var r :| r in [rec] + queue && r.id == id;
    }
  }

  lemma {:induction false} OrderEvict(sent: seq<Rec>, rest: seq<Rec>, gone: seq<Rec>, live: seq<Rec>, log: seq<Bytes>,
      ends: map<nat, End>)
    requires InOrder(sent, rest + (gone + live), log, ends)
    ensures InOrder(sent, rest + live, log, ends + EndsOf(gone, WasEvicted))
  {
    assert sent + (rest + (gone + live)) == (sent + rest) + gone + live;
    assert sent + (rest + live) == (sent + rest) + live;
    OrderDrop(sent + rest, gone, live);
    OrderPrefix((sent + rest) + gone, live);
    Before(sent + rest, gone);
    Before((sent + rest) + gone, live);
    assert forall r :: r in rest ==> r in sent + rest;
    assert forall r :: r in gone ==> r in (sent + rest) + gone;
    EvictSettles(rest, gone, live, log, ends);
  }

  lemma {:induction false} EvictSettles(rest: seq<Rec>, gone: seq<Rec>, live: seq<Rec>, log: seq<Bytes>,
      ends: map<nat, End>)
    requires Settled(rest + (gone + live), log, ends)
    requires forall r, q :: r in rest && q in gone ==> r.id < q.id
    requires forall r, q :: r in gone && q in live ==> r.id < q.id
    ensures Settled(rest + live, log, ends + EndsOf(gone, WasEvicted))
  {
    var ends' := ends + EndsOf(gone, WasEvicted);
    assert forall r :: r in gone ==> r in rest + (gone + live);
    forall id | 0 <= id < |log| && id !in ends' ensures Queued(rest + live, id) {
      var r :| r in rest + (gone + live) && r.id == id;
      assert r in rest + live;
    }
  }

  lemma {:induction false} EnqueueKeepsTidy(max: nat, s: State, payload: Bytes)
    requires Tidy(s)
    ensures Tidy(Next(max, s, Enqueue(payload)))
  {
    var t := Next(max, s, Enqueue(payload));
    EnqueueOnPending(max, s, payload);
    if |t.log| > |s.log| {
      if Oversized(payload) {
        OrderEnd(s.sent, Pending(s), s.log, s.ends, payload, WasOversized);
        assert Pending(t) == Pending(s);
      } else {
        OrderAppend(s.sent, Pending(s), s.log, s.ends, payload);
      }
    }
  }

  lemma {:induction false} SendKeepsTidy(max: nat, s: State, answer: Answer)
    requires Tidy(s)
    ensures Tidy(Next(max, s, Send(answer)))
  {
    var t := Next(max, s, Send(answer));
    SendOnPending(max, s, answer);
    if t.sent != s.sent {
      var rec := Pending(s)[0];
      OrderSend(s.sent, rec, Pending(t), s.log, s.ends, t.ends[rec.id]);
    }
  }

  lemma {:induction false} OtherKeepsTidy(max: nat, s: State, step: Step)
    requires Tidy(s) && !step.Enqueue? && !step.Send? && !step.Crash?
    ensures Tidy(Next(max, s, step))
  {
    var t := Next(max, s, step);
    OtherOnPending(max, s, step);
    var n := EvictedBy(s, step);
    var live := All(s.live);
    assert live[..n] + live[n..] == live;
    OrderEvict(s.sent, Rest(s), live[..n], live[n..], s.log, s.ends);
  }

  lemma {:induction false} RunKeepsTidy(max: nat, s: State, steps: seq<Step>)
    requires Tidy(s) && forall k :: 0 <= k < |steps| ==> !steps[k].Crash?
    ensures Tidy(Run(max, s, steps))
    decreases |steps|
  {
    if steps != [] {
      if steps[0].Enqueue? {
        EnqueueKeepsTidy(max, s, steps[0].payload);
      } else if steps[0].Send? {
        SendKeepsTidy(max, s, steps[0].answer);
      } else {
        OtherKeepsTidy(max, s, steps[0]);
      }
      RunKeepsTidy(max, Next(max, s, steps[0]), steps[1..]);
    }
  }

  /**
   For every interleaving of a drain with any number of enqueuers: each
   payload has come to exactly one end or holds exactly one place in the
   queue, and what was dealt with followed by what is still queued is in the
   order of enqueuing.
   */
  lemma {:induction false} ExactlyOneEndInOrder(max: nat, steps: seq<Step>, id: nat)
    requires forall k :: 0 <= k < |steps| ==> !steps[k].Crash?
    requires id < |Run(max, START, steps).log|
    ensures var s := Run(max, START, steps);
            && Shape(s)
            && Increasing(s.sent + Pending(s))
            && (id in s.ends <==> !Queued(Pending(s), id))
  {
    RunKeepsTidy(max, START, steps);
  }
}
