// The queue object is a run of the protocol: whatever is called on it, its
// files are the encoded records of the state that the protocol reaches, so
// that what holds of every run holds of every queue.

module QueueRefinement {
  import opened QueueRecords
  import opened QueueProtocol
  import opened Wrappers

  // ----- records as bytes -----

  function Encode(recs: seq<Rec>): Bytes {
    if recs == [] then [] else recs[0].payload + [NEWLINE] + Encode(recs[1..])
  }

  function EncodedFile(f: File): Option<Bytes> {
    if f.Some? then Some(Encode(f.value)) else None
  }

  function Payloads(recs: seq<Rec>): (r: seq<Bytes>)
    ensures |r| == |recs|
  {
    if recs == [] then [] else [recs[0].payload] + Payloads(recs[1..])
  }

  predicate Printable(recs: seq<Rec>) {
    forall k :: 0 <= k < |recs| ==> NEWLINE !in recs[k].payload
  }

  /** Records behind `a` in a file are read back, measured and skipped as the records they are. */
  lemma {:induction false} EncodedRecords(a: Bytes, recs: seq<Rec>, target: nat)
    requires Printable(recs)
    ensures var b := a + Encode(recs);
            && |Encode(recs)| == SizeOf(recs)
            && Records(b, |a|) == Payloads(recs)
            && Excess(b, |a|, target) == Drop(recs, target)
    decreases |recs|
  {
    if recs != [] {
      EncodedNext(a, recs);
      RecordsNext(a + Encode(recs), |a|, target);
      EncodedRecords(a + (recs[0].payload + [NEWLINE]), recs[1..], target);
    }
  }

  lemma {:induction false} RecordsNext(b: Bytes, i: nat, target: nat)
    requires i < |b|
    ensures Records(b, i) == [Payload(b, i)] + Records(b, QueueRecords.Next(b, i))
    ensures Excess(b, i, target) == if |b| - i <= target then 0 else 1 + Excess(b, QueueRecords.Next(b, i), target)
  {
  }

  lemma {:induction false} EncodedHead(a: Bytes, payload: Bytes, rest: Bytes)
    requires NEWLINE !in payload
    ensures var b := a + (payload + [NEWLINE] + rest);
            QueueRecords.Next(b, |a|) == |a + (payload + [NEWLINE])| && Payload(b, |a|) == payload
  {
    var b := a + (payload + [NEWLINE] + rest);
    var n := |a| + |payload|;
    assert b[|a|..n] == payload;
    assert forall k :: |a| <= k < n ==> b[k] == payload[k - |a|];
    LineEndUnique(b, |a|, n);
  }

  /** What is left of a file after `n` records encodes the others. */
  lemma {:induction false} EncodedTail(a: Bytes, recs: seq<Rec>, n: nat)
    requires Printable(recs) && n <= |recs|
    ensures var b := a + Encode(recs); b[Skip(b, |a|, n)..] == Encode(recs[n..])
    decreases n
  {
    var b := a + Encode(recs);
    if n == 0 {
      assert recs[0..] == recs && b[|a|..] == Encode(recs);
    } else {
      var line, rest := recs[0].payload + [NEWLINE], recs[1..];
      EncodedNext(a, recs);
      EncodedTail(a + line, rest, n - 1);
      assert rest[n - 1..] == recs[n..];
    }
  }

  lemma {:induction false} EncodedNext(a: Bytes, recs: seq<Rec>)
    requires Printable(recs) && recs != []
    ensures var b, line := a + Encode(recs), recs[0].payload + [NEWLINE];
            b == a + line + Encode(recs[1..]) && QueueRecords.Next(b, |a|) == |a + line|
            && Payload(b, |a|) == recs[0].payload && Printable(recs[1..])
  {
    EncodedHead(a, recs[0].payload, Encode(recs[1..]));
    assert a + (recs[0].payload + [NEWLINE] + Encode(recs[1..])) == a + Encode(recs);
  }

  lemma {:induction false} EncodeBoth(a: seq<Rec>, b: seq<Rec>)
    ensures Encode(a + b) == Encode(a) + Encode(b)
    decreases |a|
  {
    if a == [] {
      assert a + b == b;
    } else {
      assert (a + b)[1..] == a[1..] + b;
      EncodeBoth(a[1..], b);
    }
  }

  lemma {:induction false} EncodeOne(recs: seq<Rec>, rec: Rec)
    ensures Encode(recs + [rec]) == Encode(recs) + rec.payload + [NEWLINE]
  {
    EncodeBoth(recs, [rec]);
    assert Encode([rec]) == rec.payload + [NEWLINE] + [];
  }

  // ----- a call is a few steps -----

  lemma {:induction false} RunTwice(max: nat, s: State, a: seq<Step>, b: seq<Step>)
    ensures Run(max, s, a + b) == Run(max, Run(max, s, a), b)
    decreases |a|
  {
    if a == [] {
      assert a + b == b;
    } else {
      assert (a + b)[1..] == a[1..] + b;
      RunTwice(max, QueueProtocol.Next(max, s, a[0]), a[1..], b);
    }
  }

  lemma {:induction false} RunOne(max: nat, s: State, step: Step)
    ensures Run(max, s, [step]) == QueueProtocol.Next(max, s, step)
  {
  }

  lemma {:induction false} RunThree(max: nat, s: State, x: Step, y: Step, z: Step)
    ensures Run(max, s, [x, y, z]) ==
            QueueProtocol.Next(max, QueueProtocol.Next(max, QueueProtocol.Next(max, s, x), y), z)
  {
    RunTwice(max, s, [x], [y, z]);
    RunTwice(max, QueueProtocol.Next(max, s, x), [y], [z]);
    assert [x] + [y, z] == [x, y, z] && [y] + [z] == [y, z];
    RunOne(max, s, x);
    RunOne(max, QueueProtocol.Next(max, s, x), y);
    RunOne(max, QueueProtocol.Next(max, QueueProtocol.Next(max, s, x), y), z);
  }

  /**
   A resting state: no call under way, and every record can be read back. A
   crash may have left a claimed file behind.
   */
  predicate Resting(s: State) {
    s.lock.Free? && s.drain.Idle? && Printable(All(s.live)) && Printable(All(s.claimed))
  }

  function EnqueueSteps(payload: Bytes): seq<Step> {
    [Step.Enqueue(payload), WriteEvicted, RenameEvicted]
  }

  /** `Enqueue` under the lock: the payload is appended, and the oldest records go if need be. */
  lemma {:induction false} EnqueueRefines(max: nat, s: State, payload: Bytes)
    requires Resting(s) && NEWLINE !in payload
    ensures var t := Run(max, s, EnqueueSteps(payload));
            && Resting(t) && t.claimed == s.claimed
            && EncodedFile(t.live) == if Oversized(payload) then EncodedFile(s.live)
                                      else Some(EnqueuedFile(EncodedFile(s.live), payload, max))
  {
    RunThree(max, s, Step.Enqueue(payload), WriteEvicted, RenameEvicted);
    if !Oversized(payload) {
      var recs := All(s.live) + [Rec(|s.log|, payload)];
      EncodeOne(All(s.live), Rec(|s.log|, payload));
      EvictionRefines(recs, Target(max));
    }
  }

  lemma {:induction false} EvictionRefines(recs: seq<Rec>, target: nat)
    requires Printable(recs)
    ensures Evicted(Encode(recs), target) == Encode(recs[Drop(recs, target)..])
    ensures |Encode(recs)| == SizeOf(recs)
  {
    assert [] + Encode(recs) == Encode(recs);
    EncodedRecords([], recs, target);
    EncodedTail([], recs, Drop(recs, target));
  }

  /** The answers that a drain gets for `recs` when `n` attempts were made before. */
  function SendSteps(recs: seq<Rec>, send: (nat, Bytes) -> Answer, n: nat): seq<Step>
    decreases |recs|
  {
    if recs == [] then []
    else
      var fate := FateOf(send, n, recs[0].payload);
      [Send(send(n, recs[0].payload))] +
      if fate.Kept? then [] else SendSteps(recs[1..], send, if Attempted(fate) then n + 1 else n)
  }

  function EndSteps(): seq<Step> {
    [RemoveDrained] + [WriteRestored, RenameRestored, RemoveRestored]
  }

  /** The file that a drain sends: what an earlier one left behind, or else the live file. */
  function ToSend(s: State): File {
    if s.claimed.Some? then s.claimed else s.live
  }

  function DrainSteps(s: State, send: (nat, Bytes) -> Answer): seq<Step> {
    [Claim] + (SendSteps(All(ToSend(s)), send, 0) + EndSteps())
  }

  /** The state after the sends: so many records are dealt with, and the drain goes on or has to stop. */
  lemma {:induction false} SendsRun(max: nat, s: State, recs: seq<Rec>, send: (nat, Bytes) -> Answer, n: nat)
    requires s.drain.Sending? && s.drain.n <= |All(s.claimed)| && recs == All(s.claimed)[s.drain.n..]
    ensures var t, handled := Run(max, s, SendSteps(recs, send, n)), |Fates(send, n, Payloads(recs))|;
            && handled <= |recs|
            && t == s.(drain := t.drain, ends := t.ends, sent := s.sent + recs[..handled])
            && t.drain == if handled == |recs| then Sending(|All(s.claimed)|) else Undelivered(s.drain.n + handled)
    decreases |recs|
  {
    if recs == [] {
      assert s.sent + recs[..0] == s.sent;
    } else {
      var fate := FateOf(send, n, recs[0].payload);
      var step := Send(send(n, recs[0].payload));
      var t := QueueProtocol.Next(max, s, step);
      SendOnce(max, s, recs[0], send, n);
      FatesOf(recs, send, n);
      if fate.Kept? {
        RunOne(max, s, step);
        assert s.sent + recs[..0] == s.sent;
      } else {
        var m := if Attempted(fate) then n + 1 else n;
        SendsRun(max, t, recs[1..], send, m);
        SendsOn(max, s, step, SendSteps(recs[1..], send, m));
        FirstSent(s.sent, recs, |Fates(send, m, Payloads(recs[1..]))|);
      }
    }
  }

  lemma {:induction false} FatesOf(recs: seq<Rec>, send: (nat, Bytes) -> Answer, n: nat)
    requires recs != []
    ensures var fate := FateOf(send, n, recs[0].payload);
            |Fates(send, n, Payloads(recs))| ==
            if fate.Kept? then 0 else 1 + |Fates(send, if Attempted(fate) then n + 1 else n, Payloads(recs[1..]))|
  {
    assert Payloads(recs)[1..] == Payloads(recs[1..]);
  }

  lemma {:induction false} FirstSent(sent: seq<Rec>, recs: seq<Rec>, k: nat)
    requires k < |recs|
    ensures sent + [recs[0]] + recs[1..][..k] == sent + recs[..k + 1]
  {
  }

  lemma {:induction false} SendsOn(max: nat, s: State, step: Step, steps: seq<Step>)
    ensures Run(max, s, [step] + steps) == Run(max, QueueProtocol.Next(max, s, step), steps)
  {
    RunTwice(max, s, [step], steps);
    RunOne(max, s, step);
  }

  /** One record of the claimed file: its fate is what the byte-level drain makes of it. */
  lemma {:induction false} SendOnce(max: nat, s: State, rec: Rec, send: (nat, Bytes) -> Answer, n: nat)
    requires s.drain.Sending? && s.drain.n < |All(s.claimed)| && All(s.claimed)[s.drain.n] == rec
    ensures var t := QueueProtocol.Next(max, s, Send(send(n, rec.payload)));
            if FateOf(send, n, rec.payload).Kept? then t == s.(drain := Undelivered(s.drain.n))
            else t == s.(drain := Sending(s.drain.n + 1), ends := t.ends, sent := s.sent + [rec])
  {
  }

  /** `restore`: the claimed file goes, once its undelivered tail is in front of the live file. */
  lemma {:induction false} EndRun(max: nat, s: State)
    requires s.lock.Free? && s.claimed.Some? && !s.drain.Idle? && s.drain.n <= |All(s.claimed)|
    requires s.drain.Sending? ==> s.drain.n == |All(s.claimed)|
    ensures var t := Run(max, s, EndSteps());
            && t.lock.Free? && t.drain.Idle? && t.claimed.None? && t.sent == s.sent
            && t.live == if s.drain.Sending? then s.live else Some(All(s.claimed)[s.drain.n..] + All(s.live))
  {
    var u := QueueProtocol.Next(max, s, RemoveDrained);
    RunTwice(max, s, [RemoveDrained], [WriteRestored, RenameRestored, RemoveRestored]);
    RunOne(max, s, RemoveDrained);
    RunThree(max, u, WriteRestored, RenameRestored, RemoveRestored);
  }

  lemma {:induction false} NoEnd(max: nat, s: State)
    requires s.lock.Free? && s.drain.Idle?
    ensures Run(max, s, EndSteps()) == s
  {
    RunTwice(max, s, [RemoveDrained], [WriteRestored, RenameRestored, RemoveRestored]);
    RunOne(max, s, RemoveDrained);
    RunThree(max, s, WriteRestored, RenameRestored, RemoveRestored);
  }

  /** What a drain leaves of the file it sends and of the newer one. */
  function AfterDrain(recs: seq<Rec>, newer: File, n: nat): File
    requires n <= |recs|
  {
    if n == |recs| then newer else Some(recs[n..] + All(newer))
  }

  lemma {:induction false} DrainRuns(max: nat, s: State, send: (nat, Bytes) -> Answer)
    requires s.lock.Free? && s.drain.Idle? && ToSend(s).Some?
    ensures var t, recs := Run(max, s, DrainSteps(s, send)), All(ToSend(s));
            var n := |Fates(send, 0, Payloads(recs))|;
            && t.lock.Free? && t.drain.Idle? && t.claimed.None? && n <= |recs| && t.sent == s.sent + recs[..n]
            && t.live == AfterDrain(recs, if s.claimed.Some? then s.live else None, n)
  {
    var recs := All(ToSend(s));
    var c := QueueProtocol.Next(max, s, Claim);
    SendsOn(max, s, Claim, SendSteps(recs, send, 0) + EndSteps());
    RunTwice(max, c, SendSteps(recs, send, 0), EndSteps());
    assert recs[0..] == recs;
    SendsRun(max, c, recs, send, 0);
    EndRun(max, Run(max, c, SendSteps(recs, send, 0)));
  }

  /** `Drain`: the records go to the server in order up to the first that has to be kept. */
  lemma {:induction false} DrainRefines(max: nat, s: State, send: (nat, Bytes) -> Answer)
    requires Resting(s)
    ensures var t, recs := Run(max, s, DrainSteps(s, send)), All(ToSend(s));
            var n := |Fates(send, 0, Payloads(recs))|;
            && Resting(t) && t.claimed.None?
            && EncodedFile(t.live) == DrainedFile(EncodedFile(s.live), EncodedFile(s.claimed), send)
            && n <= |recs| && t.sent == s.sent + recs[..n]
  {
    if ToSend(s).None? {
      NothingRuns(max, s, send);
    } else {
      DrainRuns(max, s, send);
      DrainedIs(s.live, s.claimed, send);
    }
  }

  lemma {:induction false} NothingRuns(max: nat, s: State, send: (nat, Bytes) -> Answer)
    requires s.lock.Free? && s.drain.Idle? && ToSend(s).None?
    ensures Run(max, s, DrainSteps(s, send)) == s && s.sent == s.sent + [][..0]
  {
    SendsOn(max, s, Claim, SendSteps([], send, 0) + EndSteps());
    assert SendSteps([], send, 0) + EndSteps() == EndSteps();
    NoEnd(max, s);
  }

  lemma {:induction false} DrainedIs(live: File, claimed: File, send: (nat, Bytes) -> Answer)
    requires live.Some? || claimed.Some?
    requires Printable(All(if claimed.Some? then claimed else live))
    ensures var recs, newer := All(if claimed.Some? then claimed else live), if claimed.Some? then live else None;
            var n := |Fates(send, 0, Payloads(recs))|;
            && n <= |recs|
            && DrainedFile(EncodedFile(live), EncodedFile(claimed), send) ==
               EncodedFile(AfterDrain(recs, newer, n))
  {
    var recs, newer := All(if claimed.Some? then claimed else live), if claimed.Some? then live else None;
    TailIs(recs, All(newer), send);
  }

  lemma {:induction false} TailIs(recs: seq<Rec>, newer: seq<Rec>, send: (nat, Bytes) -> Answer)
    requires Printable(recs)
    ensures var n := |Fates(send, 0, Payloads(recs))|;
            && Records(Encode(recs), 0) == Payloads(recs) && n <= |recs|
            && Encode(recs)[Skip(Encode(recs), 0, n)..] + Encode(newer) == Encode(recs[n..] + newer)
  {
    var n := |Fates(send, 0, Payloads(recs))|;
    assert [] + Encode(recs) == Encode(recs);
    EncodedRecords([], recs, 0);
    EncodedTail([], recs, n);
    EncodeBoth(recs[n..], newer);
  }

  // ----- a restart -----

  predicate OneLine(step: Step) {
    step.Enqueue? ==> NEWLINE !in step.payload
  }

  predicate OneLines(log: seq<Bytes>) {
    forall k :: 0 <= k < |log| ==> NEWLINE !in log[k]
  }

  lemma {:induction false} LogPrintable(max: nat, s: State, steps: seq<Step>)
    requires OneLines(s.log) && forall k :: 0 <= k < |steps| ==> OneLine(steps[k])
    ensures OneLines(Run(max, s, steps).log)
    decreases |steps|
  {
    if steps != [] {
      StepPrintable(max, s, steps[0]);
      LogPrintable(max, QueueProtocol.Next(max, s, steps[0]), steps[1..]);
    }
  }

  lemma {:induction false} StepPrintable(max: nat, s: State, step: Step)
    requires OneLines(s.log) && OneLine(step)
    ensures OneLines(QueueProtocol.Next(max, s, step).log)
  {
  }

  /** Whatever was under way, a crash leaves a state from which calls can go on. */
  lemma {:induction false} CrashRests(max: nat, steps: seq<Step>, garbage: File)
    requires forall k :: 0 <= k < |steps| ==> OneLine(steps[k])
    ensures Resting(Run(max, START, steps + [Crash(garbage)]))
  {
    var s := Run(max, START, steps);
    RunTwice(max, START, steps, [Crash(garbage)]);
    RunOne(max, s, Crash(garbage));
    LogPrintable(max, START, steps);
    RunKeepsInv(max, START, steps);
    assert forall r :: r in All(s.live) || r in All(s.claimed) ==> NEWLINE !in r.payload;
    assert forall k :: 0 <= k < |All(s.live)| ==> All(s.live)[k] in All(s.live);
    assert forall k :: 0 <= k < |All(s.claimed)| ==> All(s.claimed)[k] in All(s.claimed);
  }

  // ----- the object -----

  /** A queue together with the steps that the calls on it amount to. */
  class Followed {
    const queue: Queue
    ghost var steps: seq<Step>

    constructor (maxBytes: int, bufferSize: nat)
      requires bufferSize > 0
      ensures Valid() && fresh(queue) && steps == []
    {
      queue := new Queue(maxBytes, bufferSize, None, None);
      steps := [];
    }

    /** After a restart: the files are what any run of the protocol left, crashes and all. */
    constructor Restart(maxBytes: nat, bufferSize: nat, live: Option<Bytes>, claimed: Option<Bytes>,
        ghost steps: seq<Step>)
      requires maxBytes > 0 && bufferSize > 0 && Resting(Run(maxBytes, START, steps))
      requires live == EncodedFile(Run(maxBytes, START, steps).live)
      requires claimed == EncodedFile(Run(maxBytes, START, steps).claimed)
      ensures Valid() && fresh(queue) && this.steps == steps
    {
      queue := new Queue(maxBytes, bufferSize, live, claimed);
      this.steps := steps;
    }

    ghost function Now(): State
      reads this
    {
      Run(queue.maxBytes, START, steps)
    }

    /** The files are the encoded records of the state that the steps lead to. */
    ghost predicate Valid()
      reads this, queue
    {
      && queue.bufferSize > 0 && !queue.draining && Resting(Now())
      && queue.live == EncodedFile(Now().live) && queue.claimed == EncodedFile(Now().claimed)
    }

    method Enqueue(payload: Bytes)
      requires Valid() && NEWLINE !in payload
      modifies this, queue
      ensures Valid() && steps == old(steps) + EnqueueSteps(payload)
    {
      EnqueueRefines(queue.maxBytes, Now(), payload);
      RunTwice(queue.maxBytes, START, steps, EnqueueSteps(payload));
      queue.Enqueue(payload);
      steps := steps + EnqueueSteps(payload);
    }

    method Drain(send: (nat, Bytes) -> Answer) returns (offered: seq<Bytes>)
      requires Valid()
      modifies this, queue
      ensures Valid() && steps == old(steps) + DrainSteps(old(Now()), send)
    {
      DrainRefines(queue.maxBytes, Now(), send);
      RunTwice(queue.maxBytes, START, steps, DrainSteps(Now(), send));
      offered := queue.Drain(send);
      steps := steps + DrainSteps(Now(), send);
    }
  }

  /**
   A payload that was enqueued is in one of the files until the server has
   answered for it or eviction has taken it.
   */
  lemma {:induction false} QueueLosesNothing(q: Followed, id: nat)
    requires q.Valid() && id < |q.Now().log|
    ensures var s := q.Now();
            var payload := s.log[id];
            payload != [] && !Oversized(payload) ==>
              || (id in s.ends && (s.ends[id].WasDelivered? || s.ends[id].WasRejected? || s.ends[id].WasEvicted?))
              || payload in Records(Contents(q.queue.live), 0)
              || payload in Records(Contents(q.queue.claimed), 0)
  {
    var s := q.Now();
    NothingIsLost(q.queue.maxBytes, q.steps, id);
    InRecords(s.live, Rec(id, s.log[id]));
    InRecords(s.claimed, Rec(id, s.log[id]));
  }

  lemma {:induction false} InRecords(f: File, rec: Rec)
    requires Printable(All(f))
    ensures rec in All(f) ==> rec.payload in Records(Contents(EncodedFile(f)), 0)
  {
    EncodedRecords([], All(f), 0);
    assert [] + Encode(All(f)) == Encode(All(f));
    if rec in All(f) {
      InPayloads(All(f), rec);
    }
  }

  lemma {:induction false} InPayloads(recs: seq<Rec>, rec: Rec)
    requires rec in recs
    ensures rec.payload in Payloads(recs)
  {
    if recs[0] != rec {
      InPayloads(recs[1..], rec);
    }
  }
}
