// The terms in which uploads are recorded, spelled out: what a replay of writes
// leaves at each position, which uploads are complete, and which opens and
// writes are refused.

module UploadLaws {
  import opened Uploads
  import opened Wrappers

  // ----- replaying writes -----

  /** The write has a byte for position k. */
  predicate Reaches(w: Write, k: nat) {
    w.off <= k < w.off + |w.data|
  }

  lemma {:induction false} PatchedAt(file: Bytes, w: Write, k: nat)
    ensures var end, p := w.off + |w.data|, Patched(file, w);
            && |p| == (if end > |file| then end else |file|)
            && (k < |p| ==> p[k] == if Reaches(w, k) then w.data[k - w.off] else if k < |file| then file[k] else 0)
  {
  }

  /** Write j is the last that has a byte for position k. */
  predicate LastAt(writes: seq<Write>, j: nat, k: nat) {
    j < |writes| && Reaches(writes[j], k) && forall i :: j < i < |writes| ==> !Reaches(writes[i], k)
  }

  /** Each byte is that of the last write that has one for its place, and 0 where none has. */
  lemma {:induction false} ReplayKeepsLast(writes: seq<Write>, k: nat)
    requires k < |Replayed(writes)|
    ensures forall j: nat :: LastAt(writes, j, k) ==> Replayed(writes)[k] == writes[j].data[k - writes[j].off]
    ensures (forall i :: 0 <= i < |writes| ==> !Reaches(writes[i], k)) ==> Replayed(writes)[k] == 0
  {
    if writes != [] {
      var n := |writes| - 1;
      var before := Replayed(writes[..n]);
      PatchedAt(before, writes[n], k);
      if k < |before| {
        ReplayKeepsLast(writes[..n], k);
        assert forall j: nat :: LastAt(writes, j, k) && j < n ==> LastAt(writes[..n], j, k);
      } else {
        ReplayIsLong(writes[..n], k);
      }
    }
  }

  lemma {:induction false} ReplayIsLong(writes: seq<Write>, k: nat)
    requires k >= |Replayed(writes)|
    ensures forall i :: 0 <= i < |writes| ==> !Reaches(writes[i], k)
  {
    if writes != [] {
      var n := |writes| - 1;
      PatchedAt(Replayed(writes[..n]), writes[n], k);
      ReplayIsLong(writes[..n], k);
      assert forall i :: 0 <= i < n ==> writes[..n][i] == writes[i];
    }
  }

  // ----- complete uploads -----

  /** The bytes of the writes, one after another. */
  function Body(writes: seq<Write>): Bytes {
    if writes == [] then [] else writes[0].data + Body(writes[1..])
  }

  lemma {:induction false} BodyOfMore(writes: seq<Write>, w: Write)
    ensures Body(writes + [w]) == Body(writes) + w.data
  {
    if writes == [] {
      assert writes + [w] == [w] && [w][1..] == [];
    } else {
      assert (writes + [w])[1..] == writes[1..] + [w];
      BodyOfMore(writes[1..], w);
    }
  }

  /** Every write starts where those before it end. */
  ghost predicate InOrder(writes: seq<Write>) {
    forall k :: 0 <= k < |writes| ==> writes[k].off == |Body(writes[..k])|
  }

  lemma {:induction false} SequentialIsInOrder(writes: seq<Write>)
    ensures Length(writes) == |Body(writes)|
    ensures Sequential(writes) <==> InOrder(writes)
    ensures Sequential(writes) ==> Replayed(writes) == Body(writes)
  {
    if writes != [] {
      var n := |writes| - 1;
      var before := writes[..n];
      assert before + [writes[n]] == writes;
      SequentialIsInOrder(before);
      BodyOfMore(before, writes[n]);
      assert forall k :: 0 <= k < n ==> before[..k] == writes[..k] && before[k] == writes[k];
      if Sequential(writes) {
        SequentialReplay(writes);
      }
    }
  }

  /** The upload of a complete record: nothing was refused, and the hash is that of the bytes in their order. */
  lemma {:induction false} CompleteMeans(h: History, clean: bool)
    ensures Honest(h, clean) <==> clean && h.began && !h.refused && InOrder(h.writes)
    ensures Honest(h, clean) ==> Replayed(h.writes) == Body(h.writes)
  {
    SequentialIsInOrder(h.writes);
  }

  // ----- what is refused -----

  /** An open is refused as a failure (4) or as naming no file (2). */
  lemma {:induction false} OpenRefusals(flags: Flags, stat: Stat)
    ensures Refusal(flags, stat) ==
            match stat
            case Absent => if flags.creat then None else Some(2)
            case Present(dir, _) =>
              if (flags.creat && flags.excl) || (dir && flags.write) then Some(4) else None
    ensures Changes(flags, stat) <==> flags.write || stat == Absent
    ensures Empties(flags, stat) <==> stat == Absent || (flags.write && flags.trunc)
  {
  }

  /** A write is refused for good once one was, past 64 MiB of the file or 256 MiB of the session. */
  lemma {:induction false} WriteLimits(f: File, off: nat, n: nat, spent: nat)
    ensures Fits(f, off, n, spent) <==> !f.capped && off + n <= 67_108_864 && spent + n <= 268_435_456
    ensures Writable(f) <==> f.write && !f.dir && !f.listing
  {
  }
}
