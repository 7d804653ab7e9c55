// What an upload is recorded as (internal/server/sftp.go, internal/server/scp.go).
// A record that says Complete carries a hash; the hash is modelled by the very
// bytes that were fed to it.

module Uploads {
  import opened Wrappers

  const UPLOAD_MAX_FILE_BYTES := 64 * 0x10_0000
  const UPLOAD_MAX_SESSION_BYTES := 256 * 0x10_0000
  const MAX_FILE_TRANSFERS := 64
  const SFTP_MAX_HANDLES := 64
  const SFTP_MAX_MUTATIONS := 1024

  /** One recorded upload; `hashed` is `None` unless it is complete. */
  datatype Transfer = Transfer(path: string, size: nat, hashed: Option<Bytes>)

  // ----- a file that writes are replayed into -----

  datatype Write = Write(off: nat, data: Bytes)

  /** Writes past the end leave zeros in between. */
  function Patched(file: Bytes, w: Write): Bytes {
    var reached := if w.off <= |file| then file else file + seq(w.off - |file|, _ => 0);
    reached[..w.off] + w.data + (if w.off + |w.data| < |reached| then reached[w.off + |w.data|..] else [])
  }

  /** What the writes leave in an initially empty file. */
  function Replayed(writes: seq<Write>): Bytes {
    if writes == [] then [] else Patched(Replayed(writes[..|writes| - 1]), writes[|writes| - 1])
  }

  /** Every write starts where the one before it ended, the first at 0. */
  predicate Sequential(writes: seq<Write>) {
    writes != [] ==>
      var earlier, last := writes[..|writes| - 1], writes[|writes| - 1];
      Sequential(earlier) && last.off == Length(earlier)
  }

  /** All the bytes that the writes carry. */
  function Length(writes: seq<Write>): nat {
    if writes == [] then 0 else Length(writes[..|writes| - 1]) + |writes[|writes| - 1].data|
  }

  /** Sequential writes leave their data one after another. */
  lemma {:induction false} SequentialReplay(writes: seq<Write>)
    requires Sequential(writes)
    ensures |Replayed(writes)| == Length(writes)
    ensures writes != [] ==>
      Replayed(writes) == Replayed(writes[..|writes| - 1]) + writes[|writes| - 1].data
  {
    if writes != [] {
      SequentialReplay(writes[..|writes| - 1]);
    }
  }

  // ----- the session's budget -----

  class SessionGuard {
    var uploadBytes: nat
    var transfers: seq<Transfer>

    constructor ()
      ensures uploadBytes == 0 && transfers == []
    {
      uploadBytes, transfers := 0, [];
    }

    method ReserveUpload(n: nat) returns (ok: bool)
      modifies this`uploadBytes
      ensures ok <==> old(uploadBytes) + n <= UPLOAD_MAX_SESSION_BYTES
      ensures uploadBytes == if ok then old(uploadBytes) + n else old(uploadBytes)
    {
      if uploadBytes + n > UPLOAD_MAX_SESSION_BYTES {
        return false;
      }
      uploadBytes := uploadBytes + n;
      return true;
    }

    /** Past the cap an upload is dropped silently. */
    method AppendTransfer(t: Transfer)
      modifies this`transfers
      ensures transfers == if |old(transfers)| < MAX_FILE_TRANSFERS then old(transfers) + [t] else old(transfers)
    {
      if |transfers| >= MAX_FILE_TRANSFERS {
        return;
      }
      transfers := transfers + [t];
    }
  }

  // ----- sftp -----

  /** An open handle; `hashed` is what the running hash was fed. */
  datatype File = File(
    path: string, dir: bool, listing: bool, write: bool,
    hashed: Bytes, next: nat, size: nat, hashing: bool, capped: bool, record: bool)

  /** What a handle has been through: its accepted writes, whether it began empty, and whether one was refused. */
  datatype History = History(writes: seq<Write>, began: bool, refused: bool)

  function Accepting(h: History, w: Write): History {
    h.(writes := h.writes + [w])
  }

  /** The state of a handle is what its history says. */
  predicate Tells(f: File, h: History) {
    && f.hashing == (h.began && Sequential(h.writes))
    && (f.hashing ==> f.hashed == Replayed(h.writes) && f.next == f.size == Length(h.writes))
    && f.capped == h.refused
    && f.record == (h.began || h.writes != [])
    && (h.began ==> f.size == |Replayed(h.writes)|)
  }

  /** An upload is complete: closed by the client, begun empty, written in order and in full. */
  predicate Honest(h: History, clean: bool) {
    clean && h.began && !h.refused && Sequential(h.writes)
  }

  /** What `SSH_FXP_OPEN` finds at the path. */
  datatype Stat = Absent | Present(dir: bool, size: nat)

  datatype Flags = Flags(read: bool, write: bool, creat: bool, trunc: bool, excl: bool)

  datatype Reply = Handle(h: nat) | Status(code: nat)

  const FX_OK := 0
  const FX_NO_SUCH_FILE := 2
  const FX_FAILURE := 4

  /** An open that creates or changes a file. */
  predicate Changes(flags: Flags, stat: Stat) {
    flags.write || stat.Absent?
  }

  /** An open that leaves the file empty. */
  predicate Empties(flags: Flags, stat: Stat) {
    Changes(flags, stat) && (stat.Absent? || flags.trunc)
  }

  /** What the flags do not allow. */
  function Refusal(flags: Flags, stat: Stat): Option<nat> {
    if flags.creat && flags.excl && stat.Present? then Some(FX_FAILURE)
    else if stat.Absent? && !flags.creat then Some(FX_NO_SUCH_FILE)
    else if stat.Present? && stat.dir && flags.write then Some(FX_FAILURE)
    else None
  }

  predicate Writable(f: File) {
    !f.listing && !f.dir && f.write
  }

  /** `n` bytes at `off` are within the limits of a file and of the session, which has `spent` so many. */
  predicate Fits(f: File, off: nat, n: nat, spent: nat) {
    && !f.capped && off <= UPLOAD_MAX_FILE_BYTES && off + n <= UPLOAD_MAX_FILE_BYTES
    && spent + n <= UPLOAD_MAX_SESSION_BYTES
  }

  class SftpServer {
    const guard: SessionGuard
    var handles: map<nat, File>
    var mutations: nat
    ghost var histories: map<nat, History>
    ghost var accepted: nat  // bytes of the writes that were accepted

    constructor (guard: SessionGuard)
      ensures Valid() && this.guard == guard && handles == map[] && accepted == 0
    {
      this.guard, handles, mutations, histories, accepted := guard, map[], 0, map[], 0;
    }

    ghost predicate Valid()
      reads this
    {
      && histories.Keys == handles.Keys && |handles| <= SFTP_MAX_HANDLES && mutations <= SFTP_MAX_MUTATIONS
      && forall h :: h in handles ==> Tells(handles[h], histories[h])
    }

    /** The lowest free slot: it is below the cap, and no slot below it is free. */
    method NewHandle(f: File, ghost history: History) returns (reply: Reply)
      requires Valid() && Tells(f, history)
      modifies this`handles, this`histories
      ensures Valid() && (reply.Status? <==> old(|handles|) == SFTP_MAX_HANDLES)
      ensures reply.Status? ==> reply.code == FX_FAILURE && handles == old(handles) && histories == old(histories)
      ensures reply.Handle? ==>
        && reply.h < SFTP_MAX_HANDLES && reply.h !in old(handles) &&
          (forall k: nat :: k < reply.h ==> k in old(handles))
        && handles == old(handles)[reply.h := f] && histories == old(histories)[reply.h := history]
    {
      if |handles| >= SFTP_MAX_HANDLES {
        return Status(FX_FAILURE);
      }
      var h := FreeSlot();
      handles := handles[h := f];
      histories := histories[h := history];
      assert handles.Keys == old(handles).Keys + {h};
      return Handle(h);
    }

    method FreeSlot() returns (h: nat)
      ensures h !in handles && h <= |handles| && forall k: nat :: k < h ==> k in handles
    {
      h := 0;
      while h in handles
        invariant h <= |handles.Keys| && forall k: nat :: k < h ==> k in handles
        decreases |handles.Keys| - h
      {
        h := h + 1;
        Below(handles.Keys, h);
      }
    }

    /** `open`; `failure` is the status of a file that the filesystem does not let be created. */
    method Open(path: string, flags: Flags, stat: Stat, failure: Option<nat>) returns (reply: Reply)
      requires Valid()
      modifies this`handles, this`histories, this`mutations
      ensures Valid()
      ensures var full := old(mutations) == SFTP_MAX_MUTATIONS;
        && mutations == (if Refusal(flags, stat).None? && Changes(flags, stat) && !full then old(mutations) + 1
                         else old(mutations))
        && (reply.Status? <==>
              || Refusal(flags, stat).Some? || (Changes(flags, stat) && (full || failure.Some?))
              || old(|handles|) == SFTP_MAX_HANDLES)
        && (reply.Status? ==>
              reply.code == if Refusal(flags, stat).Some? then Refusal(flags, stat).value
                            else if Changes(flags, stat) && !full && failure.Some? then failure.value else FX_FAILURE)
      ensures reply.Status? ==> handles == old(handles) && histories == old(histories)
      ensures reply.Handle? ==>
        && reply.h !in old(handles) && reply.h in handles && handles == old(handles)[reply.h := handles[reply.h]]
        && histories == old(histories)[reply.h := History([], Empties(flags, stat), false)]
        && handles[reply.h].path == path && handles[reply.h].write == flags.write
        && handles[reply.h].dir == (stat.Present? && stat.dir) && !handles[reply.h].listing
    {
      var found := stat.Present?;
      var f := File(path, false, false, flags.write, [], 0, 0, false, false, false);
      if flags.creat && flags.excl && found {
        return Status(FX_FAILURE);
      }
      if !found && !flags.creat {
        return Status(FX_NO_SUCH_FILE);
      }
      if found && stat.dir && f.write {
        return Status(FX_FAILURE);
      }
      ghost var history := History([], Empties(flags, stat), false);
      if f.write || !found {
        if mutations >= SFTP_MAX_MUTATIONS {
          return Status(FX_FAILURE);
        }
        mutations := mutations + 1;
        if failure.Some? {
          return Status(failure.value);
        }
        f := f.(record := !found || flags.trunc, hashing := true);
        if found && !flags.trunc {
          f := f.(hashing := false, size := stat.size);
        }
      }
      f := f.(dir := found && stat.dir);
      reply := NewHandle(f, history);
    }

    /** `writeFile` */
    method WriteFile(h: nat, off: nat, data: Bytes) returns (reply: Reply)
      requires Valid()
      modifies this`handles, this`histories, this`accepted, guard`uploadBytes
      ensures Valid() && reply.Status? && handles.Keys == old(handles.Keys)
      ensures
        if h !in old(handles) || !Writable(old(handles)[h]) then
          && histories == old(histories) && accepted == old(accepted)
          && reply.code == if h in old(handles) && (old(handles)[h].listing || old(handles)[h].dir) then FX_FAILURE
                           else FX_NO_SUCH_FILE
        else if Fits(old(handles)[h], off, |data|, old(guard.uploadBytes)) then
          && histories == old(histories)[h := Accepting(old(histories)[h], Write(off, data))]
          && accepted == old(accepted) + |data| && reply.code == FX_OK
        else
          && histories == old(histories)[h := old(histories)[h].(refused := true)]
          && accepted == old(accepted) && reply.code == FX_FAILURE
      ensures guard.uploadBytes - old(guard.uploadBytes) == accepted - old(accepted)
      ensures old(guard.uploadBytes) <= UPLOAD_MAX_SESSION_BYTES ==> guard.uploadBytes <= UPLOAD_MAX_SESSION_BYTES
    {
      if h !in handles {
        return Status(FX_NO_SUCH_FILE);
      }
      var f := handles[h];
      if f.listing || f.dir {
        return Status(FX_FAILURE);
      }
      if !f.write {
        return Status(FX_NO_SUCH_FILE);
      }
      var n := |data|;
      var end := off + n;
      var refused := f.capped || off > UPLOAD_MAX_FILE_BYTES || end > UPLOAD_MAX_FILE_BYTES;
      if !refused {
        var ok := guard.ReserveUpload(n);
        refused := !ok;
      }
      if refused {
        Keep(h, f.(capped := true), histories[h].(refused := true));
        return Status(FX_FAILURE);
      }
      Accept(h, off, data);
      return Status(FX_OK);
    }

    /** The write goes into the file: into its hash only if it starts where the last one ended. */
    method Accept(h: nat, off: nat, data: Bytes)
      requires Valid() && h in handles
      modifies this`handles, this`histories, this`accepted
      ensures Valid() && handles.Keys == old(handles.Keys) && accepted == old(accepted) + |data|
      ensures histories == old(histories)[h := Accepting(old(histories)[h], Write(off, data))]
    {
      var f := Land(handles[h], off, data);
      WriteTells(handles[h], histories[h], off, data);
      Keep(h, f, Accepting(histories[h], Write(off, data)));
      accepted := accepted + |data|;
    }

    method Land(f: File, off: nat, data: Bytes) returns (g: File)
      ensures g == Landed(f, off, data)
    {
      g := f.(record := true);
      var end := off + |data|;
      if g.hashing && off == g.next {
        g := g.(hashed := g.hashed + data, next := end);
      } else {
        g := g.(hashing := false);
      }
      if end > g.size {
        g := g.(size := end);
      }
    }

    method Keep(h: nat, f: File, ghost history: History)
      requires Valid() && h in handles && Tells(f, history)
      modifies this`handles, this`histories
      ensures Valid() && handles == old(handles)[h := f] && histories == old(histories)[h := history]
    {
      handles := handles[h := f];
      histories := histories[h := history];
      assert handles.Keys == old(handles).Keys && |handles.Keys| == |handles|;
    }

    /**
     `closeHandle`: an upload is recorded exactly when the handle was open for
     writing and the file was emptied by the open or written to, and the
     session has room for another record. It is complete exactly when its
     history is honest, and then it carries the hash of what its writes,
     replayed at their offsets, leave in an empty file. Its size is that of
     the replayed file whenever the file began empty.
     */
    method CloseHandle(h: nat, clean: bool)
      requires Valid()
      modifies this`handles, this`histories, guard`transfers
      ensures Valid() && handles == old(handles) - {h}
      ensures old(guard.transfers) <= guard.transfers && |guard.transfers| <= |old(guard.transfers)| + 1
      ensures guard.transfers != old(guard.transfers) <==>
        && h in old(handles) && old(handles)[h].write
        && (old(histories)[h].began || old(histories)[h].writes != [])
        && |old(guard.transfers)| < MAX_FILE_TRANSFERS
      ensures guard.transfers != old(guard.transfers) ==>
        var t, history := guard.transfers[|old(guard.transfers)|], old(histories)[h];
        && t.path == old(handles)[h].path
        && (t.hashed.Some? <==> Honest(history, clean))
        && (t.hashed.Some? ==> t.hashed.value == Replayed(history.writes))
        && (history.began ==> t.size == |Replayed(history.writes)|)
    {
      if h !in handles {
        assert handles - {h} == handles;
        return;
      }
      var f := handles[h];
      ghost var history := histories[h];
      handles := handles - {h};
      histories := histories - {h};
      assert handles.Keys == old(handles.Keys) - {h};
      assert |handles.Keys| <= |old(handles.Keys)|;
      if !f.write || !f.record {
        return;
      }
      if history.began && Sequential(history.writes) {
        SequentialReplay(history.writes);
      }
      var complete := clean && f.hashing && !f.capped && f.next == f.size;
      guard.AppendTransfer(Transfer(f.path, f.size, if complete then Some(f.hashed) else None));
    }
  }

  /** The numbers below `n` are that many. */
  lemma {:induction false} Below(s: set<nat>, n: nat)
    requires forall k: nat :: k < n ==> k in s
    ensures n <= |s|
    decreases n
  {
    if n > 0 {
      var less := s - {n - 1};
      assert forall k: nat :: k < n - 1 ==> k in less;
      Below(less, n - 1);
    }
  }

  /** A file after a write that was accepted. */
  function Landed(f: File, off: nat, data: Bytes): File {
    var end := off + |data|;
    var g := f.(record := true, size := if end > f.size then end else f.size);
    if f.hashing && off == f.next then g.(hashed := f.hashed + data, next := end) else g.(hashing := false)
  }

  /** One more write. */
  lemma {:induction false} ReplayStep(writes: seq<Write>, w: Write)
    ensures var all := writes + [w];
      && Length(all) == Length(writes) + |w.data|
      && (Sequential(all) <==> Sequential(writes) && w.off == Length(writes))
      && (Sequential(all) ==> |Replayed(writes)| == Length(writes) && Replayed(all) == Replayed(writes) + w.data)
  {
    var all := writes + [w];
    assert all[..|all| - 1] == writes && all[|all| - 1] == w;
    if Sequential(all) {
      SequentialReplay(writes);
      SequentialReplay(all);
    }
  }

  lemma {:induction false} WriteTells(f: File, h: History, off: nat, data: Bytes)
    requires Tells(f, h)
    ensures Tells(Landed(f, off, data), Accepting(h, Write(off, data)))
  {
    var w, g := Write(off, data), Landed(f, off, data);
    var writes, all := h.writes, h.writes + [w];
    ReplayStep(writes, w);
    assert g.hashing <==> h.began && Sequential(all);
  }

  // ----- scp -----

  /**
   One file body. `input` is what the client sends before the stream breaks,
   and `cuts` how many bytes each read finds; a stream that has no more reads
   left has broken.
   */
  method Receive(guard: SessionGuard, path: string, size: nat, input: Bytes, cuts: seq<nat>)
    returns (ended: bool, rest: Bytes)
    modifies guard
    ensures var room := size <= UPLOAD_MAX_FILE_BYTES && old(guard.uploadBytes) + size <= UPLOAD_MAX_SESSION_BYTES;
      guard.uploadBytes == if room then old(guard.uploadBytes) + size else old(guard.uploadBytes)
    ensures |guard.transfers| <= |old(guard.transfers)| + 1 && old(guard.transfers) <= guard.transfers
    ensures guard.transfers != old(guard.transfers) ==>
      var t := guard.transfers[|old(guard.transfers)|];
      && t.path == path && t.size == size && (t.hashed.Some? <==> !ended)
    ensures !ended ==>
      && |input| > size && input[size] == 0 && rest == input[size + 1..]
      && (guard.transfers != old(guard.transfers) ==>
            guard.transfers[|old(guard.transfers)|].hashed == Some(input[..size]))
    ensures
      (&& size <= UPLOAD_MAX_FILE_BYTES && old(guard.uploadBytes) + size <= UPLOAD_MAX_SESSION_BYTES
       && |input| > size && input[size] == 0
       && |cuts| >= size && (forall k :: 0 <= k < |cuts| ==> cuts[k] > 0)) ==> !ended
  {
    var rec := Transfer(path, size, None);
    var ok := size <= UPLOAD_MAX_FILE_BYTES;
    if ok {
      ok := guard.ReserveUpload(size);
    }
    if !ok {
      guard.AppendTransfer(rec);
      return true, input;
    }
    var hashed: Bytes, pos: nat, k: nat := [], 0, 0;
    while pos < size
      invariant pos <= size && pos <= |input| && hashed == input[..pos] && k <= |cuts|
      invariant (forall j :: 0 <= j < |cuts| ==> cuts[j] > 0) ==> k <= pos
      invariant guard.transfers == old(guard.transfers) && guard.uploadBytes == old(guard.uploadBytes) + size
      decreases |cuts| - k
    {
      if k == |cuts| || pos == |input| {
        guard.AppendTransfer(rec);
        return true, [];
      }
      var n := Least(cuts[k], Least(size - pos, |input| - pos));
      hashed := hashed + input[pos..pos + n];
      pos := pos + n;
      k := k + 1;
    }
    if pos == |input| || input[pos] != 0 {
      guard.AppendTransfer(rec);
      return true, [];
    }
    guard.AppendTransfer(rec.(hashed := Some(hashed)));
    return false, input[pos + 1..];
  }

  function Least(a: nat, b: nat): nat {
    if a < b then a else b
  }
}
