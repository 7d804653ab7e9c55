// What each operation on the session's filesystem leaves behind: when it
// succeeds, what every path resolves to afterwards, and what a directory lists.
// The terms are those of a reader of the tree: the node that a path resolves
// to, and the directories that a session may write to.

module OverlayEffects {
  import opened Wrappers
  import opened OverlayTree
  import opened OverlayRename
  import opened OverlaySteps

  // ----- the terms -----

  /** The session may write at `p`: everywhere, or at and below the paths the profile names. */
  ghost predicate MayWrite(d: Disk, p: Path) {
    d.writable == None || exists w, rest :: w in d.writable.value && p == w + rest
  }

  predicate IsDir(n: Option<Node>) {
    n != None && n.value.dir
  }

  predicate IsFile(n: Option<Node>) {
    n != None && !n.value.dir
  }

  /** There, and not bait that only the deception policy shows. */
  predicate Seen(n: Option<Node>) {
    n != None && !n.value.hidden
  }

  predicate Swallows(n: Option<Node>) {
    n != None && |n.value.mode| > 0 && n.value.mode[0] == 'c'
  }

  function FileNode(p: Path, mode: string, content: string): Option<Node> {
    Some(Node(p, false, mode, false, content, 0, [], []))
  }

  function DirNode(p: Path): Option<Node> {
    Some(Node(p, true, "drwxr-xr-x", false, "", 0, [], []))
  }

  function Above(p: Path): Path {
    if |p| == 0 then p else p[..|p| - 1]
  }

  lemma {:induction false} MayWriteIs(d: Disk, p: Path)
    ensures MayWrite(d, p) <==> !ReadOnly(d, p)
  {
    if d.writable.Some? {
      if w :| w in d.writable.value && w <= p {
        assert p == w + p[|w|..];
      }
    }
  }

  /** An overlay entry hides the base, and a tombstone hides it too. */
  lemma {:induction false} OverlayHidesBase(d: Disk, p: Path)
    ensures Look(d, p) == if p in d.overlay.Keys then d.overlay[p]
                          else if p !in d.base.Keys then None else Some(d.base[p])
  {
  }

  /** Only the one path changes. */
  ghost predicate OnlyAt(d: Disk, e: Disk, p: Path, n: Option<Node>) {
    forall q :: Look(e, q) == if q == p then n else Look(d, q)
  }

  // ----- redirects, touch and the file-transfer side -----

  /** `>` and `>>`: `>>` keeps what the file held and adds to its end. */
  lemma {:induction false} WriteEffect(d: Disk, p: Path, content: string, append: bool)
    ensures var (e, code) := Written(d, p, content, append);
            if Swallows(Look(d, p)) then e == d && code == 0
            else if !IsDir(Look(d, Above(p))) || !MayWrite(d, p) || IsDir(Look(d, p)) then e == d && code == 1
            else
              && code == 0 && Listed(e, p)
              && (append && IsFile(Look(d, p)) ==>
                    OnlyAt(d, e, p, FileNode(p, "-rw-r--r--", Look(d, p).value.content + content)))
              && (!append || Look(d, p) == None ==> OnlyAt(d, e, p, FileNode(p, "-rw-r--r--", content)))
  {
    MayWriteIs(d, p);
    var (e, code) := Written(d, p, content, append);
    if !Swallows(Look(d, p)) && code == 0 {
      var kept := if append && Live(d, p) then Look(d, p).value.content else "";
      PlaceLook(d, p, NewFile(p, kept + content));
      assert "" + content == content;
    }
  }

  /** A new file or directory of the file-transfer side needs a directory that it can see. */
  ghost predicate Refuses(d: Disk, p: Path, status: Status) {
    var above := Look(d, Above(p));
    if !Seen(above) || !IsDir(above) then status == NotExist else !MayWrite(d, p) && status == ReadOnlyTree
  }

  /** Opening for writing: a file that is there keeps its content unless it is truncated. */
  lemma {:induction false} CreateEffect(d: Disk, p: Path, truncate: bool)
    requires Sound(d)
    ensures var (e, status) := Created(d, p, truncate);
            if Seen(Look(d, p)) then
              var n := Look(d, p).value;
              if n.dir then e == d && status == Invalid
              else if !MayWrite(d, p) then e == d && status == ReadOnlyTree
              else
                && status == Done
                && if truncate then OnlyAt(d, e, p, Some(n.(content := "", size := 0))) else e == d
            else if status == Done then
              && IsDir(Look(d, Above(p))) && MayWrite(d, p) && Listed(e, p)
              && OnlyAt(d, e, p, FileNode(p, "-rw-r--r--", ""))
            else e == d && Refuses(d, p, status)
  {
    MayWriteIs(d, p);
    if Visible(d, p).None? && CreateStatus(d, p) == Done {
      assert Homed(d, []);
      PlaceLook(d, p, NewFile(p, ""));
    }
  }

  /** The size of an upload is kept, its content is not. */
  lemma {:induction false} ResizeEffect(d: Disk, p: Path, size: int)
    ensures var e := Resized(d, p, size);
            if Seen(Look(d, p)) && IsFile(Look(d, p))
            then OnlyAt(d, e, p, Some(Look(d, p).value.(content := "", size := size)))
            else e == d
  {
  }

  lemma {:induction false} MakeDirEffect(d: Disk, p: Path)
    requires Sound(d)
    ensures var (e, status) := DirMade(d, p);
            if Seen(Look(d, p)) then e == d && status == Exists
            else if status == Done then
              IsDir(Look(d, Above(p))) && MayWrite(d, p) && Listed(e, p) && OnlyAt(d, e, p, DirNode(p))
            else e == d && Refuses(d, p, status)
  {
    MayWriteIs(d, p);
    if Visible(d, p).None? && CreateStatus(d, p) == Done {
      assert Homed(d, []);
      PlaceLook(d, p, NewDir(p));
    }
  }

  /** Everything at and below `p` is gone, and nothing else; below `/` nothing is. */
  ghost predicate GoneAt(d: Disk, e: Disk, p: Path) {
    forall q :: Look(e, q) == if q == p || (p != [] && p < q) then None else Look(d, q)
  }

  lemma {:induction false} RemovedIsGone(d: Disk, p: Path)
    ensures GoneAt(d, Removed(d, p), p)
  {
    RemovedLook(d, p);
    forall q ensures Look(Removed(d, p), q) == if q == p || (p != [] && p < q) then None else Look(d, q) {
      if p <= q && |p| == |q| {
        assert p == q;
      }
    }
  }

  /** A file or an empty directory is removed; a directory is empty when a listing of it shows nothing. */
  lemma {:induction false} UnlinkEffect(d: Disk, p: Path, dir: bool)
    ensures var (e, status) := Unlinked(d, p, dir);
            var n := Look(d, p);
            if !Seen(n) then e == d && status == NotExist
            else if p == [] || !MayWrite(d, p) then e == d && status == ReadOnlyTree
            else if dir != n.value.dir then e == d && status == Invalid
            else if dir && (exists x :: x in Listing(d, p, n.value) && Seen(Look(d, p + [x]))) then
              e == d && status == Exists
            else status == Done && GoneAt(d, e, p)
  {
    MayWriteIs(d, p);
    RemovedIsGone(d, p);
    var n := Look(d, p);
    if Seen(n) {
      var names := Listing(d, p, n.value);
      forall x ensures x in Entries(d, p, names) <==> x in names && Seen(Look(d, p + [x])) {
        EntriesShow(d, p, names, x);
      }
      if Entries(d, p, names) != [] {
        assert Entries(d, p, names)[0] in Entries(d, p, names);
      }
    }
  }

  // ----- mkdir, rm, cp -----

  /** Directory k on the way to `p` is the last thing there that is not missing. */
  predicate Deepest(d: Disk, p: Path, k: nat) {
    k <= |p| && Look(d, p[..k]) != None && forall j :: k < j <= |p| ==> Look(d, p[..j]) == None
  }

  /** `mkdir` makes one missing directory, `mkdir -p` all of them, if the first may be written. */
  lemma {:induction false} MkdirEffect(d: Disk, p: Path, parents: bool, k: nat)
    requires Deepest(d, p, k)
    ensures Anchored(d, p)
    ensures var (e, ok) := MkdirDone(d, p, parents);
            if k == |p| then e == d && (ok <==> parents && IsDir(Look(d, p)))
            else if !IsDir(Look(d, p[..k])) || (k + 1 < |p| && !parents) || !MayWrite(d, p[..k + 1]) then
              e == d && !ok
            else ok && forall q :: Look(e, q) == if q <= p && k < |q| then DirNode(q) else Look(d, q)
  {
    assert Live(d, p[..k]);
    assert p[..|p|] == p;
    if k < |p| {
      var a := Anchor(d, p);
      assert p[..|a|] == a;
      assert |a| == k;
      MayWriteIs(d, p[..k + 1]);
      forall q ensures Look(DirsMade(d, p, k, |p|), q) == if q <= p && k < |q| then DirNode(q) else Look(d, q) {
        DirsMadeLook(d, p, k, |p|, q);
      }
    }
  }

  lemma {:induction false} DirsMadeLook(d: Disk, p: Path, a: nat, k: nat, q: Path)
    requires a <= k <= |p|
    ensures Look(DirsMade(d, p, a, k), q) == if q <= p && a < |q| <= k then DirNode(q) else Look(d, q)
    decreases k
  {
    if k > a {
      DirsMadeLook(d, p, a, k - 1, q);
      PlaceLook(DirsMade(d, p, a, k - 1), p[..k], NewDir(p[..k]));
      if q <= p && |q| == k {
        assert q == p[..k];
      }
    }
  }

  lemma {:induction false} RmEffect(d: Disk, p: Path, recursive: bool, force: bool)
    ensures var (e, ok) := RmDone(d, p, recursive, force);
            if Look(d, p) == None then e == d && ok == force
            else if (IsDir(Look(d, p)) && !recursive) || !MayWrite(d, p) then e == d && !ok
            else ok && GoneAt(d, e, p)
  {
    MayWriteIs(d, p);
    RemovedIsGone(d, p);
  }

  /** The target of a copy: a name in a directory that is there, or the path itself. */
  predicate IsTarget(d: Disk, src: Path, dst: Path, to: Path) {
    if !IsDir(Look(d, dst)) || src == [] then to == dst
    else |to| > 0 && Above(to) == dst && to[|to| - 1] == src[|src| - 1]
  }

  /** What a path holds after a file was copied to it; a device keeps its own content. */
  function CopyAt(d: Disk, src: Path, to: Path): Option<Node>
    requires IsFile(Look(d, src))
  {
    var n := Look(d, src).value;
    if Swallows(Look(d, to)) then Some(Look(d, to).value.(mode := n.mode)) else FileNode(to, n.mode, n.content)
  }

  /** `cp` of a file leaves its content and its mode at the target, and the source as it is. */
  lemma {:induction false} CopyEffect(d: Disk, src: Path, dst: Path, recursive: bool, to: Path)
    requires IsTarget(d, src, dst, to)
    ensures var (e, ok) := Copied(d, src, dst, false, recursive);
            if !IsFile(Look(d, src)) then e == d && ok == (IsDir(Look(d, src)) && recursive)
            else if !MayWrite(d, to) || (!Swallows(Look(d, to)) && (!IsDir(Look(d, Above(to))) || IsDir(Look(d, to))))
            then e == d && !ok
            else ok && OnlyAt(d, e, to, CopyAt(d, src, to))
  {
    TargetIs(d, src, dst, to);
    MayWriteIs(d, to);
    if IsFile(Look(d, src)) {
      WriteEffect(d, to, Look(d, src).value.content, false);
    }
  }

  lemma {:induction false} TargetIs(d: Disk, src: Path, dst: Path, to: Path)
    ensures IsTarget(d, src, dst, to) <==> CopyTarget(d, src, dst) == to
  {
    if IsTarget(d, src, dst, to) && IsDir(Look(d, dst)) && src != [] {
      assert to == Above(to) + [to[|to| - 1]];
    }
  }

  ghost predicate MovedOver(d: Disk, e: Disk, src: Path, to: Path)
    requires IsFile(Look(d, src))
  {
    forall q :: Look(e, q) == if q == src then None else if q == to then CopyAt(d, src, to) else Look(d, q)
  }

  /** `mv` of a file is the copy without the source; a failure changes nothing. */
  lemma {:induction false} MoveEffect(d: Disk, src: Path, dst: Path, to: Path)
    requires Sound(d) && IsTarget(d, src, dst, to)
    ensures var (e, ok) := Copied(d, src, dst, true, false);
            if !IsFile(Look(d, src)) then e == d && ok == IsDir(Look(d, src))
            else if !MayWrite(d, to) || !MayWrite(d, src)
                    || (!Swallows(Look(d, to)) && (!IsDir(Look(d, Above(to))) || IsDir(Look(d, to))))
            then e == d && !ok
            else ok && MovedOver(d, e, src, to)
  {
    TargetIs(d, src, dst, to);
    MayWriteIs(d, to);
    MayWriteIs(d, src);
    if IsFile(Look(d, src)) {
      WriteEffect(d, to, Look(d, src).value.content, false);
      if Copied(d, src, dst, true, false).1 {
        forall q ensures Look(Copied(d, src, dst, true, false).0, q) ==
                         if q == src then None else if q == to then CopyAt(d, src, to) else Look(d, q)
        {
          MoveFile(d, src, dst, q);
        }
      }
    }
  }

  /** When the file-transfer side's rename is refused, and why. */
  lemma {:induction false} RenameRefusals(d: Disk, src: Path, dst: Path)
    ensures var status := RenameStatus(d, src, dst);
            if !Seen(Look(d, src)) then status == NotExist
            else if dst == src then status == Done
            else if src == [] || (|src| < |dst| && dst[..|src|] == src) then status == Invalid
            else if Seen(Look(d, dst)) && IsDir(Look(d, dst)) then status == Exists
            else if !Seen(Look(d, Above(dst))) || !IsDir(Look(d, Above(dst))) then status == NotExist
            else if !MayWrite(d, dst) || !MayWrite(d, src) then status == ReadOnlyTree
            else status == Done
  {
    MayWriteIs(d, src);
    MayWriteIs(d, dst);
    assert src < dst <==> |src| < |dst| && dst[..|src|] == src;
  }

  // ----- listings -----

  /** A listing shows the entries that can be seen, in the order of their names. */
  lemma {:induction false} ListingInOrder(d: Disk, p: Path, names: seq<Name>, x: Name)
    ensures Entries(d, p, names + [x]) ==
            if Seen(Look(d, p + [x])) then Entries(d, p, names) + [x] else Entries(d, p, names)
    ensures Entries(d, p, []) == []
    decreases |names|
  {
    if names == [] {
      assert [] + [x] == [x];
    } else {
      assert (names + [x])[1..] == names[1..] + [x];
      ListingInOrder(d, p, names[1..], x);
    }
  }

  /** A new name comes last among the names of its directory; no other directory gets one. */
  lemma {:induction false} NewNameIsLast(d: Disk, p: Path, n: Node, r: Path)
    requires p != [] && Live(d, Above(p)) && Live(d, r) && r != p
    ensures var e := Place(d, p, n);
            var before := Listing(d, r, Look(d, r).value);
            && Live(e, r)
            && Listing(e, r, Look(e, r).value) ==
               if r == Above(p) && Last(p) !in before then before + [Last(p)] else before
  {
    assert Above(p) != p by { assert |Above(p)| < |p|; }
    var f := Put(d, p, n);
    assert Look(f, Parent(p)) == Look(d, Parent(p)) && Extra(f, Parent(p)) == Extra(d, Parent(p));
    NameAdded(f, Parent(p), Last(p), r);
  }

  lemma {:induction false} NameAdded(d: Disk, parent: Path, name: Name, r: Path)
    requires Live(d, parent) && Live(d, r)
    ensures var e := AddChild(d, parent, name);
            var before := Listing(d, r, Look(d, r).value);
            && Look(e, r) == Look(d, r)
            && Listing(e, r, Look(e, r).value) ==
               if r == parent && name !in before then before + [name] else before
  {
    var e := AddChild(d, parent, name);
    var children := Look(d, r).value.children;
    if r == parent && name !in Listing(d, r, Look(d, r).value) {
      assert Extra(e, r) == Extra(d, r) + [name];
      assert children + (Extra(d, r) + [name]) == children + Extra(d, r) + [name];
    } else {
      assert Extra(e, r) == Extra(d, r);
    }
  }
}
