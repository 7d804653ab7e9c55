// What every operation on the session's filesystem does to the tree, and what
// all of them keep: internal/shell/fs.go (writeFile), vfs.go (CreateFile,
// SetSize, Mkdir, Remove, Rename) and fileops.go (mkdir, rm, cp, mv).

module OverlaySteps {
  import opened Wrappers
  import opened OverlayTree
  import opened OverlayRename

  /** Redirects and `touch`: exit status 1 and no change when the file cannot be written. */
  function Written(d: Disk, p: Path, content: string, append: bool): (r: (Disk, int))
    ensures SameBase(d, r.0)
    ensures r.1 == 0 ==> Live(r.0, p)
  {
    if Device(Look(d, p)) then (d, 0)
    else if !LiveDir(d, Parent(p)) || ReadOnly(d, p) || LiveDir(d, p) then (d, 1)
    else
      var kept := if append && Live(d, p) then Look(d, p).value.content else "";
      var n := NewFile(p, kept + content);
      PlaceLook(d, p, n);
      (Place(d, p, n), 0)
  }

  function Created(d: Disk, p: Path, truncate: bool): (r: (Disk, Status))
    ensures SameBase(d, r.0)
  {
    var n := Visible(d, p);
    if n.Some? then
      if n.value.dir then (d, Invalid)
      else if ReadOnly(d, p) then (d, ReadOnlyTree)
      else (if truncate then Put(d, p, n.value.(content := "", size := 0)) else d, Done)
    else if CreateStatus(d, p) != Done then (d, CreateStatus(d, p))
    else (Place(d, p, NewFile(p, "")), Done)
  }

  function Resized(d: Disk, p: Path, size: int): (e: Disk)
    ensures SameBase(d, e)
  {
    var n := Visible(d, p);
    if n.None? || n.value.dir then d else Put(d, p, n.value.(content := "", size := size))
  }

  function DirMade(d: Disk, p: Path): (r: (Disk, Status))
    ensures SameBase(d, r.0)
  {
    if Visible(d, p).Some? then (d, Exists)
    else if CreateStatus(d, p) != Done then (d, CreateStatus(d, p))
    else (Place(d, p, NewDir(p)), Done)
  }

  /** Something is there on the way from `/` to `p`. */
  predicate Anchored(d: Disk, p: Path) {
    exists j :: 0 <= j <= |p| && Live(d, p[..j])
  }

  lemma {:induction false} ParentAnchored(d: Disk, p: Path)
    ensures Anchored(d, p) <==> Live(d, p) || (p != [] && Anchored(d, Parent(p)))
  {
    assert p[..|p|] == p;
    assert p != [] ==> forall j :: 0 <= j < |p| ==> Parent(p)[..j] == p[..j];
    if j :| 0 <= j <= |p| && Live(d, p[..j]) {
      assert j < |p| ==> Live(d, Parent(p)[..j]);
    }
    if p != [] && Anchored(d, Parent(p)) {
      var j :| 0 <= j <= |Parent(p)| && Live(d, Parent(p)[..j]);
      assert Live(d, p[..j]);
    }
  }

  lemma {:induction false} RootAnchors(d: Disk, p: Path)
    requires Live(d, [])
    ensures Anchored(d, p)
  {
    assert p[..0] == [];
  }

  /** The n-th step of the walk up from `p`: `path.Dir` of the root is the root. */
  function Climbed(p: Path, n: nat): Path {
    if n == 0 then p else Climbed(Parent(p), n - 1)
  }

  predicate Reaches(d: Disk, p: Path, n: nat) {
    Live(d, Climbed(p, n))
  }

  /** The walk up from `p` reaches something that is there exactly when something is there on the way to `p`. */
  lemma {:induction false} WalkEnds(d: Disk, p: Path)
    ensures (exists n: nat :: Reaches(d, p, n)) <==> Anchored(d, p)
  {
    if Anchored(d, p) {
      var n := ClimbEnds(d, p);
      assert Reaches(d, p, n);
    } else {
      forall n: nat ensures !Reaches(d, p, n) {
        if Reaches(d, p, n) {
          ClimbIsAnchored(d, p, n);
        }
      }
    }
  }

  lemma {:induction false} ClimbIsAnchored(d: Disk, p: Path, n: nat)
    requires Reaches(d, p, n)
    ensures Anchored(d, p)
    decreases n
  {
    ParentAnchored(d, p);
    if n > 0 {
      ClimbIsAnchored(d, Parent(p), n - 1);
      if p == [] {
        assert Parent(p) == p;
      }
    }
  }

  lemma {:induction false} ClimbEnds(d: Disk, p: Path) returns (n: nat)
    requires Anchored(d, p)
    ensures Reaches(d, p, n)
    decreases |p|
  {
    ParentAnchored(d, p);
    if Live(d, p) {
      n := 0;
    } else {
      n := ClimbEnds(d, Parent(p));
      n := n + 1;
      assert Climbed(p, n) == Climbed(Parent(p), n - 1);
    }
  }

  /**
   After `rm -r /` the walk of `mkdir p` ends exactly if something below the
   root was there on the way to `p`; for any other `p` it never does.
   */
  lemma {:induction false} WalkAfterRmRoot(d: Disk, p: Path)
    ensures (exists n: nat :: Reaches(Removed(d, []), p, n)) <==> exists j :: 0 < j <= |p| && Live(d, p[..j])
  {
    var e := Removed(d, []);
    RemovedLook(d, []);
    WalkEnds(e, p);
    assert forall j :: 0 <= j <= |p| ==> (p[..j] == [] <==> j == 0);
    assert forall j :: 0 <= j <= |p| ==> (Live(e, p[..j]) <==> j > 0 && Live(d, p[..j]));
  }

  /** The nearest ancestor of `p`, itself included, that is there. */
  function Anchor(d: Disk, p: Path): (a: Path)
    requires Anchored(d, p)
    ensures Live(d, a) && a <= p
    ensures forall j :: |a| < j <= |p| ==> !Live(d, p[..j])
    decreases |p|
  {
    if Live(d, p) then p
    else
      ParentAnchored(d, p);
      assert forall j :: 0 <= j < |p| ==> Parent(p)[..j] == p[..j];
      assert p[..|p|] == p;
      Anchor(d, Parent(p))
  }

  /** One after another, the directories of more than `a` and at most `k` components on the way to `p`. */
  function DirsMade(d: Disk, p: Path, a: nat, k: nat): (e: Disk)
    requires a <= k <= |p|
    ensures SameBase(d, e)
    decreases k
  {
    if k == a then d else Place(DirsMade(d, p, a, k - 1), p[..k], NewDir(p[..k]))
  }

  /** `mkdir` and `mkdir -p` of one operand; false is an error message. */
  function MkdirDone(d: Disk, p: Path, parents: bool): (r: (Disk, bool))
    requires Anchored(d, p)
    ensures SameBase(d, r.0)
  {
    if Live(d, p) then (d, parents && LiveDir(d, p))
    else
      var a := Anchor(d, p);
      if !LiveDir(d, a) || (|p| > |a| + 1 && !parents) || ReadOnly(d, p[..|a| + 1]) then (d, false)
      else (DirsMade(d, p, |a|, |p|), true)
  }

  /** The names a listing of `p` shows, in order. */
  function Entries(d: Disk, p: Path, names: seq<Name>): seq<Name> {
    if names == [] then []
    else
      var first := if Visible(d, p + [names[0]]).Some? then [names[0]] else [];
      first + Entries(d, p, names[1..])
  }

  function Unlinked(d: Disk, p: Path, dir: bool): (r: (Disk, Status))
    ensures SameBase(d, r.0)
  {
    var n := Visible(d, p);
    if n.None? then (d, NotExist)
    else if p == [] || ReadOnly(d, p) then (d, ReadOnlyTree)
    else if dir != n.value.dir then (d, Invalid)
    else if dir && Entries(d, p, Listing(d, p, n.value)) != [] then (d, Exists)
    else (Removed(d, p), Done)
  }

  /** `rm` of one operand; false is an error message. */
  function RmDone(d: Disk, p: Path, recursive: bool, force: bool): (r: (Disk, bool))
    ensures SameBase(d, r.0)
  {
    if !Live(d, p) then (d, force)
    else if LiveDir(d, p) && !recursive then (d, false)
    else if ReadOnly(d, p) then (d, false)
    else (Removed(d, p), true)
  }

  /** Where a copy of `src` ends up when the operand is `dst`. */
  function CopyTarget(d: Disk, src: Path, dst: Path): Path {
    if LiveDir(d, dst) then dst + (if src == [] then [] else [Last(src)]) else dst
  }

  /** `cp` and `mv` of a file (`mv` and `cp -r` leave a directory as it is, silently); false is an error message. */
  function Copied(d: Disk, src: Path, dst: Path, move: bool, recursive: bool): (r: (Disk, bool))
    ensures SameBase(d, r.0)
  {
    if !Live(d, src) then (d, false)
    else if LiveDir(d, src) then (d, move || recursive)
    else
      var n, to := Look(d, src).value, CopyTarget(d, src, dst);
      if ReadOnly(d, to) || (move && ReadOnly(d, src)) then (d, false)
      else
        var (e, code) := Written(d, to, n.content, false);
        if code != 0 then (d, false)
        else
          var f := Put(e, to, Look(e, to).value.(mode := n.mode));
          (if move then Removed(f, src) else f, true)
  }

  // ----- every operation keeps the tree sound -----

  lemma {:induction false} WrittenKeepsSound(d: Disk, p: Path, content: string, append: bool)
    requires Sound(d)
    ensures Sound(Written(d, p, content, append).0)
  {
    var (e, code) := Written(d, p, content, append);
    if e != d {
      var kept := if append && Live(d, p) then Look(d, p).value.content else "";
      ReplaceKeepsSound(d, p, NewFile(p, kept + content));
    }
  }

  lemma {:induction false} CreatedKeepsSound(d: Disk, p: Path, truncate: bool)
    requires Sound(d)
    ensures Sound(Created(d, p, truncate).0)
  {
    var n := Visible(d, p);
    if n.Some? {
      MutateKeepsSound(d, p, n.value.(content := "", size := 0));
    } else if CreateStatus(d, p).Done? {
      assert Live(d, p) ==> Homed(d, p);
      ReplaceKeepsSound(d, p, NewFile(p, ""));
    }
  }

  lemma {:induction false} ResizedKeepsSound(d: Disk, p: Path, size: int)
    requires Sound(d)
    ensures Sound(Resized(d, p, size))
  {
    var n := Visible(d, p);
    if n.Some? {
      MutateKeepsSound(d, p, n.value.(content := "", size := size));
    }
  }

  lemma {:induction false} DirMadeKeepsSound(d: Disk, p: Path)
    requires Sound(d)
    ensures Sound(DirMade(d, p).0)
  {
    if Visible(d, p).None? && CreateStatus(d, p).Done? {
      assert Live(d, p) ==> Homed(d, p);
      ReplaceKeepsSound(d, p, NewDir(p));
    }
  }

  lemma {:induction false} DirsMadeKeepsSound(d: Disk, p: Path, a: nat, k: nat)
    requires Sound(d) && a <= k <= |p| && LiveDir(d, p[..a])
    requires forall j :: a < j <= |p| ==> !Live(d, p[..j])
    ensures var e := DirsMade(d, p, a, k);
            Sound(e) && LiveDir(e, p[..k]) && forall j :: k < j <= |p| ==> !Live(e, p[..j])
    decreases k
  {
    if k > a {
      DirsMadeKeepsSound(d, p, a, k - 1);
      var q, e := p[..k], DirsMade(d, p, a, k - 1);
      assert Parent(q) == p[..k - 1];
      ReplaceKeepsSound(e, q, NewDir(q));
      PlaceLook(e, q, NewDir(q));
      assert forall j :: k < j <= |p| ==> p[..j] != q;
    }
  }

  lemma {:induction false} MkdirKeepsSound(d: Disk, p: Path, parents: bool)
    requires Sound(d) && Anchored(d, p)
    ensures var (e, ok) := MkdirDone(d, p, parents);
            Sound(e) && (ok ==> LiveDir(e, p)) && (!ok ==> e == d)
  {
    var a := Anchor(d, p);
    assert p[..|a|] == a;
    if !Live(d, p) && LiveDir(d, a) {
      DirsMadeKeepsSound(d, p, |a|, |p|);
      assert p[..|p|] == p;
    }
  }

  lemma {:induction false} UnlinkedKeepsSound(d: Disk, p: Path, dir: bool)
    requires Sound(d)
    ensures Sound(Unlinked(d, p, dir).0)
  {
    if Unlinked(d, p, dir).0 != d {
      RemoveKeepsSound(d, p);
    }
  }

  /** `rm -r /` takes away the root and leaves everything below it: the one operation that breaks the tree. */
  lemma {:induction false} RmKeepsSound(d: Disk, p: Path, recursive: bool, force: bool)
    requires Sound(d)
    ensures Sound(RmDone(d, p, recursive, force).0) <==> !(p == [] && recursive && !ReadOnly(d, []))
  {
    RemoveKeepsSound(d, p);
  }

  lemma {:induction false} CopiedKeepsSound(d: Disk, src: Path, dst: Path, move: bool, recursive: bool)
    requires Sound(d)
    ensures Sound(Copied(d, src, dst, move, recursive).0)
  {
    var (r, ok) := Copied(d, src, dst, move, recursive);
    if r != d {
      var n, to := Look(d, src).value, CopyTarget(d, src, dst);
      var (e, code) := Written(d, to, n.content, false);
      WrittenKeepsSound(d, to, n.content, false);
      MutateKeepsSound(e, to, Look(e, to).value.(mode := n.mode));
      assert src != [];
      RemoveKeepsSound(Put(e, to, Look(e, to).value.(mode := n.mode)), src);
    }
  }

  // ----- runs -----

  datatype Op =
    | Write(path: Path, content: string, append: bool)
    | Create(path: Path, truncate: bool)
    | Resize(path: Path, size: int)
    | MakeDir(path: Path)
    | Mkdir(path: Path, parents: bool)
    | Unlink(path: Path, dir: bool)
    | Rm(path: Path, recursive: bool, force: bool)
    | Copy(path: Path, to: Path, move: bool, recursive: bool)
    | Move(path: Path, to: Path, order: seq<Path>)

  /** An operation on a sound tree; the order of a move must be one that its collection can have. */
  ghost function Next(d: Disk, op: Op): (e: Disk)
    requires Sound(d)
    ensures SameBase(d, e)
  {
    match op
    case Write(p, content, append) => Written(d, p, content, append).0
    case Create(p, truncate) => Created(d, p, truncate).0
    case Resize(p, size) => Resized(d, p, size)
    case MakeDir(p) => DirMade(d, p).0
    case Mkdir(p, parents) =>
      RootAnchors(d, p);
      MkdirDone(d, p, parents).0
    case Unlink(p, dir) => Unlinked(d, p, dir).0
    case Rm(p, recursive, force) => RmDone(d, p, recursive, force).0
    case Copy(p, to, move, recursive) => Copied(d, p, to, move, recursive).0
    case Move(p, to, order) =>
      if Renames(d, p, to, order) then
        (RenameTarget(d, p, to, order); Renamed(d, p, to, order))
      else d
  }

  predicate RemovesRoot(d: Disk, op: Op) {
    op.Rm? && op.path == [] && op.recursive && !ReadOnly(d, [])
  }

  lemma {:induction false} NextKeepsSound(d: Disk, op: Op)
    requires Sound(d)
    ensures Sound(Next(d, op)) <==> !RemovesRoot(d, op)
  {
    match op
    case Write(p, content, append) => WrittenKeepsSound(d, p, content, append);
    case Create(p, truncate) => CreatedKeepsSound(d, p, truncate);
    case Resize(p, size) => ResizedKeepsSound(d, p, size);
    case MakeDir(p) => DirMadeKeepsSound(d, p);
    case Mkdir(p, parents) =>
      RootAnchors(d, p);
      MkdirKeepsSound(d, p, parents);
    case Unlink(p, dir) => UnlinkedKeepsSound(d, p, dir);
    case Rm(p, recursive, force) => RmKeepsSound(d, p, recursive, force);
    case Copy(p, to, move, recursive) => CopiedKeepsSound(d, p, to, move, recursive);
    case Move(p, to, order) => MoveKeepsSound(d, p, to, order);
  }

  lemma {:induction false} MoveKeepsSound(d: Disk, src: Path, dst: Path, order: seq<Path>)
    requires Sound(d)
    ensures Sound(Next(d, Move(src, dst, order)))
  {
    if Renames(d, src, dst, order) {
      RenameTarget(d, src, dst, order);
      RenameKeepsSound(d, src, dst, order);
    }
  }

  /** A run that never removes `/`. */
  ghost predicate Runs(d: Disk, ops: seq<Op>)
    requires Sound(d)
    decreases |ops|
  {
    ops != [] ==>
      && !RemovesRoot(d, ops[0])
      && (NextKeepsSound(d, ops[0]); Runs(Next(d, ops[0]), ops[1..]))
  }

  ghost function Run(d: Disk, ops: seq<Op>): Disk
    requires Sound(d) && Runs(d, ops)
    decreases |ops|
  {
    if ops == [] then d
    else
      NextKeepsSound(d, ops[0]);
      Run(Next(d, ops[0]), ops[1..])
  }

  /**
   In every reachable state each live path other than `/` has a live
   directory above it that names it, and the shared base is what it was.
   */
  lemma {:induction false} RunKeepsSound(d: Disk, ops: seq<Op>)
    requires Sound(d) && Runs(d, ops)
    ensures Sound(Run(d, ops)) && Run(d, ops).base == d.base
    decreases |ops|
  {
    if ops != [] {
      NextKeepsSound(d, ops[0]);
      RunKeepsSound(Next(d, ops[0]), ops[1..]);
    }
  }

  /**
   Walking the listings down from `/` reaches exactly the live paths that no
   step of the way leads to only conditionally.
   */
  lemma {:induction false} ListingReaches(d: Disk, p: Path)
    requires Sound(d) && p != []
    ensures Found(d, [], p) <==> Live(d, p) && forall j :: 0 < j <= |p| ==> Listed(d, p[..j])
    decreases |p|
  {
    assert p[..|p|] == p;
    assert forall j :: 0 <= j < |p| ==> Parent(p)[..j] == p[..j];
    if Live(d, p) {
      assert Homed(d, p);
      if Parent(p) != [] {
        ListingReaches(d, Parent(p));
      }
    } else if Found(d, [], p) {
      FoundIsBelow(d, [], p);
    }
  }

  // ----- what a listing shows, and what an empty one hides -----

  lemma {:induction false} EntriesShow(d: Disk, p: Path, names: seq<Name>, x: Name)
    ensures x in Entries(d, p, names) <==> x in names && Visible(d, p + [x]).Some?
    decreases |names|
  {
    if names != [] {
      EntriesShow(d, p, names[1..], x);
      assert names == [names[0]] + names[1..];
    }
  }

  /** `rmdir` takes with it only hidden bait and what no plain listing led to. */
  lemma {:induction false} UnlinkRemovesOnlyUnseen(d: Disk, p: Path, q: Path)
    requires Sound(d) && Unlinked(d, p, true).1.Done?
    requires p < q && Live(d, q)
    ensures !Live(Unlinked(d, p, true).0, q)
    ensures !Listed(d, q[..|p| + 1]) || (|q| == |p| + 1 && Look(d, q).value.hidden)
  {
    var c := q[..|p| + 1];
    RemovedLook(d, p);
    if Listed(d, c) {
      EmptyMeansHidden(d, p, c);
      if |q| == |p| + 1 {
        assert c == q;
      } else {
        assert c < q;
        NothingBelow(d, c, q);
      }
    }
  }

  /** An entry of a directory that lists nothing is not there, or hidden bait. */
  lemma {:induction false} EmptyMeansHidden(d: Disk, p: Path, c: Path)
    requires Sound(d) && Unlinked(d, p, true).1.Done?
    requires c != [] && Parent(c) == p && Listed(d, c)
    ensures !LiveDir(d, c) && (Live(d, c) ==> Look(d, c).value.hidden)
  {
    var names := Listing(d, p, Visible(d, p).value);
    assert c == p + [Last(c)];
    EntriesShow(d, p, names, Last(c));
    if Live(d, c) {
      assert Homed(d, c);
    }
  }

  /** `mv` of a file: what every path holds afterwards. */
  lemma {:induction false} MoveFile(d: Disk, src: Path, dst: Path, q: Path)
    requires Sound(d) && Live(d, src) && !LiveDir(d, src) && Copied(d, src, dst, true, false).1
    ensures var n, to := Look(d, src).value, CopyTarget(d, src, dst);
            Look(Copied(d, src, dst, true, false).0, q) ==
            if q == src then None
            else if q != to then Look(d, q)
            else if Device(Look(d, to)) then Some(Look(d, to).value.(mode := n.mode))
            else Some(NewFile(to, n.content).(mode := n.mode))
  {
    var n, to := Look(d, src).value, CopyTarget(d, src, dst);
    var (e, code) := Written(d, to, n.content, false);
    var f := Put(e, to, Look(e, to).value.(mode := n.mode));
    RemovedLook(f, src);
    WrittenLook(d, to, n.content, q);
    if src < q {
      NothingBelow(d, src, q);
    }
    if src < to {
      NothingBelow(d, src, to);
      ParentBelow(src, to);
      if src != Parent(to) {
        NothingBelow(d, src, Parent(to));
      }
    }
  }

  lemma {:induction false} ParentBelow(p: Path, q: Path)
    requires p < q
    ensures p <= Parent(q)
  {
  }

  lemma {:induction false} WrittenLook(d: Disk, p: Path, content: string, q: Path)
    requires Written(d, p, content, false).1 == 0
    ensures Look(Written(d, p, content, false).0, q) ==
            if q == p && !Device(Look(d, p)) then Some(NewFile(p, content)) else Look(d, q)
    ensures Device(Look(d, p)) || LiveDir(d, Parent(p))
  {
    if !Device(Look(d, p)) {
      assert "" + content == content;
      PlaceLook(d, p, NewFile(p, content));
    }
  }

  /** What was moved is at its target exactly when the target is another path and no device swallowed it. */
  lemma {:induction false} MoveKeepsContent(d: Disk, src: Path, dst: Path)
    requires Sound(d) && Live(d, src) && !LiveDir(d, src) && Copied(d, src, dst, true, false).1
    ensures var to, moved := CopyTarget(d, src, dst), Copied(d, src, dst, true, false).0;
            var content := Look(d, src).value.content;
            Live(moved, to) && Look(moved, to).value.content == content <==>
            to != src && (Device(Look(d, to)) ==> Look(d, to).value.content == content)
  {
    MoveFile(d, src, dst, CopyTarget(d, src, dst));
  }

  /** `mv /d/f /d/f` and `mv /d/f /d` both lose the file: `mv` does not compare its operands. */
  lemma {:induction false} MoveOntoItselfLoses(d: Disk, p: Path, dst: Path)
    requires Sound(d) && Live(d, p) && !LiveDir(d, p) && p != []
    requires (dst == p || (dst == Parent(p) && LiveDir(d, dst))) && Copied(d, p, dst, true, false).1
    ensures !Live(Copied(d, p, dst, true, false).0, p)
  {
    assert Parent(p) + [Last(p)] == p;
    MoveFile(d, p, dst, p);
  }
}
