// The per-session filesystem of internal/shell/vfs.go, fileops.go and fs.go as
// one value: an overlay with tombstones, and extra directory entries, over a
// base tree that is shared between sessions. `Look` is what a path resolves to.
//
// A path is the sequence of its components; `/` is the empty sequence.

module OverlayTree {
  import opened Wrappers

  type Name = string
  type Path = seq<Name>

  datatype Node = Node(
    path: Path, dir: bool, mode: string, hidden: bool,
    content: string, size: int,
    children: seq<Name>, conditional: seq<Name>)

  datatype Disk = Disk(
    base: map<Path, Node>, writable: Option<seq<Path>>,
    overlay: map<Path, Option<Node>>, names: map<Path, seq<Name>>)

  function Parent(p: Path): Path {
    if p == [] then [] else p[..|p| - 1]
  }

  function Last(p: Path): Name
    requires p != []
  {
    p[|p| - 1]
  }

  /** A path in the overlay shadows the base, a tombstone (`None`) included. */
  function Look(d: Disk, p: Path): Option<Node> {
    if p in d.overlay then d.overlay[p] else if p in d.base then Some(d.base[p]) else None
  }

  predicate Live(d: Disk, p: Path) {
    Look(d, p).Some?
  }

  predicate LiveDir(d: Disk, p: Path) {
    Look(d, p).Some? && Look(d, p).value.dir
  }

  /** What the file-transfer side sees: hidden bait does not exist for it. */
  function Visible(d: Disk, p: Path): Option<Node> {
    var n := Look(d, p);
    if n.Some? && n.value.hidden then None else n
  }

  predicate Device(n: Option<Node>) {
    n.Some? && n.value.mode != "" && n.value.mode[0] == 'c'
  }

  predicate ReadOnly(d: Disk, p: Path) {
    d.writable.Some? && forall w :: w in d.writable.value ==> !(w <= p)
  }

  function Extra(d: Disk, p: Path): seq<Name> {
    if p in d.names then d.names[p] else []
  }

  /** The names that a listing of the directory `n` at `p` goes through, in order. */
  function Listing(d: Disk, p: Path, n: Node): seq<Name> {
    n.children + Extra(d, p)
  }

  /** The parent of `p` is there and names it. */
  predicate Listed(d: Disk, p: Path) {
    p != [] && Look(d, Parent(p)).Some? && Last(p) in Listing(d, Parent(p), Look(d, Parent(p)).value)
  }

  /** The parent of `p` names it, but only for one action of the deception policy. */
  predicate Conditional(d: Disk, p: Path) {
    p != [] && Look(d, Parent(p)).Some? && Last(p) in Look(d, Parent(p)).value.conditional
  }

  /** What a live node other than `/` needs: a live directory that names it. */
  predicate Homed(d: Disk, p: Path) {
    && Look(d, p).Some?
    && Look(d, p).value.path == p
    && (Look(d, p).value.hidden ==> !Look(d, p).value.dir)
    && (!Look(d, p).value.dir ==> Look(d, p).value.children == [] && Look(d, p).value.conditional == [])
    && (p != [] ==> LiveDir(d, Parent(p)) && (Listed(d, p) || Conditional(d, p)))
  }

  /** The overlay looks like one ordinary tree. */
  ghost predicate Sound(d: Disk) {
    && LiveDir(d, [])
    && forall p :: Live(d, p) ==> Homed(d, p)
  }

  predicate SameBase(d: Disk, e: Disk) {
    e.base == d.base && e.writable == d.writable
  }

  // ----- the primitive changes -----

  function AddChild(d: Disk, parent: Path, name: Name): (e: Disk)
    ensures SameBase(d, e) && e.overlay == d.overlay
  {
    if Live(d, parent) && name in Look(d, parent).value.children then d
    else if name in Extra(d, parent) then d
    else d.(names := d.names[parent := Extra(d, parent) + [name]])
  }

  function Put(d: Disk, p: Path, n: Node): Disk {
    d.(overlay := d.overlay[p := Some(n)])
  }

  /** A new or replaced entry: the node, then its name in its parent. */
  function Place(d: Disk, p: Path, n: Node): (e: Disk)
    requires p != []
    ensures SameBase(d, e)
  {
    AddChild(Put(d, p, n), Parent(p), Last(p))
  }

  /** `remove` compares with the text of `p` and a slash, and nothing starts with `//`. */
  predicate Covers(p: Path, q: Path) {
    if p == [] then q == [] else p <= q
  }

  function Removed(d: Disk, p: Path): (e: Disk)
    ensures SameBase(d, e)
  {
    d.(overlay := map q | q in d.overlay.Keys + d.base.Keys + {p} && (q in d.overlay || Covers(p, q)) ::
      if Covers(p, q) then None else d.overlay[q])
  }

  function NewFile(p: Path, content: string): Node {
    Node(p, false, "-rw-r--r--", false, content, 0, [], [])
  }

  function NewDir(p: Path): Node {
    Node(p, true, "drwxr-xr-x", false, "", 0, [], [])
  }

  // ----- what they do to the tree -----

  lemma {:induction false} PlaceLook(d: Disk, p: Path, n: Node)
    requires p != []
    ensures forall q :: Look(Place(d, p, n), q) == if q == p then Some(n) else Look(d, q)
    ensures forall q, x :: x in Extra(d, q) ==> x in Extra(Place(d, p, n), q)
    ensures forall q, x :: x in Extra(Place(d, p, n), q) ==> x in Extra(d, q) || q + [x] == p
    ensures Live(d, Parent(p)) ==> Listed(Place(d, p, n), p)
    ensures !Live(d, Parent(p)) ==> Last(p) in Extra(Place(d, p, n), Parent(p))
  {
    var e := Put(d, p, n);
    var f := Place(d, p, n);
    assert Parent(p) + [Last(p)] == p;
    assert Parent(p) != p by { assert |Parent(p)| < |p|; }
    assert Look(e, Parent(p)) == Look(d, Parent(p));
  }

  lemma {:induction false} RemovedLook(d: Disk, p: Path)
    ensures forall q :: Look(Removed(d, p), q) == if Covers(p, q) then None else Look(d, q)
  {
  }

  lemma {:induction false} NothingBelow(d: Disk, p: Path, q: Path)
    requires Sound(d) && !LiveDir(d, p) && p < q
    ensures !Live(d, q)
    decreases |q|
  {
    if Live(d, q) {
      assert Homed(d, q);
      if Parent(q) != p {
        assert p < Parent(q);
        NothingBelow(d, p, Parent(q));
      }
    }
  }

  lemma {:induction false} ReplaceKeepsSound(d: Disk, p: Path, n: Node)
    requires Sound(d) && p != []
    requires LiveDir(d, Parent(p)) && !LiveDir(d, p)
    requires n.path == p && (n.hidden ==> !n.dir) && (!n.dir ==> n.children == [] && n.conditional == [])
    ensures Sound(Place(d, p, n))
  {
    var f := Place(d, p, n);
    PlaceLook(d, p, n);
    forall q | Live(f, q)
      ensures Homed(f, q)
    {
      if q != p {
        assert Live(d, q) && Homed(d, q);
      }
    }
  }

  lemma {:induction false} RemoveKeepsSound(d: Disk, p: Path)
    requires Sound(d)
    ensures Sound(Removed(d, p)) <==> p != []
  {
    var f := Removed(d, p);
    RemovedLook(d, p);
    if p != [] {
      assert LiveDir(f, []);
      forall q | Live(f, q)
        ensures Homed(f, q)
      {
        assert Live(d, q) && Homed(d, q);
        assert q != [] ==> Parent(q) <= q;
      }
    } else {
      assert !LiveDir(f, []);
    }
  }

  /** Copy on write: a live node's own copy keeps its kind, its path and its entries. */
  lemma {:induction false} MutateKeepsSound(d: Disk, p: Path, n: Node)
    requires Sound(d) && Live(d, p)
    requires var o := Look(d, p).value; n == o.(mode := n.mode, content := n.content, size := n.size)
    ensures Sound(Put(d, p, n))
  {
    var f := Put(d, p, n);
    assert Homed(d, p);
    forall q | Live(f, q)
      ensures Homed(f, q)
    {
      assert Homed(d, q);
      if q != [] {
        var r := Parent(q);
        assert Look(f, r) == if r == p then Some(n) else Look(d, r);
        assert Extra(f, r) == Extra(d, r);
      }
    }
  }
}
