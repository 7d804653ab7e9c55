// Moving a subtree of the overlay (`Rename` and `collect` of
// internal/shell/vfs.go): what is collected, what is carried over in whatever
// order, and when that is the whole subtree.

module OverlayRename {
  import opened Wrappers
  import opened OverlayTree

  /** `q` is below `p` and every step of the way down from `p` is a listed, live entry of a directory. */
  predicate Found(d: Disk, p: Path, q: Path)
    decreases |q|
  {
    && p < q
    && Live(d, q) && LiveDir(d, Parent(q)) && Listed(d, q)
    && (Parent(q) == p || Found(d, p, Parent(q)))
  }

  /** The recursion of `collect`: what is found below `p` is found through one of its entries. */
  lemma {:induction false} FoundThroughChild(d: Disk, p: Path, q: Path)
    ensures Found(d, p, q) <==>
            && p < q
            && var c := q[..|p| + 1];
               && Live(d, c) && LiveDir(d, p) && Listed(d, c)
               && (q == c || Found(d, c, q))
    decreases |q|
  {
    if p < q {
      var c := q[..|p| + 1];
      assert Parent(c) == p;
      if Parent(q) == p {
        assert q == c;
      } else {
        assert p < Parent(q) && Parent(q)[..|p| + 1] == c;
        FoundThroughChild(d, p, Parent(q));
      }
    }
  }

  /** In a sound tree everything live below `p` is found, if it is listed on the way. */
  lemma {:induction false} LiveIsFound(d: Disk, p: Path, q: Path)
    requires Sound(d) && p < q && Live(d, q)
    requires forall r :: p < r <= q && Live(d, r) ==> Listed(d, r)
    ensures Found(d, p, q)
    decreases |q|
  {
    assert Homed(d, q);
    if Parent(q) != p {
      assert p < Parent(q);
      LiveIsFound(d, p, Parent(q));
    }
  }

  /** Nothing is reached only through a conditional entry. */
  ghost predicate AllListed(d: Disk, p: Path) {
    forall q :: p < q && Live(d, q) ==> Listed(d, q)
  }

  /** The path `q` below `src`, seen from `new`. */
  function Moved(src: Path, dst: Path, q: Path): Path
    requires src <= q
  {
    dst + q[|src|..]
  }

  function MovedNode(src: Path, dst: Path, q: Path, n: Node): Node
    requires src <= q
  {
    n.(path := Moved(src, dst, q))
  }

  /** Live paths at or below `src`. */
  predicate Carriable(before: Disk, src: Path, order: seq<Path>) {
    forall q :: q in order ==> src <= q && Live(before, q)
  }

  lemma {:induction false} CarriablePrefix(before: Disk, src: Path, order: seq<Path>)
    requires Carriable(before, src, order) && order != []
    ensures var k := |order| - 1;
            && Carriable(before, src, order[..k]) && src <= order[k] && Live(before, order[k])
            && forall q :: q in order <==> q in order[..k] || q == order[k]
  {
    var k := |order| - 1;
    assert order == order[..k] + [order[k]];
    assert order[k] in order;
  }

  /** The copies of `Rename`, made one by one: `before` is the tree before the move. */
  function Carry(d: Disk, before: Disk, src: Path, dst: Path, order: seq<Path>): (e: Disk)
    requires dst != [] && Carriable(before, src, order)
    ensures SameBase(d, e)
    decreases |order|
  {
    if order == [] then d
    else
      var k, q := |order| - 1, order[|order| - 1];
      CarriablePrefix(before, src, order);
      Place(Carry(d, before, src, dst, order[..k]), Moved(src, dst, q),
            MovedNode(src, dst, q, Look(before, q).value))
  }

  lemma {:induction false} MovedIsInjective(src: Path, dst: Path, p: Path, q: Path)
    requires src <= p && src <= q
    ensures Moved(src, dst, p) == Moved(src, dst, q) <==> p == q
    ensures Moved(src, dst, p)[|dst|..] == p[|src|..]
    ensures src + Moved(src, dst, p)[|dst|..] == p
  {
    if Moved(src, dst, p) == Moved(src, dst, q) {
      assert p[|src|..] == Moved(src, dst, p)[|dst|..];
      assert p == src + p[|src|..] && q == src + q[|src|..];
    }
  }

  /** What the path below `dst` was before the move. */
  function Origin(src: Path, dst: Path, p: Path): (q: Path)
    requires dst <= p
    ensures src <= q && Moved(src, dst, q) == p
  {
    assert p == dst + p[|dst|..];
    assert (src + p[|dst|..])[|src|..] == p[|dst|..];
    src + p[|dst|..]
  }

  /** What is where after the copies, whatever their order. */
  predicate CarriedAt(d: Disk, e: Disk, before: Disk, src: Path, dst: Path, order: seq<Path>, p: Path) {
    Look(e, p) ==
      if dst <= p && Origin(src, dst, p) in order && Live(before, Origin(src, dst, p))
      then Some(Look(before, Origin(src, dst, p)).value.(path := p)) else Look(d, p)
  }

  lemma {:induction false} CarryLook(d: Disk, before: Disk, src: Path, dst: Path, order: seq<Path>, p: Path)
    requires dst != [] && Carriable(before, src, order)
    ensures CarriedAt(d, Carry(d, before, src, dst, order), before, src, dst, order, p)
    decreases |order|
  {
    if order != [] {
      var k, q := |order| - 1, order[|order| - 1];
      CarriablePrefix(before, src, order);
      var c := Carry(d, before, src, dst, order[..k]);
      CarryLook(d, before, src, dst, order[..k], p);
      PlaceLook(c, Moved(src, dst, q), MovedNode(src, dst, q, Look(before, q).value));
      if dst <= p {
        MovedIsInjective(src, dst, q, Origin(src, dst, p));
      }
    }
  }

  lemma {:induction false} CarryLookMoved(d: Disk, before: Disk, src: Path, dst: Path, order: seq<Path>, q: Path)
    requires dst != [] && Carriable(before, src, order) && src <= q && Live(before, q)
    ensures var p := Moved(src, dst, q);
            Look(Carry(d, before, src, dst, order), p) ==
            if q in order then Some(Look(before, q).value.(path := p)) else Look(d, p)
  {
    var p := Moved(src, dst, q);
    CarryLook(d, before, src, dst, order, p);
    MovedIsInjective(src, dst, q, Origin(src, dst, p));
  }

  /** The name of `p` is where a listing of its parent finds it, once the parent is there. */
  predicate Named(d: Disk, p: Path) {
    p != [] && (Last(p) in Extra(d, Parent(p)) ||
                (Look(d, Parent(p)).Some? && Last(p) in Look(d, Parent(p)).value.children))
  }

  predicate Distinct(order: seq<Path>) {
    forall i, j :: 0 <= i < j < |order| ==> order[i] != order[j]
  }

  /** No node at or below `dst` has entries of its own before the copies. */
  ghost predicate Bare(d: Disk, dst: Path) {
    forall p :: dst <= p && Live(d, p) ==> Look(d, p).value.children == []
  }

  lemma {:induction false} CarryNames(d: Disk, before: Disk, src: Path, dst: Path, order: seq<Path>)
    requires dst != [] && Carriable(before, src, order) && Distinct(order) && Bare(d, dst)
    ensures var e := Carry(d, before, src, dst, order);
            && (forall p, x :: x in Extra(d, p) ==> x in Extra(e, p))
            && (forall q :: q in order ==> Named(e, Moved(src, dst, q)))
    decreases |order|
  {
    if order != [] {
      var k, q := |order| - 1, order[|order| - 1];
      CarriablePrefix(before, src, order);
      var c, e := Carry(d, before, src, dst, order[..k]), Carry(d, before, src, dst, order);
      CarryNames(d, before, src, dst, order[..k]);
      var p := Moved(src, dst, q);
      PlaceLook(c, p, MovedNode(src, dst, q, Look(before, q).value));
      forall r | r in order[..k]
        ensures Named(e, Moved(src, dst, r))
      {
        var m := Moved(src, dst, r);
        assert Named(c, m);
        if Parent(m) == p {
          CarryLook(d, before, src, dst, order[..k], p);
          MovedIsInjective(src, dst, q, Origin(src, dst, p));
          assert q !in order[..k];
        }
      }
    }
  }

  // ----- the whole of Rename -----

  datatype Status = Done | NotExist | Invalid | Exists | ReadOnlyTree

  function CreateStatus(d: Disk, p: Path): Status {
    var parent := Visible(d, Parent(p));
    if parent.None? || !parent.value.dir then NotExist
    else if ReadOnly(d, p) then ReadOnlyTree
    else Done
  }

  function RenameStatus(d: Disk, src: Path, dst: Path): Status {
    if Visible(d, src).None? then NotExist
    else if dst == src then Done
    else if src == [] || src < dst then Invalid
    else if Visible(d, dst).Some? && Visible(d, dst).value.dir then Exists
    else if CreateStatus(d, dst) != Done then CreateStatus(d, dst)
    else if ReadOnly(d, src) then ReadOnlyTree
    else Done
  }

  /** The keys of `moves`: the node itself and all that `collect` finds below it. */
  ghost predicate Collects(d: Disk, src: Path, order: seq<Path>) {
    Distinct(order) && forall q :: q in order <==> (q == src && Live(d, q)) || Found(d, src, q)
  }

  lemma {:induction false} FoundIsBelow(d: Disk, p: Path, q: Path)
    requires Found(d, p, q)
    ensures p < q && Live(d, q)
    decreases |q|
  {
  }

  lemma {:induction false} CollectsCarriable(d: Disk, src: Path, order: seq<Path>)
    requires Collects(d, src, order)
    ensures Carriable(d, src, order)
  {
    forall q | q in order
      ensures src <= q && Live(d, q)
    {
      if q != src {
        FoundIsBelow(d, src, q);
      }
    }
  }

  function Renamed(d: Disk, src: Path, dst: Path, order: seq<Path>): Disk
    requires dst != [] && Carriable(d, src, order)
  {
    Carry(Removed(d, src), d, src, dst, order)
  }

  /** A call that changes the tree. */
  ghost predicate Renames(d: Disk, src: Path, dst: Path, order: seq<Path>) {
    && Sound(d) && RenameStatus(d, src, dst).Done? && src != dst
    && Collects(d, src, order)
  }

  lemma {:induction false} RenameTarget(d: Disk, src: Path, dst: Path, order: seq<Path>)
    requires Renames(d, src, dst, order)
    ensures src != [] && dst != [] && Carriable(d, src, order)
    ensures !(src <= dst) && !(dst <= src) && src in order
    ensures LiveDir(d, Parent(dst)) && !LiveDir(d, dst)
    ensures !(src <= Parent(dst))
  {
    CollectsCarriable(d, src, order);
    assert LiveDir(d, []) && Homed(d, []);
    if Live(d, dst) {
      assert Homed(d, dst);
    }
    if dst < src {
      NothingBelow(d, dst, src);
    }
    assert Parent(dst) <= dst;
  }

  /** Every path but those of the moved tree, old and new, resolves to what it did. */
  lemma {:induction false} RenameLook(d: Disk, src: Path, dst: Path, order: seq<Path>, p: Path)
    requires Renames(d, src, dst, order)
    requires dst != [] && Carriable(d, src, order)
    ensures Look(Renamed(d, src, dst, order), p) ==
            if dst <= p then
              (if Origin(src, dst, p) in order
               then Some(Look(d, Origin(src, dst, p)).value.(path := p)) else None)
            else if src <= p then None
            else Look(d, p)
  {
    RenameTarget(d, src, dst, order);
    RemovedLook(d, src);
    CarryLook(Removed(d, src), d, src, dst, order, p);
    if dst < p {
      NothingBelow(d, dst, p);
    } else if dst == p {
      assert Origin(src, dst, p) == src;
    }
  }

  /** What `src` + `s` resolved to is what `dst` + `s` resolves to, but for the path the node records. */
  predicate SameAt(d: Disk, e: Disk, src: Path, dst: Path, s: Path) {
    Look(e, dst + s) ==
      if Live(d, src + s) then Some(Look(d, src + s).value.(path := dst + s)) else None
  }

  /**
   `Rename` never writes the base, leaves nothing behind under the old path
   and touches no other path; and it is a move of the whole subtree exactly
   when no live path below the old one is listed only conditionally.
   */
  lemma {:induction false} RenameMovesSubtree(d: Disk, src: Path, dst: Path, order: seq<Path>)
    requires Renames(d, src, dst, order)
    ensures dst != [] && Carriable(d, src, order)
    ensures var e := Renamed(d, src, dst, order);
            && e.base == d.base
            && (forall p :: !(src <= p) && !(dst <= p) ==> Look(e, p) == Look(d, p))
            && (forall p :: src <= p ==> !Live(e, p))
            && ((forall s :: SameAt(d, e, src, dst, s)) <==> AllListed(d, src))
  {
    RenameTarget(d, src, dst, order);
    var e := Renamed(d, src, dst, order);
    forall p
      ensures !(src <= p) && !(dst <= p) ==> Look(e, p) == Look(d, p)
      ensures src <= p ==> !Live(e, p)
    {
      RenameElsewhere(d, src, dst, order, p);
    }
    MovesIffListed(d, src, dst, order);
  }

  lemma {:induction false} MovesIffListed(d: Disk, src: Path, dst: Path, order: seq<Path>)
    requires Renames(d, src, dst, order)
    requires dst != [] && Carriable(d, src, order)
    ensures (forall s :: SameAt(d, Renamed(d, src, dst, order), src, dst, s)) <==> AllListed(d, src)
  {
    if AllListed(d, src) {
      forall s
        ensures SameAt(d, Renamed(d, src, dst, order), src, dst, s)
      {
        ListedMoves(d, src, dst, order, s);
      }
    } else {
      var q :| src < q && Live(d, q) && !Listed(d, q);
      UnlistedStays(d, src, dst, order, q);
    }
  }

  lemma {:induction false} RenameElsewhere(d: Disk, src: Path, dst: Path, order: seq<Path>, p: Path)
    requires Renames(d, src, dst, order)
    requires dst != [] && Carriable(d, src, order)
    ensures !(src <= p) && !(dst <= p) ==> Look(Renamed(d, src, dst, order), p) == Look(d, p)
    ensures src <= p ==> !Live(Renamed(d, src, dst, order), p)
  {
    RenameTarget(d, src, dst, order);
    RenameLook(d, src, dst, order, p);
    if src <= p && dst <= p {
      PrefixesCompare(src, dst, p);
    }
  }

  lemma {:induction false} PrefixesCompare(p: Path, q: Path, r: Path)
    requires p <= r && q <= r
    ensures p <= q || q <= p
  {
    if |p| <= |q| {
      assert r[..|p|] == q[..|p|];
    } else {
      assert r[..|q|] == p[..|q|];
    }
  }

  lemma {:induction false} ListedMoves(d: Disk, src: Path, dst: Path, order: seq<Path>, s: Path)
    requires Renames(d, src, dst, order) && AllListed(d, src)
    requires dst != [] && Carriable(d, src, order)
    ensures SameAt(d, Renamed(d, src, dst, order), src, dst, s)
  {
    var q := src + s;
    RenameLook(d, src, dst, order, dst + s);
    assert Origin(src, dst, dst + s) == q;
    if s == [] {
      assert q == src;
      RenameTarget(d, src, dst, order);
    } else {
      if Live(d, q) {
        LiveIsFound(d, src, q);
      }
      if Found(d, src, q) {
        FoundIsBelow(d, src, q);
      }
      assert q != src;
    }
  }

  /** A path that only a conditional entry leads to is lost in the move. */
  lemma {:induction false} UnlistedStays(d: Disk, src: Path, dst: Path, order: seq<Path>, q: Path)
    requires Renames(d, src, dst, order)
    requires dst != [] && Carriable(d, src, order)
    requires src < q && Live(d, q) && !Listed(d, q)
    ensures !SameAt(d, Renamed(d, src, dst, order), src, dst, q[|src|..])
    ensures !Live(Renamed(d, src, dst, order), q)
    ensures !Live(Renamed(d, src, dst, order), Moved(src, dst, q))
  {
    var s := q[|src|..];
    assert src + s == q && Moved(src, dst, q) == dst + s;
    assert !Found(d, src, q) && q !in order;
    RenameLook(d, src, dst, order, dst + s);
    assert Origin(src, dst, dst + s) == q;
    RenameTarget(d, src, dst, order);
    RenameLook(d, src, dst, order, q);
    if dst <= q {
      PrefixesCompare(src, dst, q);
    }
  }

  // ----- the tree stays sound -----

  lemma {:induction false} RenameKeepsSound(d: Disk, src: Path, dst: Path, order: seq<Path>)
    requires Renames(d, src, dst, order)
    requires dst != [] && Carriable(d, src, order)
    ensures Sound(Renamed(d, src, dst, order))
  {
    var e := Renamed(d, src, dst, order);
    RenameTarget(d, src, dst, order);
    RenameLook(d, src, dst, order, []);
    RemovedLook(d, src);
    forall p | dst <= p && Live(Removed(d, src), p)
      ensures Look(Removed(d, src), p).value.children == []
    {
      if p != dst {
        NothingBelow(d, dst, p);
      }
      assert Homed(d, p);
    }
    CarryNames(Removed(d, src), d, src, dst, order);
    forall p | Live(e, p)
      ensures Homed(e, p)
    {
      if dst <= p {
        CarriedIsHomed(d, src, dst, order, p);
      } else {
        OtherIsHomed(d, src, dst, order, p);
      }
    }
  }

  lemma {:induction false} CarriedIsHomed(d: Disk, src: Path, dst: Path, order: seq<Path>, p: Path)
    requires Renames(d, src, dst, order)
    requires dst != [] && Carriable(d, src, order)
    requires dst <= p && Live(Renamed(d, src, dst, order), p)
    requires forall q :: q in order ==> Named(Renamed(d, src, dst, order), Moved(src, dst, q))
    ensures Homed(Renamed(d, src, dst, order), p)
  {
    var e, q := Renamed(d, src, dst, order), Origin(src, dst, p);
    RenameLook(d, src, dst, order, p);
    assert q in order && Homed(d, q) && Named(e, p);
    if p == dst {
      RenameTarget(d, src, dst, order);
      RenameLook(d, src, dst, order, Parent(dst));
    } else {
      CarriedParent(d, src, dst, order, p);
    }
  }

  lemma {:induction false} CarriedParent(d: Disk, src: Path, dst: Path, order: seq<Path>, p: Path)
    requires Renames(d, src, dst, order)
    requires dst != [] && Carriable(d, src, order)
    requires dst < p && Origin(src, dst, p) in order
    ensures LiveDir(Renamed(d, src, dst, order), Parent(p))
  {
    var q := Origin(src, dst, p);
    OriginParent(src, dst, p);
    assert Found(d, src, q);
    RenameLook(d, src, dst, order, Parent(p));
  }

  lemma {:induction false} OriginParent(src: Path, dst: Path, p: Path)
    requires dst < p
    ensures dst <= Parent(p) && Origin(src, dst, p) != src
    ensures Origin(src, dst, Parent(p)) == Parent(Origin(src, dst, p))
  {
    assert Parent(p)[|dst|..] == Parent(p[|dst|..]);
  }

  lemma {:induction false} OtherIsHomed(d: Disk, src: Path, dst: Path, order: seq<Path>, p: Path)
    requires Renames(d, src, dst, order)
    requires dst != [] && Carriable(d, src, order)
    requires !(dst <= p) && Live(Renamed(d, src, dst, order), p)
    requires forall q, x :: x in Extra(Removed(d, src), q) ==> x in Extra(Renamed(d, src, dst, order), q)
    ensures Homed(Renamed(d, src, dst, order), p)
  {
    RenameLook(d, src, dst, order, p);
    assert Homed(d, p);
    if p != [] {
      var r := Parent(p);
      assert r <= p;
      RenameLook(d, src, dst, order, r);
      assert Extra(Removed(d, src), r) == Extra(d, r);
    }
  }

  // ----- a name can be listed twice -----

  predicate Precedes(order: seq<Path>, p: Path, q: Path) {
    exists i :: 0 <= i < |order| && order[i] == p && q !in order[..i]
  }

  /**
   A child that the arbitrary order of the moves copies before its directory
   is added to the entries of a directory that is not there yet, and then the
   directory arrives with the same name among its own. A name left behind by
   an earlier directory at the same path has the same effect, in any order.
   These are the only ways in which a directory comes to list a name twice.
   */
  lemma {:induction false} ListedTwice(d: Disk, before: Disk, src: Path, dst: Path, order: seq<Path>, q: Path, x: Name)
    requires dst != [] && Carriable(before, src, order) && Distinct(order) && Bare(d, dst)
    requires src <= q && Live(before, q) && x in Look(before, q).value.children
    ensures x in Extra(Carry(d, before, src, dst, order), Moved(src, dst, q)) <==>
            x in Extra(d, Moved(src, dst, q)) || Precedes(order, q + [x], q)
    decreases |order|
  {
    if order != [] {
      var k, r := |order| - 1, order[|order| - 1];
      CarriablePrefix(before, src, order);
      ListedTwice(d, before, src, dst, order[..k], q, x);
      PrecedesStep(order, q + [x], q);
      var p, m := Moved(src, dst, q), Moved(src, dst, r);
      CarryLookMoved(d, before, src, dst, order[..k], q);
      MovedChild(src, dst, q, x, r);
      AddedName(Carry(d, before, src, dst, order[..k]), m, MovedNode(src, dst, r, Look(before, r).value), p, x);
    }
  }

  lemma {:induction false} MovedChild(src: Path, dst: Path, q: Path, x: Name, r: Path)
    requires src <= q && src <= r
    ensures Moved(src, dst, r) == Moved(src, dst, q) + [x] <==> r == q + [x]
    ensures Moved(src, dst, r) == Moved(src, dst, q) + [x] ==> r != q
  {
    assert Moved(src, dst, q + [x]) == Moved(src, dst, q) + [x];
    MovedIsInjective(src, dst, r, q + [x]);
  }

  /** When placing an entry gives the directory `p` the extra name `x`. */
  lemma {:induction false} AddedName(d: Disk, m: Path, n: Node, p: Path, x: Name)
    requires m != []
    ensures x in Extra(Place(d, m, n), p) <==>
            x in Extra(d, p) || (m == p + [x] && !(Live(d, p) && x in Look(d, p).value.children))
  {
    assert Parent(m) + [Last(m)] == m;
    assert |Parent(m)| < |m|;
    if m == p + [x] {
      assert Parent(m) == p;
    }
  }

  lemma {:induction false} PrecedesStep(order: seq<Path>, p: Path, q: Path)
    requires order != []
    ensures var k := |order| - 1;
            Precedes(order, p, q) <==> Precedes(order[..k], p, q) || (order[k] == p && q !in order[..k])
  {
    var k := |order| - 1;
    assert forall i :: 0 <= i <= k ==> order[..k][..i] == order[..i];
    if Precedes(order[..k], p, q) {
      var i :| 0 <= i < k && order[..k][i] == p && q !in order[..k][..i];
      assert order[i] == p;
    }
    if Precedes(order, p, q) && !(order[k] == p && q !in order[..k]) {
      var i :| 0 <= i < |order| && order[i] == p && q !in order[..i];
      assert order[..k][i] == p;
    }
  }
}
