// The interpreter's view of its filesystem as an object: the `overlay` and
// `overlayChildren` maps that the operations of internal/shell/vfs.go,
// fileops.go and fs.go update in place, over a base that none of them writes.

module OverlayFiles {
  import opened Wrappers
  import opened OverlayTree
  import opened OverlayRename
  import opened OverlaySteps

  class FileSystem {
    const base: map<Path, Node>
    const writable: Option<seq<Path>>
    var overlay: map<Path, Option<Node>>
    var overlayChildren: map<Path, seq<Name>>

    constructor (base: map<Path, Node>, writable: Option<seq<Path>>)
      ensures View() == Disk(base, writable, map[], map[])
    {
      this.base, this.writable := base, writable;
      overlay, overlayChildren := map[], map[];
    }

    function View(): Disk
      reads this
    {
      Disk(base, writable, overlay, overlayChildren)
    }

    method Lookup(p: Path) returns (n: Option<Node>)
      ensures n == Look(View(), p)
    {
      if p in overlay {
        return overlay[p];
      }
      n := if p in base then Some(base[p]) else None;
    }

    method LookupVisible(p: Path) returns (n: Option<Node>)
      ensures n == Visible(View(), p)
    {
      n := Lookup(p);
      if n.Some? && n.value.hidden {
        n := None;
      }
    }

    method IsReadOnly(p: Path) returns (r: bool)
      ensures r == ReadOnly(View(), p)
    {
      if writable.None? {
        return false;
      }
      var mounts := writable.value;
      for i := 0 to |mounts|
        invariant forall w :: w in mounts[..i] ==> !(w <= p)
      {
        assert mounts[..i + 1] == mounts[..i] + [mounts[i]];
        if mounts[i] <= p {
          assert mounts[i] in View().writable.value;
          return false;
        }
      }
      assert mounts[..|mounts|] == mounts;
      r := true;
    }

    method Contains(names: seq<Name>, name: Name) returns (found: bool)
      ensures found <==> name in names
    {
      for i := 0 to |names|
        invariant name !in names[..i]
      {
        if names[i] == name {
          return true;
        }
      }
      found := false;
    }

    method AddEntry(parentPath: Path, name: Name)
      modifies this`overlayChildren
      ensures View() == AddChild(old(View()), parentPath, name)
    {
      var parent := Lookup(parentPath);
      if parent.Some? {
        var known := Contains(parent.value.children, name);
        if known {
          return;
        }
      }
      var extra := if parentPath in overlayChildren then overlayChildren[parentPath] else [];
      var known := Contains(extra, name);
      if !known {
        overlayChildren := overlayChildren[parentPath := extra + [name]];
      }
    }

    /** A new entry: the node and its name in its parent. */
    method AddNode(p: Path, n: Node)
      requires p != []
      modifies this`overlay, this`overlayChildren
      ensures View() == Place(old(View()), p, n)
    {
      overlay := overlay[p := Some(n)];
      AddEntry(Parent(p), Last(p));
    }

    /** The loops over the overlay and the base that lay tombstones, in whatever order the maps give. */
    method RemoveNode(p: Path)
      modifies this`overlay
      ensures View() == Removed(old(View()), p)
    {
      RemovedIsBuried(View(), p);
      overlay := overlay[p := None];
      LayTombstones(p, overlay.Keys);
      LayTombstones(p, base.Keys);
    }

    method LayTombstones(p: Path, keys: set<Path>)
      modifies this`overlay
      ensures overlay == Buried(old(overlay), p, keys)
    {
      ghost var before := overlay;
      var todo := keys;
      assert keys - todo == {} && Buried(before, p, {}) == before;
      while todo != {}
        invariant todo <= keys
        invariant overlay == Buried(before, p, keys - todo)
        decreases |todo|
      {
        var q :| q in todo;
        BuriedNext(before, p, keys - todo, q);
        assert keys - (todo - {q}) == (keys - todo) + {q};
        if Below(p, q) {
          overlay := overlay[q := None];
        }
        todo := todo - {q};
      }
      assert keys - {} == keys;
    }

    method WriteFile(p: Path, content: string, append: bool) returns (code: int)
      modifies this`overlay, this`overlayChildren
      ensures (View(), code) == Written(old(View()), p, content, append)
    {
      var existing := Lookup(p);
      if Device(existing) {
        return 0;
      }
      var parent := Lookup(Parent(p));
      if parent.None? || !parent.value.dir {
        return 1;
      }
      var readOnly := IsReadOnly(p);
      if readOnly || (existing.Some? && existing.value.dir) {
        return 1;
      }
      var kept := if append && existing.Some? then existing.value.content else "";
      AddNode(p, NewFile(p, kept + content));
      code := 0;
    }

    method CheckCreate(p: Path) returns (status: Status)
      ensures status == CreateStatus(View(), p)
    {
      var parent := LookupVisible(Parent(p));
      if parent.None? || !parent.value.dir {
        return NotExist;
      }
      var readOnly := IsReadOnly(p);
      status := if readOnly then ReadOnlyTree else Done;
    }

    method CreateFile(p: Path, truncate: bool) returns (status: Status)
      modifies this`overlay, this`overlayChildren
      ensures (View(), status) == Created(old(View()), p, truncate)
    {
      var n := LookupVisible(p);
      if n.Some? {
        if n.value.dir {
          return Invalid;
        }
        var readOnly := IsReadOnly(p);
        if readOnly {
          return ReadOnlyTree;
        }
        if truncate {
          overlay := overlay[p := Some(n.value.(content := "", size := 0))];
        }
        return Done;
      }
      status := CheckCreate(p);
      if status == Done {
        AddNode(p, NewFile(p, ""));
      }
    }

    method SetSize(p: Path, size: int)
      modifies this`overlay
      ensures View() == Resized(old(View()), p, size)
    {
      var n := LookupVisible(p);
      if n.Some? && !n.value.dir {
        overlay := overlay[p := Some(n.value.(content := "", size := size))];
      }
    }

    method MakeDir(p: Path) returns (status: Status)
      modifies this`overlay, this`overlayChildren
      ensures (View(), status) == DirMade(old(View()), p)
    {
      var n := LookupVisible(p);
      if n.Some? {
        return Exists;
      }
      status := CheckCreate(p);
      if status == Done {
        AddNode(p, NewDir(p));
      }
    }

    /** `mkdir` of one operand. Unless something is there on the way to `p`, the walk up would not end. */
    method Mkdir(p: Path, parents: bool) returns (ok: bool)
      requires Anchored(View(), p)
      modifies this`overlay, this`overlayChildren
      ensures (View(), ok) == MkdirDone(old(View()), p, parents)
    {
      var n := Lookup(p);
      if n.Some? {
        return parents && n.value.dir;
      }
      var a := FindAnchor(p);
      var top := Lookup(a);
      if !top.value.dir || (|p| > |a| + 1 && !parents) {
        return false;
      }
      var readOnly := IsReadOnly(p[..|a| + 1]);
      if readOnly {
        return false;
      }
      MakeDirs(p, |a|);
      ok := true;
    }

    method FindAnchor(p: Path) returns (a: Path)
      requires Anchored(View(), p)
      ensures a == Anchor(View(), p)
    {
      a := p;
      var n := Lookup(a);
      while n.None?
        invariant n == Look(View(), a) && Anchored(View(), a) && Anchor(View(), a) == Anchor(View(), p)
        decreases |a|
      {
        ParentAnchored(View(), a);
        a := Parent(a);
        n := Lookup(a);
      }
    }

    method MakeDirs(p: Path, from: nat)
      requires from <= |p|
      modifies this`overlay, this`overlayChildren
      ensures View() == DirsMade(old(View()), p, from, |p|)
    {
      for k := from to |p|
        invariant View() == DirsMade(old(View()), p, from, k)
      {
        AddNode(p[..k + 1], NewDir(p[..k + 1]));
      }
    }

    method ReadDir(p: Path) returns (names: Option<seq<Name>>)
      ensures var n := Visible(View(), p);
              names == if n.Some? && n.value.dir then Some(Entries(View(), p, Listing(View(), p, n.value))) else None
    {
      var n := LookupVisible(p);
      if n.None? || !n.value.dir {
        return None;
      }
      var all := n.value.children + (if p in overlayChildren then overlayChildren[p] else []);
      ghost var d := View();
      assert all == Listing(d, p, n.value);
      var shown := [];
      for i := 0 to |all|
        invariant shown + Entries(d, p, all[i..]) == Entries(d, p, all)
      {
        var child := LookupVisible(p + [all[i]]);
        EntriesNext(d, p, all, i, shown);
        if child.Some? {
          shown := shown + [all[i]];
        }
      }
      assert all[|all|..] == [] && shown + [] == shown;
      names := Some(shown);
    }

    method Unlink(p: Path, dir: bool) returns (status: Status)
      modifies this`overlay
      ensures (View(), status) == Unlinked(old(View()), p, dir)
    {
      var n := LookupVisible(p);
      if n.None? {
        return NotExist;
      }
      var readOnly := IsReadOnly(p);
      if p == [] || readOnly {
        return ReadOnlyTree;
      }
      if dir != n.value.dir {
        return Invalid;
      }
      if dir {
        var names := ReadDir(p);
        if names.value != [] {
          return Exists;
        }
      }
      RemoveNode(p);
      status := Done;
    }

    method Rm(p: Path, recursive: bool, force: bool) returns (ok: bool)
      modifies this`overlay
      ensures (View(), ok) == RmDone(old(View()), p, recursive, force)
    {
      var n := Lookup(p);
      if n.None? {
        return force;
      }
      var readOnly := IsReadOnly(p);
      if (n.value.dir && !recursive) || readOnly {
        return false;
      }
      RemoveNode(p);
      ok := true;
    }

    method CopyFile(src: Path, dst: Path, move: bool, recursive: bool) returns (ok: bool)
      modifies this`overlay, this`overlayChildren
      ensures (View(), ok) == Copied(old(View()), src, dst, move, recursive)
    {
      var n := Lookup(src);
      if n.None? {
        return false;
      }
      if n.value.dir {
        return move || recursive;
      }
      var d := Lookup(dst);
      var to := dst;
      if d.Some? && d.value.dir {
        to := dst + (if src == [] then [] else [Last(src)]);
      }
      var toReadOnly := IsReadOnly(to);
      var srcReadOnly := IsReadOnly(src);
      if toReadOnly || (move && srcReadOnly) {
        return false;
      }
      var code := WriteFile(to, n.value.content, false);
      if code != 0 {
        return false;
      }
      var copy := Lookup(to);
      overlay := overlay[to := Some(copy.value.(mode := n.value.mode))];
      if move {
        RemoveNode(src);
      }
      ok := true;
    }

    // ----- rename -----

    /** The live paths that are found below the directory `n` at `p`. */
    method Collect(p: Path, n: Node, into: map<Path, Node>) returns (moves: map<Path, Node>)
      requires Look(View(), p) == Some(n) && n.dir
      ensures forall q :: q in moves <==> q in into || Found(View(), p, q)
      ensures forall q :: q in moves ==>
              if Found(View(), p, q) then Look(View(), q) == Some(moves[q]) else moves[q] == into[q]
      decreases set q | q in overlay.Keys + base.Keys && |q| > |p|
    {
      var names := n.children + (if p in overlayChildren then overlayChildren[p] else []);
      moves := into;
      for i := 0 to |names|
        invariant forall q :: q in moves <==> q in into || FoundVia(View(), p, names[..i], q)
        invariant forall q :: q in moves ==>
                  if FoundVia(View(), p, names[..i], q) then Look(View(), q) == Some(moves[q]) else moves[q] == into[q]
      {
        var c := p + [names[i]];
        var child := Lookup(c);
        assert names[..i + 1] == names[..i] + [names[i]];
        ghost var before := moves;
        if child.Some? {
          moves := moves[c := child.value];
          if child.value.dir {
            ShrinkingKeys(overlay.Keys + base.Keys, p, c);
            moves := Collect(c, child.value, moves);
          }
        }
        forall q
          ensures FoundVia(View(), p, names[..i + 1], q) <==>
                  FoundVia(View(), p, names[..i], q) || (child.Some? &&
                    (q == c || (child.value.dir && Found(View(), c, q))))
        {
          FoundViaNext(View(), p, names, i, q);
        }
      }
      forall q
        ensures FoundVia(View(), p, names, q) <==> Found(View(), p, q)
      {
        FoundViaAll(View(), p, names, q);
      }
      assert names[..|names|] == names;
    }

    method Rename(src: Path, dst: Path) returns (status: Status, ghost order: seq<Path>)
      modifies this`overlay, this`overlayChildren
      ensures status == RenameStatus(old(View()), src, dst)
      ensures if status.Done? && src != dst
              then dst != [] && Collects(old(View()), src, order) && Carriable(old(View()), src, order) &&
                   View() == Renamed(old(View()), src, dst, order)
              else View() == old(View())
    {
      order := [];
      var n := LookupVisible(src);
      if n.None? {
        return NotExist, order;
      }
      if dst == src {
        return Done, order;
      }
      if src == [] || src < dst {
        return Invalid, order;
      }
      var target := LookupVisible(dst);
      if target.Some? && target.value.dir {
        return Exists, order;
      }
      status := CheckCreate(dst);
      if status != Done {
        return status, order;
      }
      var readOnly := IsReadOnly(src);
      if readOnly {
        return ReadOnlyTree, order;
      }
      var moves := map[src := n.value];
      if n.value.dir {
        moves := Collect(src, n.value, moves);
      } else {
        forall q
          ensures !Found(View(), src, q)
        {
          FoundThroughChild(View(), src, q);
        }
      }
      order := CarryAll(src, dst, moves);
    }

    /** Removes the old tree, then puts each copy in place, in whatever order the map gives. */
    method CarryAll(src: Path, dst: Path, moves: map<Path, Node>) returns (ghost order: seq<Path>)
      requires dst != []
      requires forall q :: q in moves <==> (q == src && Live(View(), q)) || Found(View(), src, q)
      requires forall q :: q in moves ==> Look(View(), q) == Some(moves[q])
      modifies this`overlay, this`overlayChildren
      ensures Collects(old(View()), src, order) && Carriable(old(View()), src, order)
      ensures View() == Renamed(old(View()), src, dst, order)
    {
      ghost var d := View();
      forall q | q in moves
        ensures src <= q
      {
        if q != src {
          FoundIsBelow(d, src, q);
        }
      }
      RemoveNode(src);
      var todo := moves.Keys;
      order := [];
      while todo != {}
        invariant todo <= moves.Keys
        invariant Distinct(order) && forall q :: q in order <==> q in moves && q !in todo
        invariant Carriable(d, src, order)
        invariant View() == Renamed(d, src, dst, order)
        decreases |todo|
      {
        var q :| q in todo;
        CarryNext(Removed(d, src), d, src, dst, order, q);
        DistinctNext(order, q);
        order := order + [q];
        AddNode(dst + q[|src|..], moves[q].(path := dst + q[|src|..]));
        todo := todo - {q};
      }
    }
  }

  /** `q` starts with the text of `p` and a slash. */
  predicate Below(p: Path, q: Path) {
    p != [] && p < q
  }

  lemma {:induction false} CoversSplit(p: Path, q: Path)
    ensures Covers(p, q) <==> q == p || Below(p, q)
  {
    if p <= q && |p| == |q| {
      assert p == q;
    }
  }

  /** The overlay with a tombstone at each of `keys` below `p`. */
  function Buried(overlay: map<Path, Option<Node>>, p: Path, keys: set<Path>): map<Path, Option<Node>> {
    map q | q in overlay.Keys + keys && (q in overlay || Below(p, q)) ::
      if q in keys && Below(p, q) then None else overlay[q]
  }

  lemma {:induction false} RemovedIsBuried(d: Disk, p: Path)
    ensures var o := d.overlay[p := None];
            Removed(d, p).overlay == Buried(Buried(o, p, o.Keys), p, d.base.Keys)
  {
    var gone, o := Removed(d, p).overlay, d.overlay[p := None];
    var o' := Buried(o, p, o.Keys);
    var o'' := Buried(o', p, d.base.Keys);
    forall q
      ensures q in gone <==> q in o''
      ensures q in gone ==> gone[q] == o''[q]
    {
      CoversSplit(p, q);
      assert q in o' <==> q in o;
    }
  }

  lemma {:induction false} BuriedNext(overlay: map<Path, Option<Node>>, p: Path, keys: set<Path>, q: Path)
    ensures Buried(overlay, p, keys + {q}) ==
            if Below(p, q) then Buried(overlay, p, keys)[q := None] else Buried(overlay, p, keys)
  {
    var more, fewer := Buried(overlay, p, keys + {q}), Buried(overlay, p, keys);
    assert forall r :: r in more <==> r in fewer || (r == q && Below(p, q));
  }

  lemma {:induction false} EntriesNext(d: Disk, p: Path, names: seq<Name>, i: nat, shown: seq<Name>)
    requires i < |names|
    ensures shown + Entries(d, p, names[i..]) ==
            (if Visible(d, p + [names[i]]).Some? then shown + [names[i]] else shown) + Entries(d, p, names[i + 1..])
  {
    assert names[i..][1..] == names[i + 1..];
  }

  lemma {:induction false} DistinctNext(order: seq<Path>, q: Path)
    requires Distinct(order) && q !in order
    ensures Distinct(order + [q]) && forall r :: r in order + [q] <==> r in order || r == q
  {
  }

  lemma {:induction false} CarryNext(d: Disk, before: Disk, src: Path, dst: Path, order: seq<Path>, q: Path)
    requires dst != [] && Carriable(before, src, order) && src <= q && Live(before, q)
    ensures Carriable(before, src, order + [q])
    ensures Carry(d, before, src, dst, order + [q]) ==
            Place(Carry(d, before, src, dst, order), Moved(src, dst, q), MovedNode(src, dst, q, Look(before, q).value))
  {
    assert (order + [q])[..|order|] == order;
  }

  lemma {:induction false} ShrinkingKeys(keys: set<Path>, p: Path, c: Path)
    requires c in keys && |c| > |p|
    ensures (set q | q in keys && |q| > |c|) < (set q | q in keys && |q| > |p|)
  {
    var fewer, more := set q | q in keys && |q| > |c|, set q | q in keys && |q| > |p|;
    assert c in more && c !in fewer;
  }

  /** Found below `p` through one of `names`. */
  predicate FoundVia(d: Disk, p: Path, names: seq<Name>, q: Path) {
    && p < q && q[|p|] in names
    && var c := p + [q[|p|]];
       Live(d, c) && (q == c || (LiveDir(d, c) && Found(d, c, q)))
  }

  lemma {:induction false} FoundViaNext(d: Disk, p: Path, names: seq<Name>, i: nat, q: Path)
    requires i < |names|
    ensures var c := p + [names[i]];
            FoundVia(d, p, names[..i + 1], q) <==>
            FoundVia(d, p, names[..i], q) || (Live(d, c) && (q == c || (LiveDir(d, c) && Found(d, c, q))))
  {
    assert names[..i + 1] == names[..i] + [names[i]];
    var c := p + [names[i]];
    if Found(d, c, q) {
      FoundIsBelow(d, c, q);
      assert q[|p|] == names[i];
    }
  }

  lemma {:induction false} FoundViaAll(d: Disk, p: Path, names: seq<Name>, q: Path)
    requires LiveDir(d, p) && names == Listing(d, p, Look(d, p).value)
    ensures FoundVia(d, p, names, q) <==> Found(d, p, q)
  {
    FoundThroughChild(d, p, q);
    if p < q {
      var c := q[..|p| + 1];
      assert c == p + [q[|p|]] && Parent(c) == p && Last(c) == q[|p|];
      if Found(d, c, q) {
        FoundThroughChild(d, c, q);
      }
    }
  }
}
