// The record of internal/shell/awk_run.go: `$0` and the fields are two views of
// one record, each computed from the other only when it is asked for. The lazy
// cache is proved to show what an eager record shows.

module AwkRecord {
  import opened Wrappers

  /** What FS makes of a record, RS being fixed. */
  type Splitter = (string, string) -> seq<string>

  function Join(fields: seq<string>, sep: string): string {
    if fields == [] then "" else if |fields| == 1 then fields[0] else fields[0] + (sep + Join(fields[1..], sep))
  }

  function Fields(split: Splitter, text: string, fs: string): seq<string> {
    if text == "" then [] else split(text, fs)
  }

  // ----- the eager record -----

  /** `fs` is the separator that the next record is split with. */
  datatype Record = Record(text: string, fields: seq<string>, fs: string)

  function Padded(fields: seq<string>, n: nat): seq<string> {
    if n <= |fields| then fields else fields + seq(n - |fields|, _ => "")
  }

  function Rejoined(r: Record, fields: seq<string>, ofs: string): Record {
    r.(text := Join(fields, ofs), fields := fields)
  }

  function Assigned(r: Record, i: nat, value: string, ofs: string): Record
    requires i > 0
  {
    Rejoined(r, Padded(r.fields, i)[i - 1 := value], ofs)
  }

  function Resized(r: Record, n: int, ofs: string): Record {
    var m := if n < 0 then 0 else n;
    Rejoined(r, if m <= |r.fields| then r.fields[..m] else Padded(r.fields, m), ofs)
  }

  function Field(r: Record, i: nat): string {
    if i == 0 then r.text else if i <= |r.fields| then r.fields[i - 1] else ""
  }

  datatype Op = Get(i: int) | GetNF | Set(i: int, value: string) | SetNF(n: int) | SetFS(fs: string)

  /** What one operation shows; a negative field number ends the program. */
  datatype Seen = Nothing | Text(text: string) | Count(n: nat) | Failed

  function Step(split: Splitter, ofs: string, r: Record, op: Op): (Record, Seen) {
    match op
    case Get(i) => (r, if i < 0 then Failed else Text(Field(r, i)))
    case GetNF => (r, Count(|r.fields|))
    case Set(i, v) =>
      if i < 0 then (r, Failed)
      else if i == 0 then (Record(v, Fields(split, v, r.fs), r.fs), Nothing)
      else (Assigned(r, i, v, ofs), Nothing)
    case SetNF(n) => (Resized(r, n, ofs), Nothing)
    case SetFS(fs) => (r.(fs := fs), Nothing)
  }

  function Run(split: Splitter, ofs: string, r: Record, ops: seq<Op>): (Record, seq<Seen>)
    decreases |ops|
  {
    if ops == [] then (r, [])
    else
      var (r1, seen) := Step(split, ofs, r, ops[0]);
      if seen.Failed? then (r1, [seen])
      else
        var (r2, more) := Run(split, ofs, r1, ops[1..]);
        (r2, [seen] + more)
  }

  // ----- what awk promises of it -----

  /** A field write changes that field only, and makes the record at least that long with empty fields. */
  lemma {:induction false} AssignmentIsLocal(r: Record, i: nat, value: string, ofs: string, j: nat)
    requires i > 0 && j > 0
    ensures var t := Assigned(r, i, value, ofs);
      && Field(t, i) == value && (j != i ==> Field(t, j) == Field(r, j))
      && |t.fields| == if i <= |r.fields| then |r.fields| else i
  {
    var padded := Padded(r.fields, i);
    assert forall k :: 0 <= k < |padded| ==> padded[k] == if k < |r.fields| then r.fields[k] else "";
  }

  /** A negative NF is none at all. */
  lemma {:induction false} ResizeKeepsFields(r: Record, n: int, ofs: string, j: nat)
    requires j > 0
    ensures var t := Resized(r, n, ofs);
      && |t.fields| == (if n < 0 then 0 else n) && Field(t, j) == if j <= n then Field(r, j) else ""
  {
  }

  /** Fields are joined in their order, with the separator between two of them and nowhere else. */
  lemma {:induction false} JoinInOrder(fields: seq<string>, x: string, sep: string)
    ensures Join([], sep) == "" && Join([x], sep) == x
    ensures fields != [] ==> Join(fields + [x], sep) == Join(fields, sep) + sep + x
    decreases |fields|
  {
    if |fields| == 1 {
      assert (fields + [x])[1..] == [x] && fields[0] + (sep + x) == fields[0] + sep + x;
    } else if fields != [] {
      var rest := fields[1..];
      JoinInOrder(rest, x, sep);
      assert (fields + [x])[1..] == rest + [x];
      var middle := Join(rest, sep);
      assert fields[0] + (sep + (middle + sep + x)) == fields[0] + (sep + middle) + sep + x;
    }
  }

  /**
   What `$0` and NF show after an assignment: a new record is split with the
   separator in force, an empty one has no fields, and any other assignment
   joins the fields again. A new separator does not touch the record.
   */
  lemma {:induction false} AssignmentsShow(split: Splitter, ofs: string, r: Record, op: Op)
    ensures var (t, seen) := Step(split, ofs, r, op);
      match op
      case Get(i) => t == r && (if i < 0 then seen == Failed
                                else if i == 0 then seen == Text(r.text)
                                else seen == Text(if i <= |r.fields| then r.fields[i - 1] else ""))
      case GetNF => t == r && seen == Count(|r.fields|)
      case Set(i, v) =>
        if i < 0 then t == r && seen == Failed
        else if i == 0 then
          && seen == Nothing && t.text == v && t.fs == r.fs
          && t.fields == if |v| == 0 then [] else split(v, r.fs)
        else
          && seen == Nothing && t.fs == r.fs && t.text == Join(t.fields, ofs)
          && |t.fields| >= i && t.fields[i - 1] == v
      case SetNF(n) => seen == Nothing && t.fs == r.fs && t.text == Join(t.fields, ofs)
      case SetFS(fs) => seen == Nothing && t.text == r.text && t.fields == r.fields && t.fs == fs
  {
  }

  /** `$0` is the text that was split, or the fields joined with OFS. */
  ghost predicate Coherent(split: Splitter, ofs: string, r: Record) {
    r.text == Join(r.fields, ofs) || exists fs :: r.fields == Fields(split, r.text, fs)
  }

  lemma {:induction false} RunStaysCoherent(split: Splitter, ofs: string, r: Record, ops: seq<Op>)
    requires Coherent(split, ofs, r)
    ensures Coherent(split, ofs, Run(split, ofs, r, ops).0)
    decreases |ops|
  {
    if ops != [] {
      var (r1, seen) := Step(split, ofs, r, ops[0]);
      assert ops[0].SetFS? ==> r1.text == r.text && r1.fields == r.fields;
      if !seen.Failed? {
        RunStaysCoherent(split, ofs, r1, ops[1..]);
      }
    }
  }

  /** Joining two fields or more shows the separator. */
  lemma {:induction false} JoinShowsSeparator(fields: seq<string>, a: string, b: string)
    ensures Join(fields, a) == Join(fields, b) <==> |fields| < 2 || a == b
  {
    if |fields| >= 2 && Join(fields, a) == Join(fields, b) {
      JoinLength(fields, a);
      JoinLength(fields, b);
      SameProduct(|fields| - 1, |a|, |b|);
      var x, y := Join(fields[1..], a), Join(fields[1..], b);
      var first := fields[0];
      assert Join(fields, a)[|first|..][..|a|] == a by {
        assert (first + (a + x))[|first|..] == a + x;
      }
      assert Join(fields, b)[|first|..][..|b|] == b by {
        assert (first + (b + y))[|first|..] == b + y;
      }
    }
  }

  function Total(fields: seq<string>): nat {
    if fields == [] then 0 else |fields[0]| + Total(fields[1..])
  }

  lemma {:induction false} JoinLength(fields: seq<string>, sep: string)
    requires fields != []
    ensures |Join(fields, sep)| == Total(fields) + (|fields| - 1) * |sep|
    decreases |fields|
  {
    if |fields| > 1 {
      JoinLength(fields[1..], sep);
    }
  }

  lemma {:induction false} SameProduct(n: nat, a: nat, b: nat)
    requires n > 0 && n * a == n * b
    ensures a == b
  {
    assert n * (a - b) == 0;
  }

  // ----- the lazy cache -----

  class Cache {
    const split: Splitter
    var fs: string
    var ofs: string
    var rec: string
    var recFS: string
    var recOK: bool
    var fields: seq<string>  // fields[0] is not used
    var nf: nat
    var splitOK: bool

    constructor (split: Splitter, fs: string, ofs: string)
      ensures Valid() && Abs() == Record("", [], fs) && this.split == split && this.ofs == ofs
    {
      this.split, this.fs, this.ofs := split, fs, ofs;
      rec, recFS, recOK, fields, nf, splitOK := "", fs, true, [], 0, false;
    }

    predicate Valid()
      reads this
    {
      (recOK || splitOK) && (splitOK ==> |fields| == nf + 1)
    }

    /** The fields, whether or not they have been split off yet. */
    function Parts(): seq<string>
      reads this
      requires Valid()
    {
      if splitOK then fields[1..] else Fields(split, rec, recFS)
    }

    /** The record that the two views are views of. */
    function Abs(): Record
      reads this
      requires Valid()
    {
      Record(if recOK then rec else Join(Parts(), ofs), Parts(), fs)
    }

    method SetRecord(s: string)
      modifies this
      ensures Valid() && Abs() == Record(s, Fields(split, s, fs), fs) && ofs == old(ofs) && fs == old(fs)
    {
      rec, recOK, splitOK, recFS := s, true, false, fs;
    }

    method EnsureSplit()
      requires Valid()
      modifies this
      ensures Valid() && splitOK && Abs() == old(Abs()) && ofs == old(ofs) && recOK == old(recOK)
    {
      if splitOK {
        return;
      }
      splitOK := true;
      fields := [""];
      if rec != "" {
        fields := fields + split(rec, recFS);
      }
      nf := |fields| - 1;
    }

    /** `record()`: joins with the OFS of the moment. */
    method TheRecord() returns (text: string)
      requires Valid()
      modifies this
      ensures Valid() && Abs() == old(Abs()) && text == Abs().text && ofs == old(ofs)
    {
      if !recOK {
        assert fields[1..nf + 1] == fields[1..];
        rec := Join(fields[1..nf + 1], ofs);
        recOK := true;
      }
      text := rec;
    }

    method GetField(i: int) returns (seen: Seen)
      requires Valid()
      modifies this
      ensures Valid() && (Abs(), seen) == Step(split, ofs, old(Abs()), Get(i)) && ofs == old(ofs)
    {
      if i < 0 {
        return Failed;
      }
      if i == 0 {
        var text := TheRecord();
        return Text(text);
      }
      EnsureSplit();
      if i > nf {
        return Text("");
      }
      return Text(fields[i]);
    }

    method GrowTo(n: nat)
      requires Valid() && splitOK
      modifies this`fields, this`nf
      ensures Valid() && fields[1..] == Padded(old(fields)[1..], n)
    {
      ghost var goal := Padded(fields[1..], n);
      while nf < n
        invariant Valid() && Padded(fields[1..], n) == goal
        decreases n - nf
      {
        ghost var was := fields[1..];
        fields := fields[..nf + 1] + [""];
        nf := nf + 1;
        assert fields[1..] == was + [""];
        OneMore(was, n);
      }
    }

    method SetField(i: int, v: string) returns (seen: Seen)
      requires Valid()
      modifies this
      ensures Valid() && (Abs(), seen) == Step(split, ofs, old(Abs()), Set(i, v)) && ofs == old(ofs)
    {
      if i < 0 {
        return Failed;
      }
      if i == 0 {
        SetRecord(v);
        return Nothing;
      }
      EnsureSplit();
      GrowTo(i);
      ghost var grown := fields;
      fields := fields[i := v];
      recOK := false;
      assert fields[1..] == grown[1..][i - 1 := v];
      return Nothing;
    }

    method ReadNF() returns (seen: Seen)
      requires Valid()
      modifies this
      ensures Valid() && (Abs(), seen) == Step(split, ofs, old(Abs()), GetNF) && ofs == old(ofs)
    {
      EnsureSplit();
      return Count(nf);
    }

    method WriteNF(n: int)
      requires Valid()
      modifies this
      ensures Valid() && Abs() == Resized(old(Abs()), n, ofs) && ofs == old(ofs)
    {
      EnsureSplit();
      var m := if n < 0 then 0 else n;
      if m > nf {
        GrowTo(m);
      } else {
        ghost var was := fields;
        nf := m;
        fields := fields[..m + 1];
        assert fields[1..] == was[1..][..m];
      }
      recOK := false;
    }

    method Do(op: Op) returns (seen: Seen)
      requires Valid()
      modifies this
      ensures Valid() && (Abs(), seen) == Step(split, ofs, old(Abs()), op) && ofs == old(ofs)
    {
      match op {
        case Get(i) => seen := GetField(i);
        case GetNF => seen := ReadNF();
        case Set(i, v) => seen := SetField(i, v);
        case SetNF(n) =>
          WriteNF(n);
          seen := Nothing;
        case SetFS(f) =>
          fs := f;
          seen := Nothing;
      }
    }

    /** While OFS stays the same, a program sees exactly what it would see of an eager record. */
    method DoAll(ops: seq<Op>) returns (seen: seq<Seen>)
      requires Valid()
      modifies this
      ensures Valid() && (Abs(), seen) == Run(split, ofs, old(Abs()), ops) && ofs == old(ofs)
    {
      seen := [];
      ghost var goal := Run(split, ofs, Abs(), ops);
      assert ops[0..] == ops && [] + goal.1 == goal.1;
      for k := 0 to |ops|
        invariant Valid() && ofs == old(ofs) && After(seen, Run(split, ofs, Abs(), ops[k..])) == goal
      {
        RunStep(split, ofs, Abs(), ops, k, seen);
        var s := Do(ops[k]);
        seen := seen + [s];
        if s.Failed? {
          return;
        }
      }
      assert ops[|ops|..] == [] && seen + [] == seen;
    }

    /**
     Assigning OFS shows in `$0` exactly when a field or NF was written since
     `$0` was last read and there are two fields or more.
     */
    method SetOFS(sep: string)
      requires Valid()
      modifies this`ofs
      ensures Valid() && ofs == sep && Abs().fields == old(Abs()).fields
      ensures Abs() != old(Abs()) <==> !recOK && |Parts()| >= 2 && sep != old(ofs)
    {
      JoinShowsSeparator(Parts(), ofs, sep);
      ofs := sep;
    }
  }

  function After(seen: seq<Seen>, p: (Record, seq<Seen>)): (Record, seq<Seen>) {
    (p.0, seen + p.1)
  }

  lemma {:induction false} RunStep(split: Splitter, ofs: string, r: Record, ops: seq<Op>, k: nat, seen: seq<Seen>)
    requires k < |ops|
    ensures var (r1, s) := Step(split, ofs, r, ops[k]);
      After(seen, Run(split, ofs, r, ops[k..])) ==
      if s.Failed? then (r1, seen + [s]) else After(seen + [s], Run(split, ofs, r1, ops[k + 1..]))
  {
    assert ops[k..][1..] == ops[k + 1..];
    var (r1, s) := Step(split, ofs, r, ops[k]);
    var more := Run(split, ofs, r1, ops[k + 1..]).1;
    assert seen + ([s] + more) == seen + [s] + more;
  }

  lemma {:induction false} OneMore(fields: seq<string>, n: nat)
    requires |fields| < n
    ensures Padded(fields + [""], n) == Padded(fields, n)
  {
  }
}
