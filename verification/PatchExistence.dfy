/** Between shaped documents there is always a patch list that writes no enclosing location. */
module PatchExistence {
  import opened Prelude
  import opened Json
  import opened PatchRefinement

  /** Other members of the root, and members of `metadata` and `spec`. */
  predicate IsPlace(path: seq<string>) {
    (|path| == 1 && !IsTop(path[0])) || (|path| == 2 && IsTop(path[0]))
  }

  function Places(doc: Value): set<seq<string>>
    requires Shaped(doc)
  {
    (set k | k in doc.fields && !IsTop(k) :: [k])
    + (set b | b in doc.fields["metadata"].fields :: ["metadata", b])
    + (set b | b in doc.fields["spec"].fields :: ["spec", b])
  }

  lemma LookupPlace(doc: Value, path: seq<string>)
    requires IsPlace(path)
    ensures Lookup(doc, path) == if |path| == 1 then Child(doc, path[0]) else Member(doc, path[0], path[1])
  {
    if |path| == 1 {
      assert path[1..] == [];
    } else {
      LookupTwo(doc, path);
      assert path[2..] == [];
    }
  }

  lemma EmptyOutsidePlaces(doc: Value, path: seq<string>)
    requires Shaped(doc) && IsPlace(path) && path !in Places(doc)
    ensures Lookup(doc, path) == None
  {
    LookupPlace(doc, path);
    if |path| == 1 {
      assert path == [path[0]];
    } else {
      assert path == [path[0], path[1]];
    }
  }

  /** Documents that agree at every place are equal. */
  lemma SamePlacesSameDocument(x: Value, y: Value)
    requires Shaped(x) && Shaped(y)
    requires forall p :: IsPlace(p) ==> Lookup(x, p) == Lookup(y, p)
    ensures x == y
  {
    forall a | IsTop(a) ensures x.fields[a] == y.fields[a] {
      var fx, fy := x.fields[a].fields, y.fields[a].fields;
      forall b ensures (b in fx <==> b in fy) && (b in fx ==> fx[b] == fy[b]) {
        assert IsPlace([a, b]);
        LookupPlace(x, [a, b]);
        LookupPlace(y, [a, b]);
      }
      assert fx == fy;
    }
    forall k ensures (k in x.fields <==> k in y.fields) && (k in x.fields ==> x.fields[k] == y.fields[k]) {
      if !IsTop(k) {
        assert IsPlace([k]);
        LookupPlace(x, [k]);
        LookupPlace(y, [k]);
      }
    }
    assert x.fields == y.fields;
  }

  /** An edit at one place leaves the others alone. */
  lemma EditAtPlace(doc: Value, op: Op, path: seq<string>, v: Value)
    requires Shaped(doc) && IsPlace(path) && (op.Add? || Lookup(doc, path).Some?)
    ensures ApplyAt(doc, op, path, v).Some?
    ensures var r := ApplyAt(doc, op, path, v).value;
            && Shaped(r)
            && Lookup(r, path) == (if op.Remove? then None else Some(v))
            && forall p :: IsPlace(p) && p != path ==> Lookup(r, p) == Lookup(doc, p)
  {
    LookupPlace(doc, path);
    if |path| == 1 {
      EditInObject(doc, op, path, v);
      assert path[1..] == [];
      TopsAreKept(doc, ApplyAt(doc, op, path, v).value, path[0]);
    } else {
      EditInTop(doc, op, path, v);
      assert path[2..] == [];
    }
    var r := ApplyAt(doc, op, path, v).value;
    LookupPlace(r, path);
    forall p | IsPlace(p) && p != path ensures Lookup(r, p) == Lookup(doc, p) {
      LookupPlace(r, p);
      LookupPlace(doc, p);
      if |p| == |path| && p[0] == path[0] {
        assert |p| == 2 && p == [p[0], p[1]] && path == [path[0], path[1]];
      }
    }
  }

  /** The patches that bring one place to its target. */
  function PlacePatch(doc: Value, target: Value, path: seq<string>): seq<Patch> {
    if Lookup(doc, path) == Lookup(target, path) then []
    else if Lookup(target, path).Some? then [Patch(Add, Render(path), Lookup(target, path).value)]
    else [Patch(Remove, Render(path), Null)]
  }

  /** The patch writes a place where the documents differ. */
  ghost predicate WritesDifference(p: Patch, doc: Value, target: Value) {
    exists path :: IsPlace(path) && p.path == Render(path) && Lookup(doc, path) != Lookup(target, path)
  }

  ghost predicate WritesDifferences(ps: seq<Patch>, doc: Value, target: Value) {
    forall i :: 0 <= i < |ps| ==> WritesDifference(ps[i], doc, target)
  }

  lemma ApplyOne(doc: Value, op: Op, path: seq<string>, v: Value)
    ensures ApplyAll(doc, [Patch(op, Render(path), v)]) == ApplyAt(doc, op, path, v)
  {
    ParseRender(path);
    var p := Patch(op, Render(path), v);
    assert [p][1..] == [];
  }

  lemma PlacePatchIsLocal(doc: Value, target: Value, path: seq<string>)
    requires IsPlace(path)
    ensures NoEnclosing(PlacePatch(doc, target, path))
  {
    ParseRender(path);
  }

  lemma PlacePatchWorks(doc: Value, target: Value, path: seq<string>)
    requires Shaped(doc) && IsPlace(path)
    ensures ApplyAll(doc, PlacePatch(doc, target, path)).Some?
    ensures var r := ApplyAll(doc, PlacePatch(doc, target, path)).value;
            && Shaped(r)
            && Lookup(r, path) == Lookup(target, path)
            && forall p :: IsPlace(p) && p != path ==> Lookup(r, p) == Lookup(doc, p)
  {
    if Lookup(doc, path) == Lookup(target, path) {
    } else if Lookup(target, path).Some? {
      ApplyOne(doc, Add, path, Lookup(target, path).value);
      EditAtPlace(doc, Add, path, Lookup(target, path).value);
    } else {
      ApplyOne(doc, Remove, path, Null);
      EditAtPlace(doc, Remove, path, Null);
    }
  }

  lemma {:induction false} ApplyAllConcat(doc: Value, ps: seq<Patch>, qs: seq<Patch>)
    ensures var a := ApplyAll(doc, ps); ApplyAll(doc, ps + qs) == if a.None? then None else ApplyAll(a.value, qs)
    decreases ps
  {
    if ps == [] {
      assert ps + qs == qs;
    } else {
      assert (ps + qs)[1..] == ps[1..] + qs;
      var next := ApplyPatch(doc, ps[0]);
      if next.Some? {
        ApplyAllConcat(next.value, ps[1..], qs);
      }
    }
  }

  lemma StillDifferent(doc: Value, next: Value, target: Value, path: seq<string>, ps: seq<Patch>)
    requires Lookup(next, path) == Lookup(target, path)
    requires forall p :: IsPlace(p) && p != path ==> Lookup(next, p) == Lookup(doc, p)
    requires WritesDifferences(ps, next, target)
    ensures WritesDifferences(ps, doc, target)
  {
    forall i | 0 <= i < |ps| ensures WritesDifference(ps[i], doc, target) {
      assert WritesDifference(ps[i], next, target);
      var p :| IsPlace(p) && ps[i].path == Render(p) && Lookup(next, p) != Lookup(target, p);
      assert Lookup(next, p) == Lookup(doc, p);
    }
  }

  lemma JoinedDifferences(ps: seq<Patch>, qs: seq<Patch>, doc: Value, target: Value)
    requires WritesDifferences(ps, doc, target) && WritesDifferences(qs, doc, target)
    ensures WritesDifferences(ps + qs, doc, target)
  {
    assert forall i :: 0 <= i < |ps + qs| ==> (ps + qs)[i] == if i < |ps| then ps[i] else qs[i - |ps|];
  }

  lemma {:induction false} BringPlaces(doc: Value, target: Value, todo: set<seq<string>>) returns (ps: seq<Patch>)
    requires Shaped(doc) && Shaped(target)
    requires forall p :: IsPlace(p) && p !in todo ==> Lookup(doc, p) == Lookup(target, p)
    ensures NoEnclosing(ps) && ApplyAll(doc, ps) == Some(target)
    ensures WritesDifferences(ps, doc, target)
    decreases |todo|
  {
    if todo == {} {
      ps := [];
      SamePlacesSameDocument(doc, target);
    } else {
      var path :| path in todo;
      if IsPlace(path) {
        var first := PlacePatch(doc, target, path);
        PlacePatchIsLocal(doc, target, path);
        PlacePatchWorks(doc, target, path);
        var next := ApplyAll(doc, first).value;
        var rest := BringPlaces(next, target, todo - {path});
        ps := first + rest;
        ApplyAllConcat(doc, first, rest);
        StillDifferent(doc, next, target, path, rest);
        JoinedDifferences(first, rest, doc, target);
      } else {
        ps := BringPlaces(doc, target, todo - {path});
      }
    }
  }

  /** Any shaped document can be patched into any other without writing the root, `/metadata` or `/spec`. */
  lemma LocalPatchExists(raw: Value, target: Value) returns (ps: seq<Patch>)
    requires Shaped(raw) && Shaped(target)
    ensures NoEnclosing(ps) && ApplyAll(raw, ps) == Some(target)
    ensures WritesDifferences(ps, raw, target)
  {
    forall p | IsPlace(p) && p !in Places(raw) + Places(target) ensures Lookup(raw, p) == Lookup(target, p) {
      EmptyOutsidePlaces(raw, p);
      EmptyOutsidePlaces(target, p);
    }
    ps := BringPlaces(raw, target, Places(raw) + Places(target));
  }

  predicate InMetadata(p: Patch) {
    var path := Parse(p.path);
    path.Some? && |path.value| >= 2 && path.value[0] == "metadata"
  }

  /** Patches below `metadata` do not care about the rest of the document. */
  lemma {:induction false} MetadataPatchesAreLocal(x: Value, y: Value, ps: seq<Patch>)
    requires x.Obj? && y.Obj? && Child(x, "metadata") == Child(y, "metadata")
    requires forall i :: 0 <= i < |ps| ==> InMetadata(ps[i])
    requires ApplyAll(x, ps).Some?
    ensures ApplyAll(y, ps).Some?
    decreases ps
  {
    if ps != [] {
      var path := Parse(ps[0].path).value;
      assert InMetadata(ps[0]);
      EditInObject(x, ps[0].op, path, ps[0].value);
      EditInObject(y, ps[0].op, path, ps[0].value);
      MetadataPatchesAreLocal(ApplyPatch(x, ps[0]).value, ApplyPatch(y, ps[0]).value, ps[1..]);
    }
  }
}
