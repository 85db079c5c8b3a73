/** What dropping unintended patches does to the patched document. */
module PatchRefinement {
  import opened Prelude
  import opened Json
  import opened PatchFilter
  import Decimal
  import opened Runs

  /** An object with object-valued `metadata` and `spec`. */
  predicate Shaped(doc: Value) {
    && doc.Obj?
    && "metadata" in doc.fields && doc.fields["metadata"].Obj?
    && "spec" in doc.fields && doc.fields["spec"].Obj?
  }

  predicate IsTop(a: string) {
    a == "metadata" || a == "spec"
  }

  function Member(doc: Value, a: string, b: string): Option<Value> {
    var c := Child(doc, a);
    if c.None? then None else Child(c.value, b)
  }

  /** No patch writes a location that contains allowed ones. */
  predicate NoEnclosing(ps: seq<Patch>) {
    forall i :: 0 <= i < |ps| ==> var path := Parse(ps[i].path); path.Some? ==> !Encloses(path.value)
  }

  // ------------------------------------------------------------- locality of edits

  /** An edit at `path` below a place that holds `slot`. */
  function EditSlot(slot: Option<Value>, op: Op, path: seq<string>, v: Value): Option<Option<Value>> {
    if path == [] then
      match op
      case Add => Some(Some(v))
      case Replace => if slot.Some? then Some(Some(v)) else None
      case Remove => if slot.Some? then Some(None) else None
    else if slot.None? then None
    else
      var r := ApplyAt(slot.value, op, path, v);
      if r.None? then None else Some(r)
  }

  lemma EditInObject(doc: Value, op: Op, path: seq<string>, v: Value)
    requires doc.Obj? && path != []
    ensures var r, e := ApplyAt(doc, op, path, v), EditSlot(Child(doc, path[0]), op, path[1..], v);
            && (r.Some? <==> e.Some?)
            && (r.Some? ==>
                  && r.value.Obj?
                  && forall k :: Child(r.value, k) == if k == path[0] then e.value else Child(doc, k))
  {
  }

  lemma EditInTop(doc: Value, op: Op, path: seq<string>, v: Value)
    requires Shaped(doc) && |path| >= 2 && IsTop(path[0])
    ensures var r, e := ApplyAt(doc, op, path, v), EditSlot(Member(doc, path[0], path[1]), op, path[2..], v);
            && (r.Some? <==> e.Some?)
            && (r.Some? ==>
                  && Shaped(r.value)
                  && (forall k :: k != path[0] ==> Child(r.value, k) == Child(doc, k))
                  && (forall b ::
                        Member(r.value, path[0], b) == if b == path[1] then e.value else Member(doc, path[0], b)))
  {
    EditInObject(doc, op, path, v);
    var child := Child(doc, path[0]).value;
    assert child.Obj?;
    EditInObject(child, op, path[1..], v);
    assert path[1..][1..] == path[2..];
    var r := ApplyAt(doc, op, path, v);
    if r.Some? {
      TopsAreKept(doc, r.value, path[0]);
    }
  }

  lemma TopsAreKept(doc: Value, r: Value, a: string)
    requires Shaped(doc) && r.Obj?
    requires forall k :: k != a ==> Child(r, k) == Child(doc, k)
    requires IsTop(a) ==> Child(r, a).Some? && Child(r, a).value.Obj?
    ensures Shaped(r)
  {
    assert a != "metadata" ==> Child(r, "metadata") == Child(doc, "metadata");
    assert a != "spec" ==> Child(r, "spec") == Child(doc, "spec");
  }

  // -------------------------------------------------------------------- refinement

  /** `kept` has the allowed members of `full` and everything else of `raw`. */
  ghost predicate Tracks(raw: Value, full: Value, kept: Value) {
    && Shaped(raw) && Shaped(full) && Shaped(kept)
    && (forall k :: !IsTop(k) ==> Child(kept, k) == Child(raw, k))
    && (forall a, b :: IsTop(a) ==>
          Member(kept, a, b) == if AllowedMember(a, b) then Member(full, a, b) else Member(raw, a, b))
  }

  lemma KeptPatch(raw: Value, full: Value, kept: Value, op: Op, path: seq<string>, v: Value)
    requires Tracks(raw, full, kept) && AllowedTokens(path) && ApplyAt(full, op, path, v).Some?
    ensures ApplyAt(kept, op, path, v).Some?
    ensures Tracks(raw, ApplyAt(full, op, path, v).value, ApplyAt(kept, op, path, v).value)
  {
    EditInTop(full, op, path, v);
    EditInTop(kept, op, path, v);
    assert Member(kept, path[0], path[1]) == Member(full, path[0], path[1]);
    var full', kept' := ApplyAt(full, op, path, v).value, ApplyAt(kept, op, path, v).value;
    forall a, b | IsTop(a)
      ensures Member(kept', a, b) == if AllowedMember(a, b) then Member(full', a, b) else Member(raw, a, b)
    {
      assert Member(kept, a, b) == if AllowedMember(a, b) then Member(full, a, b) else Member(raw, a, b);
    }
  }

  lemma DroppedPatch(raw: Value, full: Value, kept: Value, op: Op, path: seq<string>, v: Value)
    requires Tracks(raw, full, kept) && !AllowedTokens(path) && !Encloses(path)
    requires ApplyAt(full, op, path, v).Some?
    ensures Tracks(raw, ApplyAt(full, op, path, v).value, kept)
  {
    var full' := ApplyAt(full, op, path, v).value;
    if IsTop(path[0]) {
      assert path == [path[0]] + path[1..];
      assert |path| >= 2;
      EditInTop(full, op, path, v);
    } else {
      EditInObject(full, op, path, v);
      TopsAreKept(full, full', path[0]);
    }
    forall a, b | IsTop(a)
      ensures Member(kept, a, b) == if AllowedMember(a, b) then Member(full', a, b) else Member(raw, a, b)
    {
      assert AllowedMember(a, b) ==> Member(full', a, b) == Member(full, a, b);
    }
  }

  lemma {:induction false} FilteredTracks(raw: Value, full: Value, kept: Value, ps: seq<Patch>)
    requires Tracks(raw, full, kept) && NoEnclosing(ps) && ApplyAll(full, ps).Some?
    ensures ApplyAll(kept, Filter(ps)).Some?
    ensures Tracks(raw, ApplyAll(full, ps).value, ApplyAll(kept, Filter(ps)).value)
    decreases ps
  {
    if ps != [] {
      var p := ps[0];
      var path := Parse(p.path).value;
      var full' := ApplyPatch(full, p).value;
      AllowedOnPointer(p.path);
      assert NoEnclosing(ps[1..]);
      if Allowed(p.path) {
        KeptPatch(raw, full, kept, p.op, path, p.value);
        FilteredTracks(raw, full', ApplyPatch(kept, p).value, ps[1..]);
        assert Filter(ps)[0] == p && Filter(ps)[1..] == Filter(ps[1..]);
      } else {
        DroppedPatch(raw, full, kept, p.op, path, p.value);
        FilteredTracks(raw, full', kept, ps[1..]);
        assert Filter(ps) == Filter(ps[1..]);
      }
    }
  }

  /** What the filter promises: allowed locations as fully patched, all others as they came. */
  ghost predicate Spliced(raw: Value, full: Value, kept: Value) {
    forall path :: !Encloses(path) ==>
      Lookup(kept, path) == if AllowedTokens(path) then Lookup(full, path) else Lookup(raw, path)
  }

  lemma LookupTwo(doc: Value, path: seq<string>)
    requires |path| >= 2
    ensures var m := Member(doc, path[0], path[1]);
            Lookup(doc, path) == if m.None? then None else Lookup(m.value, path[2..])
  {
  }

  lemma TracksSpliced(raw: Value, full: Value, kept: Value)
    requires Tracks(raw, full, kept)
    ensures Spliced(raw, full, kept)
  {
    forall path | !Encloses(path)
      ensures Lookup(kept, path) == if AllowedTokens(path) then Lookup(full, path) else Lookup(raw, path)
    {
      assert path == [path[0]] + path[1..];
      if IsTop(path[0]) {
        assert |path| >= 2;
        LookupTwo(kept, path);
        LookupTwo(full, path);
        LookupTwo(raw, path);
      } else {
        assert Child(kept, path[0]) == Child(raw, path[0]);
      }
    }
  }

  /**
    Filtering refines patching: the filtered list applies whenever the full list does, and its
    result is the fully patched document at every allowed location and the original elsewhere.
   */
  lemma FilterRefinesPatch(raw: Value, ps: seq<Patch>)
    requires Shaped(raw) && NoEnclosing(ps) && ApplyAll(raw, ps).Some?
    ensures ApplyAll(raw, Filter(ps)).Some?
    ensures Tracks(raw, ApplyAll(raw, ps).value, ApplyAll(raw, Filter(ps)).value)
    ensures Spliced(raw, ApplyAll(raw, ps).value, ApplyAll(raw, Filter(ps)).value)
  {
    FilteredTracks(raw, raw, raw, ps);
    TracksSpliced(raw, ApplyAll(raw, ps).value, ApplyAll(raw, Filter(ps)).value);
  }

  // -------------------------------------------------------------- when it loses changes

  /** `a` is missing or holds no object. */
  predicate NotAnObject(doc: Value, a: string) {
    var c := Child(doc, a);
    c.None? || !c.value.Obj?
  }

  lemma NamesAreNoIndexes(a: string, b: string)
    requires AllowedMember(a, b)
    ensures ArrayIndex(b).None? && b != "-"
  {
    assert b[0] == 'l' || b[0] == 'a' || b[0] == 's' || b[0] == 'm';
    assert !Decimal.IsDigit(b[0]);
  }

  /** An allowed patch cannot repair a missing `metadata` or `spec`. */
  lemma AllowedPatchKeepsGap(doc: Value, op: Op, path: seq<string>, v: Value, a: string)
    requires doc.Obj? && IsTop(a) && NotAnObject(doc, a) && AllowedTokens(path)
    requires ApplyAt(doc, op, path, v).Some?
    ensures ApplyAt(doc, op, path, v).value.Obj? && Child(ApplyAt(doc, op, path, v).value, a) == Child(doc, a)
  {
    EditInObject(doc, op, path, v);
    NamesAreNoIndexes(path[0], path[1]);
    assert path[1..] != [] && path[1..][0] == path[1];
  }

  lemma {:induction false} FilteredKeepsGap(doc: Value, ps: seq<Patch>, a: string)
    requires doc.Obj? && IsTop(a) && NotAnObject(doc, a) && ApplyAll(doc, Filter(ps)).Some?
    ensures Child(ApplyAll(doc, Filter(ps)).value, a) == Child(doc, a)
    decreases ps
  {
    if ps != [] {
      var p := ps[0];
      if Allowed(p.path) {
        assert Filter(ps)[0] == p && Filter(ps)[1..] == Filter(ps[1..]);
        AllowedOnPointer(p.path);
        AllowedPatchKeepsGap(doc, p.op, Parse(p.path).value, p.value, a);
        FilteredKeepsGap(ApplyPatch(doc, p).value, ps[1..], a);
      } else {
        assert Filter(ps) == Filter(ps[1..]);
        FilteredKeepsGap(doc, ps[1..], a);
      }
    }
  }

  /** The filtered list applies and agrees with the full one at every allowed location. */
  ghost predicate IntendedSurvive(raw: Value, ps: seq<Patch>, full: Value) {
    && ApplyAll(raw, Filter(ps)).Some?
    && forall path :: AllowedTokens(path) ==> Lookup(ApplyAll(raw, Filter(ps)).value, path) == Lookup(full, path)
  }

  lemma GapHidesMember(doc: Value, a: string, b: string)
    requires NotAnObject(doc, a) && AllowedMember(a, b)
    ensures Lookup(doc, [a, b]) == None
  {
    NamesAreNoIndexes(a, b);
    LookupTwo(doc, [a, b]);
  }

  lemma GapLosesMember(raw: Value, ps: seq<Patch>, full: Value, a: string, b: string)
    requires raw.Obj? && IsTop(a) && AllowedMember(a, b) && NotAnObject(raw, a)
    requires Lookup(full, [a, b]).Some?
    ensures !IntendedSurvive(raw, ps, full)
  {
    if ApplyAll(raw, Filter(ps)).Some? {
      var kept := ApplyAll(raw, Filter(ps)).value;
      FilteredKeepsGap(raw, ps, a);
      GapHidesMember(kept, a, b);
      assert AllowedTokens([a, b]);
    }
  }

  /**
    Exactly when the filter keeps the webhook's changes. The patched document always has labels
    and a status; the patch list rewrites `metadata` or `spec` as a whole only when the original
    lacks such an object. Then the changes survive if and only if the original has both objects.
   */
  lemma IntendedSurviveIff(raw: Value, ps: seq<Patch>, full: Value)
    requires raw.Obj? && ApplyAll(raw, ps) == Some(full)
    requires Lookup(full, ["metadata", "labels"]).Some? && Lookup(full, ["spec", "status"]).Some?
    requires Shaped(raw) ==> NoEnclosing(ps)
    ensures IntendedSurvive(raw, ps, full) <==> Shaped(raw)
  {
    if Shaped(raw) {
      FilterRefinesPatch(raw, ps);
      forall path | AllowedTokens(path)
        ensures Lookup(ApplyAll(raw, Filter(ps)).value, path) == Lookup(full, path)
      {
        assert !Encloses(path);
      }
    } else if NotAnObject(raw, "metadata") {
      GapLosesMember(raw, ps, full, "metadata", "labels");
    } else {
      GapLosesMember(raw, ps, full, "spec", "status");
    }
  }

  lemma PlainPointers(a: string, b: string)
    requires PlainText(a) && PlainText(b)
    ensures Parse("/" + a) == Some([a])
    ensures Parse("/" + a + "/" + b) == Some([a, b])
  {
    EscapeIs(a, a);
    EscapeIs(b, b);
    assert [a][1..] == [];
    assert Render([a]) == "/" + a;
    RenderTwo([a, b]);
    assert [a, b][2..] == [];
    assert Render([a, b]) == "/" + a + "/" + b;
    ParseRender([a]);
    ParseRender([a, b]);
  }

  lemma SpecPointer()
    ensures Parse("/spec") == Some(["spec"]) && !Allowed("/spec")
  {
    PlainPointers("spec", "");
    assert "/spec" == "/" + "spec";
    AllowedOnPointer("/spec");
  }

  lemma LabelsPointer()
    ensures Parse("/metadata/labels") == Some(["metadata", "labels"]) && Allowed("/metadata/labels")
  {
    PlainPointers("metadata", "labels");
    assert "/metadata/labels" == "/" + "metadata" + "/" + "labels";
    assert ALLOWED_PREFIXES[0] == "/metadata/labels";
  }

  /** A list that writes a member of `metadata` and creates `spec`, and what the filter makes of it. */
  lemma MarkAndCreate(raw: Value, mark: Patch, create: Patch, b: string)
    requires raw.Obj? && !NotAnObject(raw, "metadata")
    requires mark.op == create.op == Add
    requires Parse(mark.path) == Some(["metadata", b]) && Allowed(mark.path)
    requires Parse(create.path) == Some(["spec"]) && !Allowed(create.path)
    ensures var meta := Child(raw, "metadata").value;
            var marked := Obj(raw.fields["metadata" := Obj(meta.fields[b := mark.value])]);
            && ApplyAll(raw, [mark, create]) == Some(Obj(marked.fields["spec" := create.value]))
            && ApplyAll(raw, Filter([mark, create])) == Some(marked)
  {
    assert [mark, create][1..] == [create] && [create][1..] == [] && [mark][1..] == [];
    assert Filter([create]) == [];
    assert Filter([mark, create]) == [mark];
    var path := ["metadata", b];
    assert path[1..] == [b];
    var meta := Child(raw, "metadata").value;
    var marked := Obj(raw.fields["metadata" := Obj(meta.fields[b := mark.value])]);
    assert ApplyAt(meta, Add, [b], mark.value) == Some(Obj(meta.fields[b := mark.value]));
    assert ApplyPatch(raw, mark) == Some(marked);
    assert ApplyPatch(marked, create) == Some(Obj(marked.fields["spec" := create.value]));
    assert ApplyAll(raw, [mark, create]) == ApplyAll(marked, [create]);
  }

  /**
    The failing family is real. On any object with metadata but without a spec object, a list that
    labels the run and creates its spec as pending suspends it; filtered, the list still applies and
    still labels the run, but leaves it without a status.
   */
  lemma CreatedSpecIsDropped(raw: Value, labels: Value)
    requires raw.Obj? && !NotAnObject(raw, "metadata") && NotAnObject(raw, "spec")
    ensures var ps := [Patch(Add, "/metadata/labels", labels), Patch(Add, "/spec", Obj(map["status" := Str(PENDING)]))];
            var full, kept := ApplyAll(raw, ps), ApplyAll(raw, Filter(ps));
            && full.Some? && kept.Some?
            && Lookup(full.value, ["spec", "status"]) == Some(Str(PENDING))
            && Lookup(kept.value, ["spec", "status"]) == None
            && Lookup(kept.value, ["metadata", "labels"]) == Some(labels)
  {
    var spec := Obj(map["status" := Str(PENDING)]);
    LabelsPointer();
    SpecPointer();
    MarkAndCreate(raw, Patch(Add, "/metadata/labels", labels), Patch(Add, "/spec", spec), "labels");
    var meta := Child(raw, "metadata").value;
    var marked := Obj(raw.fields["metadata" := Obj(meta.fields["labels" := labels])]);
    CreatedStatus(marked);
    MarkedLabels(raw, labels);
  }

  lemma CreatedStatus(doc: Value)
    requires doc.Obj?
    ensures Lookup(Obj(doc.fields["spec" := Obj(map["status" := Str(PENDING)])]), ["spec", "status"]) ==
            Some(Str(PENDING))
  {
    LookupTwo(Obj(doc.fields["spec" := Obj(map["status" := Str(PENDING)])]), ["spec", "status"]);
  }

  lemma MarkedLabels(raw: Value, labels: Value)
    requires raw.Obj? && !NotAnObject(raw, "metadata") && NotAnObject(raw, "spec")
    ensures var meta := Child(raw, "metadata").value;
            var marked := Obj(raw.fields["metadata" := Obj(meta.fields["labels" := labels])]);
            && Lookup(marked, ["metadata", "labels"]) == Some(labels)
            && Lookup(marked, ["spec", "status"]) == None
  {
    var meta := Child(raw, "metadata").value;
    var marked := Obj(raw.fields["metadata" := Obj(meta.fields["labels" := labels])]);
    LookupTwo(marked, ["metadata", "labels"]);
    assert "metadata"[0] == 'm' && "spec"[0] == 's';
    GapHidesMember(marked, "spec", "status");
  }
}
