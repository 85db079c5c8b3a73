/** From an admission request to the stored object, its quota and its life. */
module EndToEnd {
  import opened Prelude
  import opened Runs
  import opened Requests
  import opened Evaluator
  import opened Decimal
  import opened Mutator
  import opened FoldTheory
  import opened ResourceSums
  import opened Builders
  import opened ConfigStore
  import opened Webhook
  import opened Json
  import opened PatchFilter
  import opened PatchRefinement
  import opened PatchExistence
  import opened Quota
  import Lifecycle
  import StoreInterleaving

  // -------------------------------------------------------------------- the object as JSON

  function StringsObject(m: map<string, string>): Value {
    Obj(map k | k in m :: Str(m[k]))
  }

  /** A member that is left out when empty. */
  function MapMember(name: string, m: StringMap): map<string, Value> {
    if m.None? || m.value == map[] then map[] else map[name := StringsObject(m.value)]
  }

  function TextMember(name: string, text: Option<string>): map<string, Value> {
    if text.None? then map[] else map[name := Str(text.value)]
  }

  function EncodeMeta(run: Run): map<string, Value> {
    (run.rest.meta - {"labels", "annotations"})
    + MapMember("labels", run.labels)
    + MapMember("annotations", run.annotations)
  }

  function EncodeSpec(run: Run): map<string, Value> {
    (run.rest.spec - {"status", "managedBy"})
    + TextMember("status", if run.status == "" then None else Some(run.status))
    + TextMember("managedBy", run.managedBy)
  }

  /** The Go struct marshalled: `metadata` and `spec` always present, empty members left out. */
  function Encode(run: Run): Value {
    Obj(run.rest.top["metadata" := Obj(EncodeMeta(run))]["spec" := Obj(EncodeSpec(run))])
  }

  lemma NamesDiffer()
    ensures "metadata" != "spec" && "labels" != "annotations" && "status" != "managedBy"
  {
  }

  lemma EncodeMembers(run: Run)
    ensures Shaped(Encode(run))
    ensures forall k :: !IsTop(k) ==> Child(Encode(run), k) == if k in run.rest.top then Some(run.rest.top[k]) else None
    ensures forall b :: Member(Encode(run), "metadata", b) == Child(Obj(EncodeMeta(run)), b)
    ensures forall b :: Member(Encode(run), "spec", b) == Child(Obj(EncodeSpec(run)), b)
  {
    NamesDiffer();
  }

  /** Two runs that agree on all other fields differ, as JSON, only at allowed locations. */
  lemma OnlyAllowedMembersDiffer(x: Run, y: Run)
    requires x.rest == y.rest
    ensures Spliced(Encode(x), Encode(y), Encode(y))
  {
    EncodeMembers(x);
    EncodeMembers(y);
    forall a, b | IsTop(a)
      ensures Member(Encode(y), a, b) ==
              if AllowedMember(a, b) then Member(Encode(y), a, b) else Member(Encode(x), a, b)
    {
      if !AllowedMember(a, b) {
        OtherMembersAgree(x, y, a, b);
      }
    }
    TracksSpliced(Encode(x), Encode(y), Encode(y));
  }

  lemma OtherMembersAgree(x: Run, y: Run, a: string, b: string)
    requires x.rest == y.rest && IsTop(a) && !AllowedMember(a, b)
    ensures Member(Encode(x), a, b) == Member(Encode(y), a, b)
  {
    EncodeMembers(x);
    EncodeMembers(y);
    if a == "metadata" {
      OtherMeta(x, b);
      OtherMeta(y, b);
    } else {
      OtherSpec(x, b);
      OtherSpec(y, b);
    }
  }

  lemma OtherMeta(x: Run, b: string)
    requires b != "labels" && b != "annotations"
    ensures Child(Obj(EncodeMeta(x)), b) == Child(Obj(x.rest.meta), b)
  {
  }

  lemma OtherSpec(x: Run, b: string)
    requires b != "status" && b != "managedBy"
    ensures Child(Obj(EncodeSpec(x)), b) == Child(Obj(x.rest.spec), b)
  {
  }

  /**
    The allowlist loses nothing intended: every location whose JSON the defaulter changes renders
    to a pointer the filter lets through, or is the root, `/metadata` or `/spec` around such a change.
   */
  lemma ChangedLocationsAreAllowed(tk: Tekton, s: Contents, run: Run, path: seq<string>)
    requires s.config.Some?
    requires Lookup(Encode(DefaultOutcome(tk, s, run).run), path) != Lookup(Encode(run), path)
    ensures Encloses(path) || Allowed(Render(path))
  {
    DefaultKeepsRest(tk, s, run);
    OnlyAllowedMembersDiffer(run, DefaultOutcome(tk, s, run).run);
    AllowedOnTokens(path);
  }

  /** Admitted or refused, the defaulter never touches other fields. */
  lemma DefaultKeepsRest(tk: Tekton, s: Contents, run: Run)
    ensures DefaultOutcome(tk, s, run).run.rest == run.rest
    ensures DefaultOutcome(tk, s, run).run.status == PENDING
  {
    if s.config.Some? {
      MutateAllKeepsRest(tk, s.mutators, Prepared(s.config.value, run));
    }
  }

  lemma {:induction false} MutateAllKeepsRest(tk: Tekton, ms: Mutators, run: Run)
    ensures MutateAll(tk, ms, run).run.rest == run.rest && MutateAll(tk, ms, run).run.status == run.status
    decreases ms
  {
    if ms != [] {
      MutateFailureAtomicity(tk, ms[0], run);
      MutateAllKeepsRest(tk, ms[1..], MutateOutcome(tk, ms[0], run).run);
    }
  }

  // --------------------------------------------------------------------- the stored object

  function TextAt(text: Option<string>): Option<Value> {
    if text.None? then None else Some(Str(text.value))
  }

  lemma EncodedLabels(run: Run, k: string)
    ensures Lookup(Encode(run), ["metadata", "labels", k]) == TextAt(Get(run.labels, k))
  {
    NamesDiffer();
    EncodeMembers(run);
    LookupTwo(Encode(run), ["metadata", "labels", k]);
    assert ["metadata", "labels", k][2..] == [k];
    LookupStrings(run.labels, k);
  }

  lemma EncodedAnnotation(run: Run, k: string)
    ensures Lookup(Encode(run), ["metadata", "annotations", k]) == TextAt(Get(run.annotations, k))
  {
    NamesDiffer();
    EncodeMembers(run);
    LookupTwo(Encode(run), ["metadata", "annotations", k]);
    assert ["metadata", "annotations", k][2..] == [k];
    LookupStrings(run.annotations, k);
  }

  lemma EncodedSpec(run: Run)
    requires run.status != ""
    ensures Lookup(Encode(run), ["spec", "status"]) == Some(Str(run.status))
    ensures Lookup(Encode(run), ["spec", "managedBy"]) == TextAt(run.managedBy)
  {
    NamesDiffer();
    EncodeMembers(run);
    LookupTwo(Encode(run), ["spec", "status"]);
    LookupTwo(Encode(run), ["spec", "managedBy"]);
  }

  lemma LookupStrings(m: StringMap, k: string)
    ensures Get(m, k) == None || HasSome(m)
    ensures m.Some? ==> Lookup(StringsObject(m.value), [k]) == TextAt(Get(m, k))
  {
    assert [k][1..] == [];
  }

  /** The run the defaulter leaves. */
  function Final(tk: Tekton, s: Contents, run: Run): Run {
    DefaultOutcome(tk, s, run).run
  }

  /**
    The run was admitted, `ps` turns the submitted document into the defaulted run, and `stored` is
    what the filtered list makes of it. A list rewrites the root, `metadata` or `spec` as a whole only
    when the submitted document lacks one of these objects.
   */
  ghost predicate Stores(tk: Tekton, s: Contents, raw: Value, run: Run, ps: seq<Patch>, stored: Value) {
    && s.config.Some? && DefaultOutcome(tk, s, run).response == Admitted
    && (Shaped(raw) ==> NoEnclosing(ps))
    && ApplyAll(raw, ps) == Some(Encode(Final(tk, s, run)))
    && ApplyAll(raw, Filter(ps)) == Some(stored)
  }

  /**
    What the cluster stores: the admitted labels, annotations, status and managedBy, and every other
    location exactly as submitted, so no zero value leaks out of the Go structs.
   */
  lemma StoredObject(tk: Tekton, s: Contents, raw: Value, run: Run, ps: seq<Patch>, k: string)
    requires Shaped(raw) && NoEnclosing(ps)
    requires s.config.Some? && DefaultOutcome(tk, s, run).response == Admitted
    requires ApplyAll(raw, ps) == Some(Encode(Final(tk, s, run)))
    ensures ApplyAll(raw, Filter(ps)).Some?
    ensures var stored, final := ApplyAll(raw, Filter(ps)).value, Final(tk, s, run);
            && Lookup(stored, ["metadata", "labels", k]) == TextAt(Get(final.labels, k))
            && Lookup(stored, ["metadata", "annotations", k]) == TextAt(Get(final.annotations, k))
            && Lookup(stored, ["spec", "status"]) == Some(Str(PENDING))
            && Lookup(stored, ["spec", "managedBy"]) == TextAt(final.managedBy)
            && (forall path :: !Encloses(path) && !AllowedTokens(path) ==> Lookup(stored, path) == Lookup(raw, path))
  {
    var final := Final(tk, s, run);
    FilterRefinesPatch(raw, ps);
    DefaultKeepsRest(tk, s, run);
    EncodedLabels(final, k);
    EncodedAnnotation(final, k);
    EncodedSpec(final);
    SplicedFields(raw, Encode(final), ApplyAll(raw, Filter(ps)).value, k);
  }

  /** Such a patch list always exists. */
  lemma StoredObjectIsReachable(tk: Tekton, s: Contents, raw: Value, run: Run) returns (ps: seq<Patch>)
    requires Shaped(raw)
    ensures NoEnclosing(ps) && ApplyAll(raw, ps) == Some(Encode(Final(tk, s, run)))
  {
    var final := DefaultOutcome(tk, s, run).run;
    EncodeMembers(final);
    ps := LocalPatchExists(raw, Encode(final));
  }

  lemma SplicedFields(raw: Value, full: Value, kept: Value, k: string)
    requires Spliced(raw, full, kept)
    ensures Lookup(kept, ["metadata", "labels", k]) == Lookup(full, ["metadata", "labels", k])
    ensures Lookup(kept, ["metadata", "annotations", k]) == Lookup(full, ["metadata", "annotations", k])
    ensures Lookup(kept, ["spec", "status"]) == Lookup(full, ["spec", "status"])
    ensures Lookup(kept, ["spec", "managedBy"]) == Lookup(full, ["spec", "managedBy"])
    ensures forall path :: !Encloses(path) && !AllowedTokens(path) ==> Lookup(kept, path) == Lookup(raw, path)
  {
    SplicedAt(raw, full, kept, ["metadata", "labels", k]);
    SplicedAt(raw, full, kept, ["metadata", "annotations", k]);
    SplicedAt(raw, full, kept, ["spec", "status"]);
    SplicedAt(raw, full, kept, ["spec", "managedBy"]);
  }

  lemma SplicedAt(raw: Value, full: Value, kept: Value, path: seq<string>)
    requires Spliced(raw, full, kept) && AllowedTokens(path)
    ensures Lookup(kept, path) == Lookup(full, path)
  {
    assert !Encloses(path);
  }

  // --------------------------------------------------------- reading the stored object back

  function TextOf(v: Option<Value>): Option<string> {
    if v.Some? && v.value.Str? then Some(v.value.s) else None
  }

  /** `spec.status` as the controllers read it; an absent one is the empty string. */
  function StoredStatus(doc: Value): string {
    var text := TextOf(Lookup(doc, ["spec", "status"]));
    if text.None? then "" else text.value
  }

  function StoredManagedBy(doc: Value): Option<string> {
    TextOf(Lookup(doc, ["spec", "managedBy"]))
  }

  function StringsOf(v: Option<Value>): map<string, string> {
    if v.Some? && v.value.Obj? then map k | k in v.value.fields && v.value.fields[k].Str? :: v.value.fields[k].s
    else map[]
  }

  function StoredAnnotations(doc: Value): map<string, string> {
    StringsOf(Lookup(doc, ["metadata", "annotations"]))
  }

  lemma StringsRoundTrip(m: map<string, string>)
    ensures StringsOf(Some(StringsObject(m))) == m
  {
  }

  lemma EncodedAnnotations(run: Run)
    ensures StoredAnnotations(Encode(run)) == Annotations(run)
  {
    NamesDiffer();
    EncodeMembers(run);
    LookupTwo(Encode(run), ["metadata", "annotations"]);
    if HasSome(run.annotations) {
      StringsRoundTrip(run.annotations.value);
    }
  }

  /** From a document with metadata and spec, the controllers read exactly what was admitted. */
  lemma StoredReads(tk: Tekton, s: Contents, raw: Value, run: Run, ps: seq<Patch>, stored: Value)
    requires Shaped(raw) && Stores(tk, s, raw, run, ps, stored)
    ensures StoredStatus(stored) == PENDING
    ensures StoredManagedBy(stored) == Final(tk, s, run).managedBy
    ensures StoredAnnotations(stored) == Annotations(Final(tk, s, run))
  {
    var final := Final(tk, s, run);
    FilterRefinesPatch(raw, ps);
    DefaultKeepsRest(tk, s, run);
    EncodedSpec(final);
    EncodedAnnotations(final);
    SplicedAt(raw, Encode(final), stored, ["spec", "status"]);
    SplicedAt(raw, Encode(final), stored, ["spec", "managedBy"]);
    SplicedAt(raw, Encode(final), stored, ["metadata", "annotations"]);
  }

  // --------------------------------------------------------------------------- the quota

  /** The requests for `k` after its last plain write. */
  function TailRequests(ms: seq<MutationRequest>, k: string): (tail: seq<MutationRequest>)
    ensures NoPlain(tail, k)
  {
    ms[PlainCut(ms, k)..]
  }

  /** Accepted resource requests leave a printed 64-bit int. */
  lemma StoredInt(user: Option<string>, reqs: seq<MutationRequest>, k: string)
    requires Amounts(TailRequests(reqs, k), k) != [] && AnnotationAfter(user, reqs, k).Ok?
    ensures var text := AnnotationAfter(user, reqs, k).value;
            && text.Some? && CellOf(text).Int? && InInt64(CellOf(text).n) && text.value == Itoa(CellOf(text).n)
            && Ok(text) == AnnotationAfter(StartText(user, reqs, k), TailRequests(reqs, k), k)
  {
    AfterLastPlainWrite(user, reqs, k);
    TextRefinesCells(StartText(user, reqs, k), TailRequests(reqs, k), k);
    CellInRange(AnnotationAfter(user, reqs, k).value);
  }

  /** The value the requests for `k` should add up to. */
  function Expected(user: Option<string>, reqs: seq<MutationRequest>, k: string): int {
    Worth(CellOf(StartText(user, reqs, k))) + Sum(Amounts(TailRequests(reqs, k), k))
  }

  /** Whatever the requests left in the annotations, an accepted quantity is the expected sum. */
  lemma AcceptedQuantityIsExact(parse: QuantityParser, user: Option<string>, reqs: seq<MutationRequest>,
                                                   annotations: map<string, string>, m: map<string, real>, name: string)
    requires ReadsInts(parse) && IsRequestList(parse, annotations, m)
    requires var k := REQUESTS_PREFIX + name;
             AnnotationAfter(user, reqs, k) == Ok(Get(Some(annotations), k)) && Amounts(TailRequests(reqs, k), k) != []
    ensures var k := REQUESTS_PREFIX + name;
            && Good(CellOf(StartText(user, reqs, k)))
            && name in m && m[name] == Expected(user, reqs, k) as real
  {
    var k := REQUESTS_PREFIX + name;
    StoredInt(user, reqs, k);
    var n := CellOf(Some(annotations[k])).n;
    assert parse(Itoa(n)) == Some(n as real);
    assert name != TOKEN;
    assert m[name] == n as real;
    SumIsExact(StartText(user, reqs, k), TailRequests(reqs, k), k);
    AtoiItoa(Expected(user, reqs, k));
  }

  /**
    Exact quota: when the controller accepts the annotations of a stored run, Kueue is asked for the
    mathematical sum of the start value and of all later resource requests, for every resource that has
    one; the start value is absent or a non-negative int; and exactly one PipelineRun is asked for.
   */
  lemma QuotaIsExact(tk: Tekton, s: Contents, raw: Value, run: Run, ps: seq<Patch>, stored: Value,
                                        parse: QuantityParser, m: map<string, real>, name: string)
    requires Shaped(raw) && Stores(tk, s, raw, run, ps, stored)
    requires ReadsInts(parse) && IsRequestList(parse, StoredAnnotations(stored), m)
    ensures m[TOKEN] == 1.0
    ensures var k, reqs := REQUESTS_PREFIX + name, Applying(tk, s, run);
            Amounts(TailRequests(reqs, k), k) != [] ==>
              && Good(CellOf(StartText(Get(run.annotations, k), reqs, k)))
              && name in m && m[name] == Expected(Get(run.annotations, k), reqs, k) as real
  {
    var k := REQUESTS_PREFIX + name;
    var reqs, final := Applying(tk, s, run), Final(tk, s, run);
    StoredReads(tk, s, raw, run, ps, stored);
    AdmittedAnnotation(tk, s, run, k);
    if Amounts(TailRequests(reqs, k), k) != [] {
      AcceptedQuantityIsExact(parse, Get(run.annotations, k), reqs, Annotations(final), m, name);
    }
  }

  lemma AdmittedAnnotation(tk: Tekton, s: Contents, run: Run, k: string)
    requires s.config.Some? && DefaultOutcome(tk, s, run).response == Admitted
    ensures AnnotationAfter(Get(run.annotations, k), Applying(tk, s, run), k) ==
            Ok(Get(Some(Annotations(Final(tk, s, run))), k))
  {
    AdmissionClosedForm(tk, s, run);
    assert Get(Final(tk, s, run).annotations, k) == Get(Some(Annotations(Final(tk, s, run))), k);
  }

  /**
    After the requests, the annotation is accepted exactly when the start value is good and the
    sum fits in 64 bits.
   */
  lemma AnnotationAcceptedIff(parse: QuantityParser, user: Option<string>, reqs: seq<MutationRequest>, name: string)
    requires ReadsInts(parse) && name != "" && name != TOKEN
    requires var k := REQUESTS_PREFIX + name;
             && AnnotationAfter(user, reqs, k).Ok?
             && Amounts(TailRequests(reqs, k), k) != [] && NonNegative(Amounts(TailRequests(reqs, k), k))
    ensures var k := REQUESTS_PREFIX + name;
            && AnnotationAfter(user, reqs, k).value.Some?
            && (ParseAnnotation(parse, k, AnnotationAfter(user, reqs, k).value.value).Ok? <==>
                  Good(CellOf(StartText(user, reqs, k))) && Expected(user, reqs, k) < TWO_63)
  {
    var k := REQUESTS_PREFIX + name;
    StoredInt(user, reqs, k);
    IntAnnotation(parse, name, CellOf(AnnotationAfter(user, reqs, k).value).n);
    AcceptedIff(StartText(user, reqs, k), TailRequests(reqs, k), k);
  }

  /**
    Exactly when the controller takes the sum of built requests: the annotation of a resource in a
    stored run is accepted if and only if its start value is a non-negative int or absent and the
    mathematical sum fits in 64 bits. An overflow the webhook lets through is always refused here.
   */
  lemma QuotaAcceptsIff(tk: Tekton, s: Contents, raw: Value, run: Run, ps: seq<Patch>, stored: Value,
                                           parse: QuantityParser, name: string)
    requires Shaped(raw) && Stores(tk, s, raw, run, ps, stored)
    requires ReadsInts(parse) && name != "" && name != TOKEN
    ensures var k, annotations := REQUESTS_PREFIX + name, StoredAnnotations(stored);
            var user, reqs := Get(run.annotations, k), Applying(tk, s, run);
            Amounts(TailRequests(reqs, k), k) != [] && NonNegative(Amounts(TailRequests(reqs, k), k)) ==>
            && k in annotations
            && (ParseAnnotation(parse, k, annotations[k]).Ok? <==>
                  Good(CellOf(StartText(user, reqs, k))) && Expected(user, reqs, k) < TWO_63)
  {
    var k := REQUESTS_PREFIX + name;
    StoredReads(tk, s, raw, run, ps, stored);
    AdmittedAnnotation(tk, s, run, k);
    var vs := Amounts(TailRequests(Applying(tk, s, run), k), k);
    if vs != [] && NonNegative(vs) {
      AnnotationAcceptedIff(parse, Get(run.annotations, k), Applying(tk, s, run), name);
    }
  }

  /**
    One `resource(key, n)` call, built, converted, applied to a run without that annotation, and
    read by the controller.
   */
  lemma ResourceCallReachesQuota(nm: Naming, parse: QuantityParser, run: Run, key: string, n: int)
    requires ReadsInts(parse) && 0 <= n < TWO_63 && ValidKey(nm, key) && key != TOKEN
    requires Get(run.annotations, REQUESTS_PREFIX + key) == None
    ensures var built := Build(nm, ResourceCall(key, n));
            && built.Some?
            && Convert(built.value).Ok?
            && var a := Fold(run, Convert(built.value).value);
               && a.error.None?
               && var text := Get(a.run.annotations, REQUESTS_PREFIX + key);
                  && text == Some(Itoa(n))
                  && ParseAnnotation(parse, REQUESTS_PREFIX + key, text.value) == Ok(Some(Entry(key, n as real)))
  {
    ResourceBuildsIff(nm, key, n);
    BuildConvertRoundTrip(nm, ResourceCall(key, n));
    var m := Meaning(ResourceCall(key, n));
    FoldOne(run, m);
    AtoiItoa(n);
    IntAnnotation(parse, key, n);
  }

  // ---------------------------------------------------------------------------- the life

  /** The stored object as the controllers first see it; its status subresource is still empty. */
  function FirstVersion(stored: Value): Lifecycle.Job {
    Lifecycle.Job(StoredStatus(stored), None, StoredManagedBy(stored))
  }

  /** Without a spec object in the submission there is no status in the stored one. */
  lemma GapStoresNoStatus(raw: Value, ps: seq<Patch>, stored: Value)
    requires raw.Obj? && NotAnObject(raw, "spec") && ApplyAll(raw, Filter(ps)) == Some(stored)
    ensures Lookup(stored, ["spec", "status"]) == None
  {
    FilteredKeepsGap(raw, ps, "spec");
    GapHidesMember(stored, "spec", "status");
  }

  /**
    Exactly when an admitted run is stored suspended: for an object with metadata, if and only if it
    was submitted with a spec object too. Otherwise the run is stored running, past Kueue.
   */
  lemma StoredSuspendedIff(tk: Tekton, s: Contents, raw: Value, run: Run, ps: seq<Patch>, stored: Value)
    requires raw.Obj? && !NotAnObject(raw, "metadata") && Stores(tk, s, raw, run, ps, stored)
    ensures Lifecycle.IsSuspended(FirstVersion(stored)) <==> Shaped(raw)
    ensures !Shaped(raw) ==> StoredStatus(stored) == RUNNING
  {
    assert PENDING != RUNNING;
    if Shaped(raw) {
      StoredReads(tk, s, raw, run, ps, stored);
    } else {
      GapStoresNoStatus(raw, ps, stored);
    }
  }

  lemma {:induction false} FilteredIsAllowed(ps: seq<Patch>, p: Patch)
    requires p in Filter(ps)
    ensures p in ps && Allowed(p.path)
  {
    if ps != [] && !(Allowed(ps[0].path) && p == ps[0]) {
      FilteredIsAllowed(ps[1..], p);
    }
  }

  /** If nothing differs in `spec`, whatever the filter keeps is below `metadata`. */
  lemma KeptIsInMetadata(ps: seq<Patch>, doc: Value, target: Value)
    requires WritesDifferences(ps, doc, target) && Child(doc, "spec") == Child(target, "spec")
    ensures forall i :: 0 <= i < |Filter(ps)| ==> InMetadata(Filter(ps)[i])
  {
    forall i | 0 <= i < |Filter(ps)| ensures InMetadata(Filter(ps)[i]) {
      var p := Filter(ps)[i];
      FilteredIsAllowed(ps, p);
      var j :| 0 <= j < |ps| && ps[j] == p;
      assert WritesDifference(ps[j], doc, target);
      var path :| IsPlace(path) && ps[j].path == Render(path) && Lookup(doc, path) != Lookup(target, path);
      ParseRender(path);
      AllowedOnTokens(path);
      LookupPlace(doc, path);
      LookupPlace(target, path);
    }
  }

  /** A list that creates `spec` whole and then works below `metadata` only; filtered, it still applies. */
  lemma CreateSpecList(raw: Value, target: Value) returns (ps: seq<Patch>)
    requires raw.Obj? && !NotAnObject(raw, "metadata") && Shaped(target)
    ensures ApplyAll(raw, ps) == Some(target)
    ensures ApplyAll(raw, Filter(ps)).Some?
  {
    NamesDiffer();
    var spec := target.fields["spec"];
    var created := Obj(raw.fields["spec" := spec]);
    var rest := LocalPatchExists(created, target);
    var create := Patch(Add, "/spec", spec);
    SpecPointer();
    ps := [create] + rest;
    assert ps[1..] == rest;
    assert ApplyPatch(raw, create) == Some(created);
    assert Filter(ps) == Filter(rest);
    FilterRefinesPatch(created, rest);
    KeptIsInMetadata(rest, created, target);
    MetadataPatchesAreLocal(created, raw, Filter(rest));
  }

  /**
    The loss happens for every run: whatever is admitted from an object with metadata but without a
    spec object, some patch list produces the defaulted run, and filtered it still applies and stores
    the run unsuspended.
   */
  lemma SuspensionIsLost(tk: Tekton, s: Contents, raw: Value, run: Run)
    returns (ps: seq<Patch>, stored: Value)
    requires raw.Obj? && !NotAnObject(raw, "metadata") && NotAnObject(raw, "spec")
    requires s.config.Some? && DefaultOutcome(tk, s, run).response == Admitted
    ensures Stores(tk, s, raw, run, ps, stored)
    ensures StoredStatus(stored) == RUNNING && !Lifecycle.IsSuspended(FirstVersion(stored))
  {
    EncodeMembers(Final(tk, s, run));
    ps := CreateSpecList(raw, Encode(Final(tk, s, run)));
    stored := ApplyAll(raw, Filter(ps)).value;
    StoredSuspendedIff(tk, s, raw, run, ps, stored);
  }

  /**
    The life of every stored run, under every interleaving: its status only moves forward, `Stop`
    succeeds and the pending mark is written at most once; and it starts suspended, with the admitted
    managedBy, if it was submitted with a spec object.
   */
  lemma StoredRunLife(tk: Tekton, s: Contents, raw: Value, run: Run, ps: seq<Patch>, stored: Value,
                                         attempts: seq<Lifecycle.Attempt>)
    requires raw.Obj? && !NotAnObject(raw, "metadata") && Stores(tk, s, raw, run, ps, stored)
    ensures var first := FirstVersion(stored);
            var h := Lifecycle.Exec([first], attempts);
            && (Lifecycle.IsSuspended(first) <==> Shaped(raw))
            && (Shaped(raw) ==> first.managedBy == Final(tk, s, run).managedBy)
            && Lifecycle.CountStops([first], attempts) <= 1
            && Lifecycle.CountPending([first], attempts) <= 1
            && (forall i, j :: 0 <= i <= j < |h| ==> Lifecycle.Rank(h[i].status) <= Lifecycle.Rank(h[j].status) <= 2)
  {
    StoredSuspendedIff(tk, s, raw, run, ps, stored);
    if Shaped(raw) {
      StoredReads(tk, s, raw, run, ps, stored);
    }
    LifeFrom(FirstVersion(stored), attempts);
  }

  lemma LifeFrom(first: Lifecycle.Job, attempts: seq<Lifecycle.Attempt>)
    requires Lifecycle.Rank(first.status) <= 2
    ensures Lifecycle.CountStops([first], attempts) <= 1 && Lifecycle.CountPending([first], attempts) <= 1
    ensures var h := Lifecycle.Exec([first], attempts);
            forall i, j :: 0 <= i <= j < |h| ==> Lifecycle.Rank(h[i].status) <= Lifecycle.Rank(h[j].status) <= 2
  {
    var h := Lifecycle.Exec([first], attempts);
    Lifecycle.StopsAtMostOnce([first], attempts);
    Lifecycle.PendingAtMostOnce([first], attempts);
    Lifecycle.ExecKeepsSteps([first], attempts);
    assert h[..1] == [first] && h[0] == h[..1][0];
    forall i, j | 0 <= i <= j < |h| ensures Lifecycle.Rank(h[i].status) <= Lifecycle.Rank(h[j].status) <= 2 {
      Lifecycle.RankGrows(h, i, j);
      assert j > 0 ==> Lifecycle.StepOk(h[j - 1], h[j]);
    }
  }

  // -------------------------------------------------------------- admission under concurrency

  /**
    Whatever the schedule of readers and updaters, an admission that reads the store after something
    was committed never dereferences a nil configuration, fails only as bad request or internal error,
    and, if it admits the run, puts it in a queue that is unnamed only if the user left it so.
   */
  lemma AdmissionUnderConcurrency(ld: Loader, n: nat, schedule: seq<StoreInterleaving.Turn>, t: nat,
                                                     tk: Tekton, run: Run)
    requires t < |StoreInterleaving.Exec(ld, StoreInterleaving.Init(n), schedule).threads|
    requires var th := StoreInterleaving.Exec(ld, StoreInterleaving.Init(n), schedule).threads[t];
             th.Returned? && th.since > 0
    ensures var got := StoreInterleaving.Exec(ld, StoreInterleaving.Init(n), schedule).threads[t].got;
            var o := DefaultOutcome(tk, got, run);
            && o.response in {Admitted, BadRequest, InternalError}
            && (o.response == Admitted ==>
                  && Get(o.run.labels, QUEUE_LABEL).Some?
                  && (Get(o.run.labels, QUEUE_LABEL) == Some("") ==> Get(run.labels, QUEUE_LABEL) == Some("")))
  {
    StoreInterleaving.ReadsAreUsable(ld, n, schedule, t);
    var got := StoreInterleaving.Exec(ld, StoreInterleaving.Init(n), schedule).threads[t].got;
    DefaultErrorsClassified(tk, got, run);
    if DefaultOutcome(tk, got, run).response == Admitted {
      AdmittedRunIsQueued(tk, got, run);
    }
  }
}
