/**
  What a list of requests does to a run, target by target: every label, every
  annotation and `managedBy` evolve independently of one another.
 */
module FoldTheory {
  import opened Prelude
  import opened Runs
  import opened Requests
  import opened Evaluator
  import opened Mutator

  // ------------------------------------------------------- per-target meaning

  datatype Target = OnLabel(key: string) | OnAnnotation(key: string) | OnManagedBy

  predicate Touches(m: MutationRequest, t: Target) {
    match t
    case OnLabel(k) => (m.kind == Label && m.key == k) || (m.kind == MultiKueue && m.value != "" && k == QUEUE_LABEL)
    case OnAnnotation(k) => (m.kind == Annotation || m.kind == Resource) && m.key == k
    case OnManagedBy => m.kind == ManagedBy || m.kind == MultiKueue
  }

  /** The text a label or managedBy write leaves at its target. */
  function Written(m: MutationRequest, t: Target): string {
    if t.OnManagedBy? && m.kind == MultiKueue then MULTI_KUEUE else m.value
  }

  /** The last write to a label or to managedBy. */
  function LastWrite(ms: seq<MutationRequest>, t: Target): Option<string> {
    if ms == [] then None
    else OrElse(LastWrite(ms[1..], t), if Touches(ms[0], t) then Some(Written(ms[0], t)) else None)
  }

  function AnnotationStep(base: Option<string>, m: MutationRequest, k: string): Result<Option<string>, ApplyError> {
    if !Touches(m, OnAnnotation(k)) then Ok(base)
    else if m.kind == Annotation then Ok(Some(m.value))
    else
      var text := AddResource(base, m.value);
      if text.Err? then Err(text.error) else Ok(Some(text.value))
  }

  /** One annotation on its own under all requests. */
  function AnnotationAfter(base: Option<string>, ms: seq<MutationRequest>, k: string)
    : Result<Option<string>, ApplyError>
    decreases ms
  {
    if ms == [] then Ok(base)
    else
      var next := AnnotationStep(base, ms[0], k);
      if next.Err? then next else AnnotationAfter(next.value, ms[1..], k)
  }

  // ------------------------------------------------------------ factorisation

  lemma StepAt(run: Run, m: MutationRequest, k: string)
    requires Step(run, m).error.None?
    ensures var r := Step(run, m).run;
            && Get(r.labels, k) == (if Touches(m, OnLabel(k)) then Some(Written(m, OnLabel(k))) else Get(run.labels, k))
            && r.managedBy == (if Touches(m, OnManagedBy) then Some(Written(m, OnManagedBy)) else run.managedBy)
            && AnnotationStep(Get(run.annotations, k), m, k) == Ok(Get(r.annotations, k))
  {
  }

  lemma {:induction false} FoldAt(run: Run, ms: seq<MutationRequest>, k: string)
    requires Fold(run, ms).error.None?
    ensures var r := Fold(run, ms).run;
            && Get(r.labels, k) == OrElse(LastWrite(ms, OnLabel(k)), Get(run.labels, k))
            && r.managedBy == OrElse(LastWrite(ms, OnManagedBy), run.managedBy)
            && AnnotationAfter(Get(run.annotations, k), ms, k) == Ok(Get(r.annotations, k))
    decreases ms
  {
    if ms != [] {
      StepAt(run, ms[0], k);
      FoldAt(Step(run, ms[0]).run, ms[1..], k);
    }
  }

  /** A failing fold fails at one annotation, which already fails on its own. */
  lemma {:induction false} FoldErrorAt(run: Run, ms: seq<MutationRequest>) returns (k: string)
    requires Fold(run, ms).error.Some?
    ensures AnnotationAfter(Get(run.annotations, k), ms, k).Err?
    decreases ms
  {
    if Step(run, ms[0]).error.Some? {
      k := ms[0].key;
    } else {
      var next := Step(run, ms[0]).run;
      k := FoldErrorAt(next, ms[1..]);
      StepAt(run, ms[0], k);
    }
  }

  predicate HasSome(m: StringMap) {
    m.Some? && m.value != map[]
  }

  /** A map is non-nil afterwards exactly when it was before or when something was written to it. */
  lemma {:induction false} FoldNil(run: Run, ms: seq<MutationRequest>)
    requires Fold(run, ms).error.None?
    ensures var r := Fold(run, ms).run;
            && (r.labels.Some? <==> run.labels.Some? || HasSome(r.labels))
            && (r.annotations.Some? <==> run.annotations.Some? || HasSome(r.annotations))
            && (HasSome(run.labels) ==> HasSome(r.labels))
            && (HasSome(run.annotations) ==> HasSome(r.annotations))
    decreases ms
  {
    if ms != [] {
      var next := Step(run, ms[0]).run;
      StepNil(run, ms[0]);
      FoldNil(next, ms[1..]);
    }
  }

  lemma StepNil(run: Run, m: MutationRequest)
    requires Step(run, m).error.None?
    ensures var r := Step(run, m).run;
            && (r.labels == run.labels || HasSome(r.labels))
            && (r.annotations == run.annotations || HasSome(r.annotations))
  {
    PutHasSome(run.labels, m.key, m.value);
    PutHasSome(run.labels, QUEUE_LABEL, m.value);
    PutHasSome(run.annotations, m.key, m.value);
    if m.kind == Resource {
      PutHasSome(run.annotations, m.key, AddResource(Get(run.annotations, m.key), m.value).value);
    }
  }

  lemma PutHasSome(m: StringMap, k: string, v: string)
    ensures HasSome(Put(m, k, v))
  {
    assert k in Put(m, k, v).value;
  }

  lemma SameReadsSameHasSome(a: StringMap, b: StringMap)
    requires forall k :: Get(a, k) == Get(b, k)
    ensures HasSome(a) == HasSome(b)
  {
    if HasSome(a) {
      var k :| k in a.value;
      assert Get(b, k) == Get(a, k);
    }
    if HasSome(b) {
      var k :| k in b.value;
      assert Get(a, k) == Get(b, k);
    }
  }

  /** Success, and on success the whole run, is fixed by what each target sees. */
  ghost predicate SameEffects(run: Run, ms: seq<MutationRequest>, ns: seq<MutationRequest>) {
    && (forall k :: AnnotationAfter(Get(run.annotations, k), ms, k) == AnnotationAfter(Get(run.annotations, k), ns, k))
    && (forall k :: LastWrite(ms, OnLabel(k)) == LastWrite(ns, OnLabel(k)))
    && LastWrite(ms, OnManagedBy) == LastWrite(ns, OnManagedBy)
  }

  ghost predicate SameOutcome(a: Applied, b: Applied) {
    a.error.None? == b.error.None? && (a.error.None? ==> a.run == b.run)
  }

  /** Factorisation: the fold succeeds exactly when every annotation does on its own. */
  lemma FoldSucceedsIff(run: Run, ms: seq<MutationRequest>)
    ensures Fold(run, ms).error.None? <==> forall k :: AnnotationAfter(Get(run.annotations, k), ms, k).Ok?
  {
    if Fold(run, ms).error.None? {
      forall k ensures AnnotationAfter(Get(run.annotations, k), ms, k).Ok? {
        FoldAt(run, ms, k);
      }
    } else {
      var k := FoldErrorAt(run, ms);
    }
  }

  lemma FoldDetermined(run: Run, ms: seq<MutationRequest>, ns: seq<MutationRequest>)
    requires SameEffects(run, ms, ns)
    ensures SameOutcome(Fold(run, ms), Fold(run, ns))
  {
    FoldSucceedsIff(run, ms);
    FoldSucceedsIff(run, ns);
    if Fold(run, ms).error.None? {
      var a, b := Fold(run, ms).run, Fold(run, ns).run;
      forall k ensures Get(a.labels, k) == Get(b.labels, k) && Get(a.annotations, k) == Get(b.annotations, k) {
        FoldAt(run, ms, k);
        FoldAt(run, ns, k);
      }
      FoldAt(run, ms, "");
      FoldAt(run, ns, "");
      FoldNil(run, ms);
      FoldNil(run, ns);
      SameReadsSameHasSome(a.labels, b.labels);
      SameReadsSameHasSome(a.annotations, b.annotations);
      SameReadsSameMap(a.labels, b.labels);
      SameReadsSameMap(a.annotations, b.annotations);
      FoldFrame(run, ms);
      FoldFrame(run, ns);
    }
  }

  // ------------------------------------------------------------ order of requests

  /** The requests that touch one target, in order. */
  function Project(ms: seq<MutationRequest>, t: Target): seq<MutationRequest> {
    if ms == [] then []
    else (if Touches(ms[0], t) then [ms[0]] else []) + Project(ms[1..], t)
  }

  lemma {:induction false} ProjectedWrite(ms: seq<MutationRequest>, t: Target)
    ensures LastWrite(Project(ms, t), t) == LastWrite(ms, t)
  {
    if ms != [] {
      ProjectedWrite(ms[1..], t);
      if Touches(ms[0], t) {
        assert Project(ms, t)[1..] == Project(ms[1..], t);
      } else {
        assert Project(ms, t) == Project(ms[1..], t);
      }
    }
  }

  lemma {:induction false} ProjectedAnnotation(base: Option<string>, ms: seq<MutationRequest>, k: string)
    ensures AnnotationAfter(base, Project(ms, OnAnnotation(k)), k) == AnnotationAfter(base, ms, k)
    decreases ms
  {
    if ms != [] {
      var t := OnAnnotation(k);
      if Touches(ms[0], t) {
        assert Project(ms, t)[1..] == Project(ms[1..], t);
        var next := AnnotationStep(base, ms[0], k);
        if next.Ok? {
          ProjectedAnnotation(next.value, ms[1..], k);
        }
      } else {
        assert Project(ms, t) == Project(ms[1..], t);
        ProjectedAnnotation(base, ms[1..], k);
      }
    }
  }

  /** Requests may be reordered freely as long as each target sees its own requests in the same order. */
  lemma OrderIndependence(run: Run, ms: seq<MutationRequest>, ns: seq<MutationRequest>)
    requires forall t: Target :: Project(ms, t) == Project(ns, t)
    ensures SameOutcome(Fold(run, ms), Fold(run, ns))
  {
    forall k ensures AnnotationAfter(Get(run.annotations, k), ms, k) == AnnotationAfter(Get(run.annotations, k), ns, k)
    {
      ProjectedAnnotation(Get(run.annotations, k), ms, k);
      ProjectedAnnotation(Get(run.annotations, k), ns, k);
      assert Project(ms, OnAnnotation(k)) == Project(ns, OnAnnotation(k));
    }
    SameProjectionSameWrite(ms, ns);
    FoldDetermined(run, ms, ns);
  }

  lemma SameProjectionSameWrite(ms: seq<MutationRequest>, ns: seq<MutationRequest>)
    requires forall t: Target :: !t.OnAnnotation? ==> Project(ms, t) == Project(ns, t)
    ensures forall t: Target :: !t.OnAnnotation? ==> LastWrite(ms, t) == LastWrite(ns, t)
  {
    forall t: Target | !t.OnAnnotation? ensures LastWrite(ms, t) == LastWrite(ns, t) {
      ProjectedWrite(ms, t);
      ProjectedWrite(ns, t);
    }
  }

  lemma {:induction false} ProjectConcat(ms: seq<MutationRequest>, ns: seq<MutationRequest>, t: Target)
    ensures Project(ms + ns, t) == Project(ms, t) + Project(ns, t)
  {
    if ms == [] {
      assert ms + ns == ns;
    } else {
      assert (ms + ns)[1..] == ms[1..] + ns;
      ProjectConcat(ms[1..], ns, t);
    }
  }

  /** Adjacent requests without a common target commute, wherever they stand. */
  lemma AdjacentCommute(run: Run, pre: seq<MutationRequest>, a: MutationRequest, b: MutationRequest,
                        post: seq<MutationRequest>)
    requires forall t: Target :: !(Touches(a, t) && Touches(b, t))
    ensures SameOutcome(Fold(run, pre + [a, b] + post), Fold(run, pre + [b, a] + post))
  {
    forall t: Target ensures Project(pre + [a, b] + post, t) == Project(pre + [b, a] + post, t) {
      ProjectConcat(pre + [a, b], post, t);
      ProjectConcat(pre, [a, b], t);
      ProjectConcat(pre + [b, a], post, t);
      ProjectConcat(pre, [b, a], t);
      ProjectPair(a, b, t);
    }
    OrderIndependence(run, pre + [a, b] + post, pre + [b, a] + post);
  }

  lemma ProjectPair(a: MutationRequest, b: MutationRequest, t: Target)
    requires !(Touches(a, t) && Touches(b, t))
    ensures Project([a, b], t) == Project([b, a], t)
  {
  }

  // ------------------------------------------------------------------ idempotence

  predicate NoResources(ms: seq<MutationRequest>) {
    forall i :: 0 <= i < |ms| ==> ms[i].kind != Resource
  }

  lemma {:induction false} PlainAnnotation(base: Option<string>, ms: seq<MutationRequest>, k: string)
    requires NoResources(ms)
    ensures AnnotationAfter(base, ms, k) == Ok(OrElse(LastWrite(ms, OnAnnotation(k)), base))
    decreases ms
  {
    if ms != [] {
      var next := AnnotationStep(base, ms[0], k);
      assert NoResources(ms[1..]);
      PlainAnnotation(next.value, ms[1..], k);
    }
  }

  /** Without resource requests, applying a list never fails and applying it again changes nothing. */
  lemma PlainFoldIdempotent(run: Run, ms: seq<MutationRequest>)
    requires NoResources(ms)
    ensures var once := Fold(run, ms); once.error.None? && Fold(once.run, ms) == once
  {
    forall k ensures AnnotationAfter(Get(run.annotations, k), ms, k).Ok? {
      PlainAnnotation(Get(run.annotations, k), ms, k);
    }
    FoldSucceedsIff(run, ms);
    var once := Fold(run, ms).run;
    forall k ensures AnnotationAfter(Get(once.annotations, k), ms, k).Ok? {
      PlainAnnotation(Get(once.annotations, k), ms, k);
    }
    FoldSucceedsIff(once, ms);
    var twice := Fold(once, ms).run;
    forall k
      ensures Get(twice.labels, k) == Get(once.labels, k)
      ensures Get(twice.annotations, k) == Get(once.annotations, k)
    {
      FoldAt(run, ms, k);
      FoldAt(once, ms, k);
      PlainAnnotation(Get(run.annotations, k), ms, k);
      PlainAnnotation(Get(once.annotations, k), ms, k);
    }
    FoldAt(run, ms, "");
    FoldAt(once, ms, "");
    FoldNil(run, ms);
    FoldNil(once, ms);
    SameReadsSameHasSome(once.labels, twice.labels);
    SameReadsSameHasSome(once.annotations, twice.annotations);
    SameReadsSameMap(once.labels, twice.labels);
    SameReadsSameMap(once.annotations, twice.annotations);
    FoldFrame(once, ms);
  }
}
