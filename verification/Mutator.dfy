/** Applying mutation requests to a PipelineRun in place (internal/cel/mutator.go). */
module Mutator {
  import opened Prelude
  import opened Runs
  import opened Requests
  import opened Evaluator
  import opened Traversal
  import opened Decimal

  // ----------------------------------------------------------- one request

  /** The run after a request was applied; on an error, as far as it got. */
  datatype Applied = Applied(run: Run, error: Option<ApplyError>)

  function MadeMap(m: StringMap): StringMap {
    if m.None? then Some(map[]) else m
  }

  /** The new text of a resource annotation, summed in Go's wrapping 64-bit int. */
  function AddResource(existing: Option<string>, value: string): Result<string, ApplyError> {
    var n := Atoi(value);
    if n.None? then Err(BadNewValue)
    else if existing.None? then Ok(Itoa(n.value))
    else
      var e := Atoi(existing.value);
      if e.None? then Err(BadExistingValue)
      else if e.value < 0 then Err(NegativeExistingValue)
      else Ok(Itoa(Wrap64(n.value + e.value)))
  }

  /** Which error a refused sum gives: the new value is looked at first, then the stored one. */
  lemma ResourceErrors(existing: Option<string>, value: string)
    ensures AddResource(existing, value) == Err(BadNewValue) <==> Atoi(value).None?
    ensures AddResource(existing, value) == Err(BadExistingValue) <==>
            Atoi(value).Some? && existing.Some? && Atoi(existing.value).None?
    ensures AddResource(existing, value) == Err(NegativeExistingValue) <==>
            Atoi(value).Some? && existing.Some? && Atoi(existing.value).Some? && Atoi(existing.value).value < 0
  {
  }

  function Step(run: Run, m: MutationRequest): Applied {
    match m.kind
    case Label => Applied(run.(labels := Put(run.labels, m.key, m.value)), None)
    case Annotation => Applied(run.(annotations := Put(run.annotations, m.key, m.value)), None)
    case Resource =>
      var text := AddResource(Get(run.annotations, m.key), m.value);
      if text.Err? then Applied(run.(annotations := MadeMap(run.annotations)), Some(text.error))
      else Applied(run.(annotations := Put(run.annotations, m.key, text.value)), None)
    case ManagedBy => Applied(run.(managedBy := Some(m.value)), None)
    case MultiKueue =>
      var routed := run.(managedBy := Some(MULTI_KUEUE));
      Applied(if m.value == "" then routed else routed.(labels := Put(run.labels, QUEUE_LABEL, m.value)), None)
  }

  /** `mutate`. */
  method ApplyMutation(run: PipelineRun, m: MutationRequest) returns (error: Option<ApplyError>)
    modifies run
    ensures Applied(run.View(), error) == Step(old(run.View()), m)
  {
    match m.kind {
      case Label =>
        if run.labels.None? { run.labels := Some(map[]); }
        run.labels := Some(run.labels.value[m.key := m.value]);
      case Annotation =>
        if run.annotations.None? { run.annotations := Some(map[]); }
        run.annotations := Some(run.annotations.value[m.key := m.value]);
      case Resource =>
        if run.annotations.None? { run.annotations := Some(map[]); }
        var n := Atoi(m.value);
        if n.None? { return Some(BadNewValue); }
        var newValue := n.value;
        if m.key in run.annotations.value {
          var existing := Atoi(run.annotations.value[m.key]);
          if existing.None? { return Some(BadExistingValue); }
          if existing.value < 0 { return Some(NegativeExistingValue); }
          newValue := Wrap64(newValue + existing.value);
        }
        run.annotations := Some(run.annotations.value[m.key := Itoa(newValue)]);
      case ManagedBy =>
        run.managedBy := Some(m.value);
      case MultiKueue =>
        run.managedBy := Some(MULTI_KUEUE);
        if m.value != "" {
          if run.labels.None? { run.labels := Some(map[]); }
          run.labels := Some(run.labels.value[QUEUE_LABEL := m.value]);
        }
    }
    return None;
  }

  // ------------------------------------------------------------- many requests

  function Fold(run: Run, ms: seq<MutationRequest>): Applied
    decreases ms
  {
    if ms == [] then Applied(run, None)
    else
      var next := Step(run, ms[0]);
      if next.error.Some? then next else Fold(next.run, ms[1..])
  }

  /** Folding a concatenation is folding its parts in turn. */
  lemma {:induction false} FoldConcat(run: Run, ms: seq<MutationRequest>, ns: seq<MutationRequest>)
    ensures var a := Fold(run, ms);
            Fold(run, ms + ns) == if a.error.Some? then a else Fold(a.run, ns)
    decreases ms
  {
    if ms == [] {
      assert ms + ns == ns;
    } else {
      var all := ms + ns;
      assert all[0] == ms[0] && all[1..] == ms[1..] + ns;
      var next := Step(run, ms[0]);
      if next.error.None? {
        FoldConcat(next.run, ms[1..], ns);
      }
    }
  }

  lemma FoldOne(run: Run, m: MutationRequest)
    ensures Fold(run, [m]) == Step(run, m)
  {
  }

  // ------------------------------------------------------------------- Mutate

  /** The requests of one mutator: all programs against one defaulted, validated copy. */
  function RequestsFor(tk: Tekton, ps: seq<Program>, run: Run): Result<seq<MutationRequest>, MutateError> {
    if ps == [] then Ok([])
    else
      var snapshot := tk.setDefaults(run);
      if !tk.validates(snapshot) then Err(ValidationError(InvalidSpec)) else EvaluateAll(tk, ps, snapshot)
  }

  /**
    What one mutator asks for: nothing without programs; otherwise it needs the defaulted copy to
    validate and marshal and every item of every program to be applicable, and then asks for exactly
    these items, in program order.
   */
  lemma RequestsForIff(tk: Tekton, ps: seq<Program>, run: Run)
    ensures var r, copy := RequestsFor(tk, ps, run), tk.setDefaults(run);
            var xs := AllOutput(ps, copy);
            && (r.Ok? <==>
                  || ps == []
                  || (tk.validates(copy) && tk.marshals(copy) && xs.Some? && EveryApplicable(xs.value)))
            && (r.Ok? ==> xs.Some? && Converts(xs.value, r.value))
  {
    EvaluateAllIff(tk, ps, tk.setDefaults(run));
  }

  /** Only requests that pass `Validate` are ever applied. */
  lemma RequestsAreValid(tk: Tekton, ps: seq<Program>, run: Run)
    requires RequestsFor(tk, ps, run).Ok?
    ensures forall i :: 0 <= i < |RequestsFor(tk, ps, run).value| ==> Valid(RequestsFor(tk, ps, run).value[i])
  {
    if ps != [] {
      TraverseCollects(EvaluateOn(tk, tk.setDefaults(run)), ps, Valid);
    }
  }

  /** Run, error and metric increments of one `Mutate` call. */
  datatype Mutated = Mutated(run: Run, error: Option<MutateError>, tick: Counters)

  function MutateOutcome(tk: Tekton, ps: seq<Program>, run: Run): Mutated {
    if ps == [] then Mutated(run, None, Counters(0, 0, 1, 0))
    else
      var ms := RequestsFor(tk, ps, run);
      if ms.Err? then Mutated(run, Some(ms.error), EvaluateTick(ms))
      else
        var a := Fold(run, ms.value);
        if a.error.None? then Mutated(a.run, None, Counters(1, 0, 1, 0))
        else Mutated(a.run, Some(EvaluationError(ApplyFailed(a.error.value))), Counters(1, 0, 0, 1))
  }

  lemma NextProgram(tk: Tekton, ps: seq<Program>, snapshot: Run, i: nat, all: seq<MutationRequest>,
                    ms: Result<seq<MutationRequest>, MutateError>)
    requires i < |ps| && ms == Evaluate(tk, ps[i], snapshot)
    requires EvaluateAll(tk, ps[..i], snapshot) == Ok(all)
    ensures ms.Ok? ==> EvaluateAll(tk, ps[..i + 1], snapshot) == Ok(all + ms.value)
    ensures ms.Err? ==> EvaluateAll(tk, ps, snapshot) == ms
  {
    var f := EvaluateOn(tk, snapshot);
    assert f(ps[i]) == ms;
    TraverseStep(f, ps, i);
    if ms.Err? {
      TraversePrefixError(f, ps, i + 1);
    }
  }

  method EvaluatePrograms(tk: Tekton, ps: seq<Program>, snapshot: PipelineRun, metrics: Metrics)
    returns (r: Result<seq<MutationRequest>, MutateError>)
    modifies metrics
    ensures r == EvaluateAll(tk, ps, snapshot.View())
    ensures metrics.View() == Add(old(metrics.View()), if r.Ok? then Counters(1, 0, 0, 0) else EvaluateTick(r))
  {
    var all := [];
    for i := 0 to |ps|
      invariant EvaluateAll(tk, ps[..i], snapshot.View()) == Ok(all)
      invariant metrics.View() == old(metrics.View())
      invariant snapshot.View() == old(snapshot.View())
    {
      var ms := EvaluateProgram(tk, ps[i], snapshot, metrics);
      NextProgram(tk, ps, snapshot.View(), i, all, ms);
      if ms.Err? {
        return ms;
      }
      all := all + ms.value;
    }
    assert ps[..|ps|] == ps;
    metrics.evalOk := metrics.evalOk + 1;
    return Ok(all);
  }

  class CELMutator {
    const programs: seq<Program>

    constructor (ps: seq<Program>)
      ensures programs == ps
    {
      programs := ps;
    }

    /** `Mutate`: evaluation works on a fresh copy, requests are applied to the run itself. */
    method Mutate(tk: Tekton, run: PipelineRun?, metrics: Metrics) returns (error: Option<MutateError>)
      modifies run, metrics
      ensures run == null ==> error == Some(NilRun) && metrics.View() == old(metrics.View())
      ensures run != null ==>
                var o := MutateOutcome(tk, programs, old(run.View()));
                && run.View() == o.run
                && error == o.error
                && metrics.View() == Add(old(metrics.View()), o.tick)
    {
      if run == null {
        return Some(NilRun);
      }
      if programs == [] {
        metrics.mutOk := metrics.mutOk + 1;
        return None;
      }
      var copy := run.DeepCopy();
      copy.Assign(tk.setDefaults(copy.View()));
      if !tk.validates(copy.View()) {
        return Some(ValidationError(InvalidSpec));
      }
      var evaluated := EvaluatePrograms(tk, programs, copy, metrics);
      if evaluated.Err? {
        return Some(evaluated.error);
      }
      var ms := evaluated.value;
      for i := 0 to |ms|
        invariant Fold(old(run.View()), ms) == Fold(run.View(), ms[i..])
        invariant metrics.View() == Add(old(metrics.View()), Counters(1, 0, 0, 0))
      {
        assert ms[i..][1..] == ms[i + 1..];
        var failed := ApplyMutation(run, ms[i]);
        if failed.Some? {
          metrics.mutFail := metrics.mutFail + 1;
          return Some(EvaluationError(ApplyFailed(failed.value)));
        }
      }
      metrics.mutOk := metrics.mutOk + 1;
      return None;
    }
  }

  // ------------------------------------------------------------------ failures

  /** A failing fold stops inside some request i, having applied exactly the first i, up to a nil map made empty. */
  lemma {:induction false} FoldFailure(run: Run, ms: seq<MutationRequest>) returns (i: nat)
    requires Fold(run, ms).error.Some?
    ensures i < |ms| && ms[i].kind == Resource
    ensures var done := Fold(run, ms[..i]);
            && done.error.None?
            && Step(done.run, ms[i]).error == Fold(run, ms).error
            && Fold(run, ms).run == done.run.(annotations := MadeMap(done.run.annotations))
            && Fold(run, ms).run.annotations.Some?
            && forall k :: Get(Fold(run, ms).run.annotations, k) == Get(done.run.annotations, k)
    decreases ms
  {
    var next := Step(run, ms[0]);
    if next.error.Some? {
      i := 0;
      assert ms[..0] == [];
    } else {
      var j := FoldFailure(next.run, ms[1..]);
      i := j + 1;
      assert ms[..i][1..] == ms[1..][..j];
    }
  }

  /** Requests never touch the status or any other field. */
  lemma {:induction false} FoldFrame(run: Run, ms: seq<MutationRequest>)
    ensures Fold(run, ms).run.status == run.status && Fold(run, ms).run.rest == run.rest
    decreases ms
  {
    if ms != [] {
      FoldFrame(Step(run, ms[0]).run, ms[1..]);
    }
  }

  /** Failure atomicity: unless a request failed to apply, a failing `Mutate` leaves the run as it was. */
  lemma MutateFailureAtomicity(tk: Tekton, ps: seq<Program>, run: Run)
    ensures var o := MutateOutcome(tk, ps, run);
            && o.run.status == run.status && o.run.rest == run.rest
            && (o.error.Some? ==>
                  var ms := RequestsFor(tk, ps, run);
                  if ms.Err? then o.run == run && o.error == Some(ms.error)
                  else exists i :: 0 <= i < |ms.value| &&
                         var done := Fold(run, ms.value[..i]);
                         && done.error.None?
                         && Step(done.run, ms.value[i]).error.Some?
                         && o.run == done.run.(annotations := MadeMap(done.run.annotations)))
  {
    var ms := RequestsFor(tk, ps, run);
    if ms.Ok? {
      FoldFrame(run, ms.value);
      if Fold(run, ms.value).error.Some? {
        var i := FoldFailure(run, ms.value);
      }
    }
  }

  predicate ClassifiedError(e: MutateError) {
    || (e.ValidationError? && (e.cause.InvalidSpec? || e.cause.NotMarshallable?))
    || (e.EvaluationError? && !e.cause.InvalidSpec? && !e.cause.NotMarshallable?)
  }

  /** Every error on a run is a validation error about the run or an evaluation error, never anything else. */
  lemma MutateErrorsClassified(tk: Tekton, ps: seq<Program>, run: Run)
    ensures var e := MutateOutcome(tk, ps, run).error;
            && (e.Some? ==> ClassifiedError(e.value))
            && (e.Some? && e.value.ValidationError? <==>
                  && ps != []
                  && (!tk.validates(tk.setDefaults(run)) || !tk.marshals(tk.setDefaults(run))))
  {
    if ps != [] {
      var snapshot := tk.setDefaults(run);
      var f := EvaluateOn(tk, snapshot);
      TraverseFailsIff(f, ps);
      if !tk.marshals(snapshot) {
        assert f(ps[0]).Err?;
      }
    }
  }

  // ------------------------------------------------------------------- metrics

  datatype MutateCall = MutateCall(programs: seq<Program>, run: Run)

  function TotalTicks(tk: Tekton, calls: seq<MutateCall>): Counters {
    if calls == [] then ZERO
    else Add(MutateOutcome(tk, calls[0].programs, calls[0].run).tick, TotalTicks(tk, calls[1..]))
  }

  function EmptyCalls(calls: seq<MutateCall>): nat {
    if calls == [] then 0 else (if calls[0].programs == [] then 1 else 0) + EmptyCalls(calls[1..])
  }

  datatype Ending = Success | NotApplied | NotEvaluated | Refused

  /** How a call ends, by its error alone. */
  function EndingOf(e: Option<MutateError>): Ending {
    if e.None? then Success
    else if !e.value.EvaluationError? then Refused
    else if e.value.cause.ApplyFailed? then NotApplied
    else NotEvaluated
  }

  function CountEndings(tk: Tekton, calls: seq<MutateCall>, ending: Ending): nat {
    if calls == [] then 0
    else
      (if EndingOf(MutateOutcome(tk, calls[0].programs, calls[0].run).error) == ending then 1 else 0)
      + CountEndings(tk, calls[1..], ending)
  }

  lemma MutateTick(tk: Tekton, ps: seq<Program>, run: Run)
    ensures var o := MutateOutcome(tk, ps, run);
            && o.tick.mutOk == (if EndingOf(o.error) == Success then 1 else 0)
            && o.tick.mutFail == (if EndingOf(o.error) == NotApplied then 1 else 0)
            && o.tick.evalFail == (if EndingOf(o.error) == NotEvaluated then 1 else 0)
  {
    if ps != [] {
      var f := EvaluateOn(tk, tk.setDefaults(run));
      TraverseFailsIff(f, ps);
      forall i | 0 <= i < |ps| && f(ps[i]).Err?
        ensures f(ps[i]).error.EvaluationError? ==> !f(ps[i]).error.cause.ApplyFailed?
      {
        assert f(ps[i]) == Evaluate(tk, ps[i], tk.setDefaults(run));
      }
    }
  }

  /** The success counter counts the calls without an error, each failure counter the calls that failed its way. */
  lemma {:induction false} MetricsCountCalls(tk: Tekton, calls: seq<MutateCall>)
    ensures var t := TotalTicks(tk, calls);
            && t.mutOk == CountEndings(tk, calls, Success)
            && t.mutFail == CountEndings(tk, calls, NotApplied)
            && t.evalFail == CountEndings(tk, calls, NotEvaluated)
  {
    if calls != [] {
      MetricsCountCalls(tk, calls[1..]);
      MutateTick(tk, calls[0].programs, calls[0].run);
    }
  }

  /** Conservation: recorded mutations are exactly the successful evaluations and the calls without programs. */
  lemma {:induction false} MetricConservation(tk: Tekton, calls: seq<MutateCall>)
    ensures var t := TotalTicks(tk, calls); t.mutOk + t.mutFail == t.evalOk + EmptyCalls(calls)
  {
    if calls != [] {
      MetricConservation(tk, calls[1..]);
    }
  }
}
