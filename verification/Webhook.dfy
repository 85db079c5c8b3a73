/** The admission defaulter (internal/webhook/v1/pipelinerun_webhook.go). */
module Webhook {
  import opened Prelude
  import opened Runs
  import opened Requests
  import opened Evaluator
  import opened Mutator
  import opened FoldTheory
  import opened ConfigStore

  datatype Response =
    | Admitted
    | BadRequest
    | InternalError
    | Unclassified
    | NilConfigPanic   // the nil config of a store that was never updated is dereferenced

  function Classify(e: MutateError): Response {
    match e
    case ValidationError(_) => BadRequest
    case EvaluationError(_) => InternalError
    case NilRun => Unclassified
  }

  /** The run before any mutator: pending, queued, and possibly routed to MultiKueue. */
  function Prepared(cfg: Config, run: Run): Run {
    run.(status := PENDING,
         labels := if Get(run.labels, QUEUE_LABEL).Some? then run.labels
                   else Put(run.labels, QUEUE_LABEL, cfg.queueName),
         managedBy := if cfg.multiKueueOverride then Some(MULTI_KUEUE) else run.managedBy)
  }

  /** The mutators in turn, each on the run the previous one left; the first error ends it. */
  function MutateAll(tk: Tekton, ms: Mutators, run: Run): Mutated
    decreases ms
  {
    if ms == [] then Mutated(run, None, ZERO)
    else
      var o := MutateOutcome(tk, ms[0], run);
      if o.error.Some? then o
      else
        var rest := MutateAll(tk, ms[1..], o.run);
        rest.(tick := Add(o.tick, rest.tick))
  }

  datatype Defaulted = Defaulted(run: Run, response: Response, tick: Counters)

  function DefaultOutcome(tk: Tekton, s: Contents, run: Run): Defaulted {
    if s.config.None? then Defaulted(run.(status := PENDING, labels := MadeMap(run.labels)), NilConfigPanic, ZERO)
    else
      var o := MutateAll(tk, s.mutators, Prepared(s.config.value, run));
      Defaulted(o.run, if o.error.None? then Admitted else Classify(o.error.value), o.tick)
  }

  /** `Default`; a null `run` stands for an object of another kind. */
  method Default(tk: Tekton, store: Store, run: PipelineRun?, metrics: Metrics) returns (response: Response)
    modifies run, metrics
    ensures run == null ==> response == BadRequest && metrics.View() == old(metrics.View())
    ensures run != null ==>
              var o := DefaultOutcome(tk, store.View(), old(run.View()));
              && run.View() == o.run
              && response == o.response
              && metrics.View() == Add(old(metrics.View()), o.tick)
  {
    if run == null {
      return BadRequest;
    }
    run.status := PENDING;
    if run.labels.None? {
      run.labels := Some(map[]);
    }
    var config, mutators := store.Get();
    if config.None? {
      return NilConfigPanic;
    }
    if QUEUE_LABEL !in run.labels.value {
      run.labels := Some(run.labels.value[QUEUE_LABEL := config.value.queueName]);
    }
    if config.value.multiKueueOverride {
      run.managedBy := Some(MULTI_KUEUE);
    }
    assert run.View() == Prepared(config.value, old(run.View()));
    var error := RunMutators(tk, mutators, run, metrics);
    return if error.None? then Admitted else Classify(error.value);
  }

  /** The loop of `Default` over the mutators. */
  method RunMutators(tk: Tekton, ms: Mutators, run: PipelineRun, metrics: Metrics) returns (error: Option<MutateError>)
    modifies run, metrics
    ensures var o := MutateAll(tk, ms, old(run.View()));
            && run.View() == o.run
            && error == o.error
            && metrics.View() == Add(old(metrics.View()), o.tick)
  {
    ghost var start, before, ticks := run.View(), metrics.View(), ZERO;
    for i := 0 to |ms|
      invariant Resumes(tk, ms, start, i, run.View(), ticks)
      invariant metrics.View() == Add(before, ticks)
    {
      ghost var o := MutateOutcome(tk, ms[i], run.View());
      ResumeStep(tk, ms, start, i, run.View(), ticks);
      error := RunMutator(tk, ms[i], run, metrics);
      AddAssociates(before, ticks, o.tick);
      ticks := Add(ticks, o.tick);
      if error.Some? {
        return;
      }
    }
    return None;
  }

  method RunMutator(tk: Tekton, ps: seq<Program>, run: PipelineRun, metrics: Metrics)
    returns (error: Option<MutateError>)
    modifies run, metrics
    ensures Mutated(run.View(), error, MutateOutcome(tk, ps, old(run.View())).tick) ==
            MutateOutcome(tk, ps, old(run.View()))
    ensures metrics.View() == Add(old(metrics.View()), MutateOutcome(tk, ps, old(run.View())).tick)
  {
    var mutator := new CELMutator(ps);
    error := mutator.Mutate(tk, run, metrics);
  }

  lemma AddAssociates(a: Counters, b: Counters, c: Counters)
    ensures Add(Add(a, b), c) == Add(a, Add(b, c))
  {
  }

  /** After `i` mutators and `ticks`, what is left to do completes the whole. */
  ghost predicate Resumes(tk: Tekton, ms: Mutators, start: Run, i: nat, now: Run, ticks: Counters)
    requires i <= |ms|
  {
    var whole, rest := MutateAll(tk, ms, start), MutateAll(tk, ms[i..], now);
    whole.run == rest.run && whole.error == rest.error && whole.tick == Add(ticks, rest.tick)
  }

  lemma ResumeStep(tk: Tekton, ms: Mutators, start: Run, i: nat, now: Run, ticks: Counters)
    requires i < |ms| && Resumes(tk, ms, start, i, now, ticks)
    ensures var o := MutateOutcome(tk, ms[i], now);
            if o.error.None? then Resumes(tk, ms, start, i + 1, o.run, Add(ticks, o.tick))
            else MutateAll(tk, ms, start) == Mutated(o.run, o.error, Add(ticks, o.tick))
  {
    assert ms[i..][0] == ms[i] && ms[i..][1..] == ms[i + 1..];
  }

  // ------------------------------------------------------------------- closed form

  /** All requests of all mutators, in the order they are applied. */
  function Gathered(tk: Tekton, ms: Mutators, run: Run): Result<seq<MutationRequest>, MutateError>
    decreases ms
  {
    if ms == [] then Ok([])
    else
      var reqs := RequestsFor(tk, ms[0], run);
      if reqs.Err? then reqs
      else
        var a := Fold(run, reqs.value);
        if a.error.Some? then Err(EvaluationError(ApplyFailed(a.error.value)))
        else
          var rest := Gathered(tk, ms[1..], a.run);
          if rest.Err? then rest else Ok(reqs.value + rest.value)
  }

  /** However many mutators there are, together they are one fold over the gathered requests. */
  lemma {:induction false} MutatorsAreOneFold(tk: Tekton, ms: Mutators, run: Run)
    ensures var o, g := MutateAll(tk, ms, run), Gathered(tk, ms, run);
            && (o.error.None? <==> g.Ok?)
            && (g.Err? ==> o.error == Some(g.error))
            && (g.Ok? ==> Fold(run, g.value) == Applied(o.run, None))
    decreases ms
  {
    if ms != [] {
      var reqs := RequestsFor(tk, ms[0], run);
      if reqs.Ok? && Fold(run, reqs.value).error.None? {
        var next := Fold(run, reqs.value).run;
        MutatorsAreOneFold(tk, ms[1..], next);
        var rest := Gathered(tk, ms[1..], next);
        if rest.Ok? {
          FoldConcat(run, reqs.value, rest.value);
        }
      }
    }
  }

  /** One more mutator runs on what the others left, unless one of them failed. */
  lemma {:induction false} MutatorsInTurn(tk: Tekton, ms: Mutators, last: seq<Program>, run: Run)
    ensures var o := MutateAll(tk, ms, run);
            MutateAll(tk, ms + [last], run) ==
            if o.error.Some? then o else After(o.tick, MutateOutcome(tk, last, o.run))
    decreases ms
  {
    var all := ms + [last];
    if ms == [] {
      assert all == [last] && all[1..] == [];
      FirstMutator(tk, all, run);
      assert MutateAll(tk, [], MutateOutcome(tk, last, run).run).tick == ZERO;
    } else {
      assert all[0] == ms[0] && all[1..] == ms[1..] + [last];
      FirstMutator(tk, ms, run);
      FirstMutator(tk, all, run);
      MutatorsInTurn(tk, ms[1..], last, MutateOutcome(tk, ms[0], run).run);
    }
  }

  function After(tick: Counters, o: Mutated): Mutated {
    o.(tick := Add(tick, o.tick))
  }

  lemma FirstMutator(tk: Tekton, ms: Mutators, run: Run)
    requires ms != []
    ensures var o := MutateOutcome(tk, ms[0], run);
            MutateAll(tk, ms, run) == if o.error.Some? then o else After(o.tick, MutateAll(tk, ms[1..], o.run))
  {
  }

  /** The requests an admission applies. */
  function Applying(tk: Tekton, s: Contents, run: Run): seq<MutationRequest>
    requires s.config.Some?
  {
    var g := Gathered(tk, s.mutators, Prepared(s.config.value, run));
    if g.Ok? then g.value else []
  }

  /**
    What an admitted run looks like: pending, with managedBy and every label the last request's,
    else the defaulter's, else the user's; annotations as the requests leave them; all else untouched.
   */
  lemma AdmissionClosedForm(tk: Tekton, s: Contents, run: Run)
    requires s.config.Some? && DefaultOutcome(tk, s, run).response == Admitted
    ensures var final, reqs, cfg := DefaultOutcome(tk, s, run).run, Applying(tk, s, run), s.config.value;
            && final.status == PENDING
            && final.rest == run.rest
            && final.managedBy == OrElse(LastWrite(reqs, OnManagedBy),
                                         if cfg.multiKueueOverride then Some(MULTI_KUEUE) else run.managedBy)
            && Get(final.labels, QUEUE_LABEL) == OrElse(LastWrite(reqs, OnLabel(QUEUE_LABEL)),
                                                        OrElse(Get(run.labels, QUEUE_LABEL), Some(cfg.queueName)))
            && (forall k :: k != QUEUE_LABEL ==>
                  Get(final.labels, k) == OrElse(LastWrite(reqs, OnLabel(k)), Get(run.labels, k)))
            && (forall k :: AnnotationAfter(Get(run.annotations, k), reqs, k) == Ok(Get(final.annotations, k)))
  {
    var prepared, reqs := Prepared(s.config.value, run), Applying(tk, s, run);
    MutatorsAreOneFold(tk, s.mutators, prepared);
    var final := DefaultOutcome(tk, s, run).run;
    forall k
      ensures Get(final.labels, k) == OrElse(LastWrite(reqs, OnLabel(k)), Get(prepared.labels, k))
      ensures AnnotationAfter(Get(run.annotations, k), reqs, k) == Ok(Get(final.annotations, k))
    {
      FoldAt(prepared, reqs, k);
    }
    FoldAt(prepared, reqs, "");
    FoldFrame(prepared, reqs);
  }

  predicate AllValid(ms: seq<MutationRequest>) {
    forall i :: 0 <= i < |ms| ==> Valid(ms[i])
  }

  lemma {:induction false} GatheredAreValid(tk: Tekton, ms: Mutators, run: Run)
    requires Gathered(tk, ms, run).Ok?
    ensures AllValid(Gathered(tk, ms, run).value)
    decreases ms
  {
    if ms != [] {
      RequestsAreValid(tk, ms[0], run);
      var reqs := RequestsFor(tk, ms[0], run).value;
      GatheredAreValid(tk, ms[1..], Fold(run, reqs).run);
    }
  }

  lemma {:induction false} ValidWritesAreNonEmpty(ms: seq<MutationRequest>, t: Target)
    requires AllValid(ms) && LastWrite(ms, t).Some?
    ensures LastWrite(ms, t).value != ""
  {
    if LastWrite(ms[1..], t).Some? {
      ValidWritesAreNonEmpty(ms[1..], t);
    } else {
      assert Valid(ms[0]) && MULTI_KUEUE != "";
    }
  }

  /** From store to run: an admitted run is in a queue, and its queue name is empty only if the user wrote it so. */
  lemma AdmittedRunIsQueued(tk: Tekton, s: Contents, run: Run)
    requires s.config.Some? && WellFormed(s) && DefaultOutcome(tk, s, run).response == Admitted
    ensures var final, reqs := DefaultOutcome(tk, s, run).run, Applying(tk, s, run);
            && Get(final.labels, QUEUE_LABEL).Some?
            && (Get(final.labels, QUEUE_LABEL) == Some("") ==>
                  Get(run.labels, QUEUE_LABEL) == Some("") && LastWrite(reqs, OnLabel(QUEUE_LABEL)).None?)
            && (final.managedBy == Some("") ==>
                  run.managedBy == Some("") && LastWrite(reqs, OnManagedBy).None? && !s.config.value.multiKueueOverride)
  {
    AdmissionClosedForm(tk, s, run);
    MutatorsAreOneFold(tk, s.mutators, Prepared(s.config.value, run));
    GatheredAreValid(tk, s.mutators, Prepared(s.config.value, run));
    var reqs := Applying(tk, s, run);
    if LastWrite(reqs, OnLabel(QUEUE_LABEL)).Some? {
      ValidWritesAreNonEmpty(reqs, OnLabel(QUEUE_LABEL));
    }
    if LastWrite(reqs, OnManagedBy).Some? {
      ValidWritesAreNonEmpty(reqs, OnManagedBy);
    }
    assert MULTI_KUEUE != "";
  }

  /** The requests of a loaded store's only mutator, if it has one. */
  function Asked(tk: Tekton, s: Contents, run: Run): Result<seq<MutationRequest>, MutateError>
    requires s.config.Some?
  {
    if s.mutators == [] then Ok([]) else RequestsFor(tk, s.mutators[0], Prepared(s.config.value, run))
  }

  /**
    Exactly when a loaded store admits a run: its mutator can tell what to ask for and every
    annotation, taken alone, accepts its requests. Then these are the requests that are applied.
   */
  lemma AdmittedIff(tk: Tekton, s: Contents, run: Run)
    requires s.config.Some? && WellFormed(s)
    ensures var asked := Asked(tk, s, run);
            && (DefaultOutcome(tk, s, run).response == Admitted <==>
                  asked.Ok? && forall k :: AnnotationAfter(Get(run.annotations, k), asked.value, k).Ok?)
            && (DefaultOutcome(tk, s, run).response == Admitted ==> Applying(tk, s, run) == asked.value)
  {
    var prepared, asked := Prepared(s.config.value, run), Asked(tk, s, run);
    MutatorsAreOneFold(tk, s.mutators, prepared);
    MutateAllClassified(tk, s.mutators, prepared);
    assert DefaultOutcome(tk, s, run).response == Admitted <==> Gathered(tk, s.mutators, prepared).Ok?;
    if asked.Ok? {
      FoldSucceedsIff(prepared, asked.value);
      if s.mutators != [] {
        assert s.mutators[1..] == [];
        assert asked.value + [] == asked.value;
      }
    }
  }

  /**
    From expressions to requests: an admission applies exactly the items its programs yield on the
    defaulted copy, in order.
   */
  lemma AppliedAreTheItems(tk: Tekton, s: Contents, run: Run)
    requires s.config.Some? && WellFormed(s) && DefaultOutcome(tk, s, run).response == Admitted
    ensures s.mutators == [] ==> Applying(tk, s, run) == []
    ensures s.mutators != [] ==>
              var items := AllOutput(s.mutators[0], tk.setDefaults(Prepared(s.config.value, run)));
              items.Some? && Converts(items.value, Applying(tk, s, run))
  {
    AdmittedIff(tk, s, run);
    if s.mutators != [] {
      RequestsForIff(tk, s.mutators[0], Prepared(s.config.value, run));
    }
  }

  // ------------------------------------------------------------------------ errors

  lemma {:induction false} MutateAllClassified(tk: Tekton, ms: Mutators, run: Run)
    ensures MutateAll(tk, ms, run).error.Some? ==> ClassifiedError(MutateAll(tk, ms, run).error.value)
    decreases ms
  {
    if ms != [] {
      MutateErrorsClassified(tk, ms[0], run);
      MutateAllClassified(tk, ms[1..], MutateOutcome(tk, ms[0], run).run);
    }
  }

  /**
    On a loaded store admission fails only as bad request or internal error, and as bad request
    exactly for a bad run.
   */
  lemma DefaultErrorsClassified(tk: Tekton, s: Contents, run: Run)
    ensures DefaultOutcome(tk, s, run).response == NilConfigPanic <==> s.config.None?
    ensures DefaultOutcome(tk, s, run).response != Unclassified
    ensures s.config.Some? && WellFormed(s) ==>
              (DefaultOutcome(tk, s, run).response == BadRequest <==>
                && s.config.value.expressions != []
                && var snapshot := tk.setDefaults(Prepared(s.config.value, run));
                   !tk.validates(snapshot) || !tk.marshals(snapshot))
  {
    if s.config.Some? {
      var prepared := Prepared(s.config.value, run);
      MutateAllClassified(tk, s.mutators, prepared);
      if WellFormed(s) && s.mutators != [] {
        MutateErrorsClassified(tk, s.mutators[0], prepared);
        assert s.mutators[1..] == [];
        assert MutateAll(tk, s.mutators, prepared).error == MutateOutcome(tk, s.mutators[0], prepared).error;
      }
    }
  }
}
