/**
  The webhook's configuration and how ConfigMap events change it
  (internal/webhook/v1/config_store.go, internal/controller/configmap_controller.go).
 */
module ConfigStore {
  import opened Prelude
  import opened Evaluator
  import opened Builders

  datatype Config = Config(queueName: string, multiKueueOverride: bool, expressions: seq<string>)

  /** The program lists of the mutators. */
  type Mutators = seq<seq<Program>>

  /** Contents of the store; a None config is the nil pointer before the first update. */
  datatype Contents = Contents(config: Option<Config>, mutators: Mutators)

  const EMPTY := Contents(None, [])

  datatype LoadError = BadYaml | EmptyQueueName | BadExpressions(error: CompileError)

  /** The YAML decoder and the CEL compiler, taken as given. */
  datatype Loader = Loader(decode: string -> Option<Config>, compile: Compiler)

  /** The contents a raw configuration stands for. */
  function Load(ld: Loader, raw: string): Result<Contents, LoadError> {
    var cfg := ld.decode(raw);
    if cfg.None? then Err(BadYaml)
    else if cfg.value.queueName == "" then Err(EmptyQueueName)
    else if cfg.value.expressions == [] then Ok(Contents(cfg, []))
    else
      var ps := CompileAll(ld.compile, cfg.value.expressions);
      if ps.Err? then Err(BadExpressions(ps.error)) else Ok(Contents(cfg, [ps.value]))
  }

  class Store {
    var config: Option<Config>
    var mutators: Mutators
    var reloadsOk: nat
    var reloadsFailed: nat

    function View(): Contents
      reads this
    {
      Contents(config, mutators)
    }

    constructor ()
      ensures View() == EMPTY && reloadsOk == 0 && reloadsFailed == 0
    {
      config, mutators, reloadsOk, reloadsFailed := None, [], 0, 0;
    }

    /** `GetConfigAndMutators`. */
    method Get() returns (c: Option<Config>, ms: Mutators)
      ensures Contents(c, ms) == View()
    {
      return config, mutators;
    }

    /** `Update`: all of the new contents, or none of them. */
    method Update(ld: Loader, raw: string) returns (error: Option<LoadError>)
      modifies this
      ensures var r := Load(ld, raw);
              if r.Ok? then
                View() == r.value && error == None
                && reloadsOk == old(reloadsOk) + 1 && reloadsFailed == old(reloadsFailed)
              else
                View() == old(View()) && error == Some(r.error)
                && reloadsOk == old(reloadsOk) && reloadsFailed == old(reloadsFailed) + 1
    {
      var cfg := ld.decode(raw);
      if cfg.None? {
        reloadsFailed := reloadsFailed + 1;
        return Some(BadYaml);
      }
      if cfg.value.queueName == "" {
        reloadsFailed := reloadsFailed + 1;
        return Some(EmptyQueueName);
      }
      var built: Mutators := [];
      if cfg.value.expressions != [] {
        var ps := CompilePrograms(ld.compile, cfg.value.expressions);
        if ps.Err? {
          reloadsFailed := reloadsFailed + 1;
          return Some(BadExpressions(ps.error));
        }
        built := [ps.value];
      }
      mutators := built;
      config := cfg;
      reloadsOk := reloadsOk + 1;
      return None;
    }
  }

  // ---------------------------------------------------------------- reconciling

  /** What the reconciler finds when an event arrives. */
  datatype Event = NotFound | GetFailed | KeyMissing | Data(raw: string)

  datatype Outcome = Done | Failed | RetryLater

  function AfterEvent(ld: Loader, s: Contents, e: Event): Contents {
    if e.Data? && Load(ld, e.raw).Ok? then Load(ld, e.raw).value else s
  }

  /** `ConfigMapReconciler.Reconcile`. */
  method Reconcile(ld: Loader, store: Store, e: Event) returns (o: Outcome)
    modifies store
    ensures store.View() == AfterEvent(ld, old(store.View()), e)
    ensures o == if e.GetFailed? then Failed else if e.Data? && Load(ld, e.raw).Err? then RetryLater else Done
  {
    match e {
      case NotFound => return Done;
      case GetFailed => return Failed;
      case KeyMissing => return Done;
      case Data(raw) =>
        var error := store.Update(ld, raw);
        return if error.Some? then RetryLater else Done;
    }
  }

  // ------------------------------------------------------------------- histories

  function AfterHistory(ld: Loader, s: Contents, es: seq<Event>): Contents
    decreases es
  {
    if es == [] then s else AfterHistory(ld, AfterEvent(ld, s, es[0]), es[1..])
  }

  predicate IsValidEvent(ld: Loader, e: Event) {
    e.Data? && Load(ld, e.raw).Ok?
  }

  /** `i` is the last valid event of the history. */
  predicate IsLastValid(ld: Loader, es: seq<Event>, i: nat) {
    && i < |es| && IsValidEvent(ld, es[i])
    && forall j :: i < j < |es| ==> !IsValidEvent(ld, es[j])
  }

  /** What a history leaves behind: the contents of its last valid event, else what was there. */
  ghost predicate LeftBehind(ld: Loader, s: Contents, es: seq<Event>, final: Contents) {
    || (final == s && forall j :: 0 <= j < |es| ==> !IsValidEvent(ld, es[j]))
    || exists i :: 0 <= i < |es| && IsLastValid(ld, es, i) && final == Load(ld, es[i].raw).value
  }

  /** Last known good, over any history of ConfigMap events. */
  lemma {:induction false} LastKnownGood(ld: Loader, s: Contents, es: seq<Event>)
    ensures LeftBehind(ld, s, es, AfterHistory(ld, s, es))
    decreases es
  {
    if es != [] {
      var next, rest := AfterEvent(ld, s, es[0]), es[1..];
      var final := AfterHistory(ld, next, rest);
      LastKnownGood(ld, next, rest);
      assert forall j :: 0 < j < |es| ==> es[j] == rest[j - 1];
      if i :| 0 <= i < |rest| && IsLastValid(ld, rest, i) && final == Load(ld, rest[i].raw).value {
        assert IsLastValid(ld, es, i + 1);
      } else if IsValidEvent(ld, es[0]) {
        assert IsLastValid(ld, es, 0);
      }
    }
  }

  predicate Initialised(s: Contents) {
    s.config.Some?
  }

  predicate WellFormed(s: Contents) {
    s.config.Some? ==>
      && s.config.value.queueName != ""
      && |s.mutators| <= 1
      && (s.mutators == [] <==> s.config.value.expressions == [])
      && (s.mutators != [] ==> |s.mutators[0]| == |s.config.value.expressions|)
  }

  /**
    What a raw configuration must be to load, and what it loads to: its own config and one mutator
    with every expression compiled in order.
   */
  lemma LoadIff(ld: Loader, raw: string)
    ensures Load(ld, raw).Ok? <==>
            && ld.decode(raw).Some?
            && ld.decode(raw).value.queueName != ""
            && var es := ld.decode(raw).value.expressions;
               forall i :: 0 <= i < |es| ==> es[i] != "" && ld.compile(es[i]).Some?
    ensures Load(ld, raw) == Err(BadYaml) <==> ld.decode(raw).None?
    ensures Load(ld, raw) == Err(EmptyQueueName) <==> ld.decode(raw).Some? && ld.decode(raw).value.queueName == ""
    ensures Load(ld, raw).Ok? ==>
              var c, es := Load(ld, raw).value, ld.decode(raw).value.expressions;
              && c.config == ld.decode(raw)
              && (if es == [] then c.mutators == []
                  else |c.mutators| == 1 && |c.mutators[0]| == |es|
                       && forall i :: 0 <= i < |es| ==> ld.compile(es[i]) == Some(c.mutators[0][i]))
  {
    var cfg := ld.decode(raw);
    if cfg.Some? {
      CompileAllIff(ld.compile, cfg.value.expressions);
    }
  }

  lemma LoadWellFormed(ld: Loader, raw: string)
    requires Load(ld, raw).Ok?
    ensures WellFormed(Load(ld, raw).value) && Initialised(Load(ld, raw).value)
  {
    LoadIff(ld, raw);
  }

  /** A store stays well formed, never loses its configuration, and is initialised as soon as one event was valid. */
  lemma {:induction false} HistoryKeepsStoreUsable(ld: Loader, s: Contents, es: seq<Event>)
    requires WellFormed(s)
    ensures WellFormed(AfterHistory(ld, s, es))
    ensures Initialised(AfterHistory(ld, s, es)) <==>
            Initialised(s) || exists j :: 0 <= j < |es| && IsValidEvent(ld, es[j])
    decreases es
  {
    if es != [] {
      if IsValidEvent(ld, es[0]) {
        LoadWellFormed(ld, es[0].raw);
      }
      HistoryKeepsStoreUsable(ld, AfterEvent(ld, s, es[0]), es[1..]);
      assert forall j :: 0 < j < |es| ==> es[j] == es[1..][j - 1];
    }
  }
}
