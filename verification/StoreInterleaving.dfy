/**
  The ConfigStore under concurrency: any number of threads read and update it, one
  memory access at a time, under the reader/writer lock.
 */
module StoreInterleaving {
  import opened Prelude
  import opened ConfigStore

  /** Where a thread stands; `since` counts the commits there were when its read was called. */
  datatype Thread =
    | Idle
    | Asking(since: nat)                                          // before RLock
    | Reading(since: nat)                                         // holds the read lock
    | ReadConfig(since: nat, config: Option<Config>)              // has loaded s.config
    | ReadBoth(since: nat, got: Contents)                         // has loaded s.mutators too
    | Returned(since: nat, at: nat, got: Contents)                // after RUnlock
    | Wanting(raw: string)                                        // before Lock
    | Writing(raw: string)                                        // holds the write lock
    | Built(raw: string, next: Contents)                          // parsed, validated, compiled
    | HalfWritten(raw: string, next: Contents)                    // has stored s.mutators
    | Finished                                                    // stored s.config too, or gave up

  /** Shared memory, lock and threads; `commits` lists the raw configurations stored so far. */
  datatype System = System(
    threads: seq<Thread>,
    readers: set<nat>,
    writer: Option<nat>,
    memory: Contents,
    commits: seq<string>)

  datatype Action =
    | CallGet | RLock | LoadConfig | LoadMutators | RUnlock
    | CallUpdate(raw: string) | Lock | Prepare | StoreMutators | StoreConfig | Unlock | Leave

  function Init(n: nat): System {
    System(seq(n, _ => Idle), {}, None, EMPTY, [])
  }

  function Move(s: System, t: nat, th: Thread): System
    requires t < |s.threads|
  {
    s.(threads := s.threads[t := th])
  }

  /** One atomic action of thread `t`; an action that is not enabled changes nothing. */
  function Next(ld: Loader, s: System, t: nat, a: Action): System {
    if t >= |s.threads| then s
    else
      var th := s.threads[t];
      match a
      case CallGet => if th.Idle? then Move(s, t, Asking(|s.commits|)) else s
      case RLock =>
        if th.Asking? && s.writer.None? then Move(s, t, Reading(th.since)).(readers := s.readers + {t}) else s
      case LoadConfig => if th.Reading? then Move(s, t, ReadConfig(th.since, s.memory.config)) else s
      case LoadMutators =>
        if th.ReadConfig? then Move(s, t, ReadBoth(th.since, Contents(th.config, s.memory.mutators))) else s
      case RUnlock =>
        if th.ReadBoth? then Move(s, t, Returned(th.since, |s.commits|, th.got)).(readers := s.readers - {t}) else s
      case CallUpdate(raw) => if th.Idle? then Move(s, t, Wanting(raw)) else s
      case Lock =>
        if th.Wanting? && s.writer.None? && s.readers == {} then Move(s, t, Writing(th.raw)).(writer := Some(t)) else s
      case Prepare =>
        if !th.Writing? then s
        else
          var r := Load(ld, th.raw);
          Move(s, t, if r.Ok? then Built(th.raw, r.value) else Finished)
      case StoreMutators =>
        if !th.Built? then s
        else Move(s, t, HalfWritten(th.raw, th.next)).(memory := Contents(s.memory.config, th.next.mutators))
      case StoreConfig =>
        if !th.HalfWritten? then s
        else Move(s, t, Finished).(memory := Contents(th.next.config, s.memory.mutators),
                                   commits := s.commits + [th.raw])
      case Unlock => if th.Finished? then Move(s, t, Idle).(writer := None) else s
      case Leave => if th.Returned? then Move(s, t, Idle) else s
  }

  datatype Turn = Turn(thread: nat, action: Action)

  function Exec(ld: Loader, s: System, schedule: seq<Turn>): System
    decreases schedule
  {
    if schedule == [] then s else Exec(ld, Next(ld, s, schedule[0].thread, schedule[0].action), schedule[1..])
  }

  // ------------------------------------------------------------------ invariant

  /** The contents after the first `i` commits: initially empty, then exactly what one update loaded. */
  function Version(ld: Loader, commits: seq<string>, i: nat): Contents
    requires i <= |commits|
  {
    if i == 0 then EMPTY
    else
      var r := Load(ld, commits[i - 1]);
      if r.Ok? then r.value else EMPTY
  }

  predicate HoldsRead(th: Thread) {
    th.Reading? || th.ReadConfig? || th.ReadBoth?
  }

  predicate HoldsWrite(th: Thread) {
    th.Writing? || th.Built? || th.HalfWritten? || th.Finished?
  }

  predicate IsRead(th: Thread) {
    th.Asking? || HoldsRead(th) || th.Returned?
  }

  /** What a thread has seen agrees with one version. */
  ghost predicate ThreadOk(ld: Loader, commits: seq<string>, th: Thread) {
    && (IsRead(th) ==> th.since <= |commits|)
    && (th.ReadConfig? ==> th.config == Version(ld, commits, |commits|).config)
    && (th.ReadBoth? ==> th.got == Version(ld, commits, |commits|))
    && (th.Returned? ==> th.since <= th.at <= |commits| && th.got == Version(ld, commits, th.at))
    && (th.Built? || th.HalfWritten? ==> Load(ld, th.raw) == Ok(th.next))
  }

  /** Memory is the latest version, except between the two stores of the writer. */
  ghost predicate MemoryOk(ld: Loader, s: System) {
    var last := Version(ld, s.commits, |s.commits|);
    if s.writer.Some? && s.writer.value < |s.threads| && s.threads[s.writer.value].HalfWritten?
    then s.memory == Contents(last.config, s.threads[s.writer.value].next.mutators)
    else s.memory == last
  }

  ghost predicate LockOk(s: System) {
    && (forall t :: 0 <= t < |s.threads| ==> (HoldsRead(s.threads[t]) <==> t in s.readers))
    && (forall t :: 0 <= t < |s.threads| ==> (HoldsWrite(s.threads[t]) <==> s.writer == Some(t)))
    && (s.writer.Some? ==> s.writer.value < |s.threads| && s.readers == {})
  }

  ghost predicate Inv(ld: Loader, s: System) {
    && LockOk(s)
    && MemoryOk(ld, s)
    && (forall i :: 0 <= i < |s.commits| ==> Load(ld, s.commits[i]).Ok?)
    && (forall t :: 0 <= t < |s.threads| ==> ThreadOk(ld, s.commits, s.threads[t]))
  }

  lemma NextKeepsLock(ld: Loader, s: System, t: nat, a: Action)
    requires LockOk(s)
    ensures LockOk(Next(ld, s, t, a))
  {
  }

  /** Threads that hold no lock do not depend on later commits. */
  lemma ThreadSurvivesCommit(ld: Loader, commits: seq<string>, raw: string, th: Thread)
    requires ThreadOk(ld, commits, th) && !HoldsRead(th)
    ensures ThreadOk(ld, commits + [raw], th)
  {
  }

  lemma NextKeepsThreads(ld: Loader, s: System, t: nat, a: Action)
    requires Inv(ld, s)
    ensures var s' := Next(ld, s, t, a);
            && (forall i :: 0 <= i < |s'.commits| ==> Load(ld, s'.commits[i]).Ok?)
            && (forall u :: 0 <= u < |s'.threads| ==> ThreadOk(ld, s'.commits, s'.threads[u]))
  {
    var s' := Next(ld, s, t, a);
    forall u | 0 <= u < |s'.threads| ensures ThreadOk(ld, s'.commits, s'.threads[u]) {
      if a.StoreConfig? && t < |s.threads| && s.threads[t].HalfWritten? && u != t {
        ThreadSurvivesCommit(ld, s.commits, s.threads[t].raw, s.threads[u]);
      }
    }
  }

  lemma NextKeepsMemory(ld: Loader, s: System, t: nat, a: Action)
    requires Inv(ld, s)
    ensures MemoryOk(ld, Next(ld, s, t, a))
  {
  }

  lemma NextKeepsInv(ld: Loader, s: System, t: nat, a: Action)
    requires Inv(ld, s)
    ensures Inv(ld, Next(ld, s, t, a))
  {
    NextKeepsLock(ld, s, t, a);
    NextKeepsThreads(ld, s, t, a);
    NextKeepsMemory(ld, s, t, a);
  }

  lemma {:induction false} ExecKeepsInv(ld: Loader, s: System, schedule: seq<Turn>)
    requires Inv(ld, s)
    ensures Inv(ld, Exec(ld, s, schedule))
    decreases schedule
  {
    if schedule != [] {
      NextKeepsInv(ld, s, schedule[0].thread, schedule[0].action);
      ExecKeepsInv(ld, Next(ld, s, schedule[0].thread, schedule[0].action), schedule[1..]);
    }
  }

  // -------------------------------------------------------------------- theorems

  /**
    No torn reads: under every schedule of every number of threads, a returned pair is either the
    initial empty one or exactly what a single successful update loaded, and it is the version that
    was current at some moment between the call and the return.
   */
  lemma NoTornReads(ld: Loader, n: nat, schedule: seq<Turn>, t: nat)
    requires t < |Exec(ld, Init(n), schedule).threads|
    requires Exec(ld, Init(n), schedule).threads[t].Returned?
    ensures var s := Exec(ld, Init(n), schedule);
            var th := s.threads[t];
            && th.since <= th.at <= |s.commits|
            && (if th.at == 0 then th.got == EMPTY else Load(ld, s.commits[th.at - 1]) == Ok(th.got))
  {
    ExecKeepsInv(ld, Init(n), schedule);
  }

  /** Mutual exclusion: nobody holds the read lock while somebody holds the write lock, and only one thread does. */
  lemma MutualExclusion(ld: Loader, n: nat, schedule: seq<Turn>, t: nat, u: nat)
    requires t < |Exec(ld, Init(n), schedule).threads| && u < |Exec(ld, Init(n), schedule).threads|
    requires HoldsWrite(Exec(ld, Init(n), schedule).threads[t])
    ensures !HoldsRead(Exec(ld, Init(n), schedule).threads[u])
    ensures HoldsWrite(Exec(ld, Init(n), schedule).threads[u]) ==> t == u
  {
    ExecKeepsInv(ld, Init(n), schedule);
  }

  predicate StartedAfter(s: System, t: nat, n: nat) {
    n <= |s.commits| && (t < |s.threads| && IsRead(s.threads[t]) ==> n <= s.threads[t].since)
  }

  lemma {:induction false} ExecKeepsStart(ld: Loader, s: System, schedule: seq<Turn>, t: nat, n: nat)
    requires StartedAfter(s, t, n)
    ensures StartedAfter(Exec(ld, s, schedule), t, n)
    decreases schedule
  {
    if schedule != [] {
      ExecKeepsStart(ld, Next(ld, s, schedule[0].thread, schedule[0].action), schedule[1..], t, n);
    }
  }

  /** Fresh reads: a read called after a commit never returns anything older than that commit. */
  lemma FreshReads(ld: Loader, n: nat, before: seq<Turn>, after: seq<Turn>, t: nat)
    requires var s := Exec(ld, Init(n), before); t < |s.threads| && !IsRead(s.threads[t])
    requires var s' := Exec(ld, Exec(ld, Init(n), before), after); t < |s'.threads| && s'.threads[t].Returned?
    ensures var s, s' := Exec(ld, Init(n), before), Exec(ld, Exec(ld, Init(n), before), after);
            && |s.commits| <= s'.threads[t].at <= |s'.commits|
            && s'.threads[t].got == Version(ld, s'.commits, s'.threads[t].at)
  {
    var s := Exec(ld, Init(n), before);
    ExecKeepsInv(ld, Init(n), before);
    ExecKeepsInv(ld, s, after);
    ExecKeepsStart(ld, s, after, t, |s.commits|);
  }

  /** Once something was committed before a read was called, the read returns a usable configuration. */
  lemma ReadsAreUsable(ld: Loader, n: nat, schedule: seq<Turn>, t: nat)
    requires t < |Exec(ld, Init(n), schedule).threads|
    requires Exec(ld, Init(n), schedule).threads[t].Returned?
    requires Exec(ld, Init(n), schedule).threads[t].since > 0
    ensures var got := Exec(ld, Init(n), schedule).threads[t].got;
            Initialised(got) && WellFormed(got)
  {
    NoTornReads(ld, n, schedule, t);
    var s := Exec(ld, Init(n), schedule);
    LoadWellFormed(ld, s.commits[s.threads[t].at - 1]);
  }

  function AsEvents(commits: seq<string>): seq<Event> {
    if commits == [] then [] else [Data(commits[0])] + AsEvents(commits[1..])
  }

  lemma {:induction false} LastCommitWins(ld: Loader, s: Contents, commits: seq<string>)
    requires forall i :: 0 <= i < |commits| ==> Load(ld, commits[i]).Ok?
    ensures AfterHistory(ld, s, AsEvents(commits)) == if commits == [] then s else Version(ld, commits, |commits|)
    decreases commits
  {
    if commits != [] {
      var rest := commits[1..];
      assert AsEvents(commits)[1..] == AsEvents(rest);
      LastCommitWins(ld, Load(ld, commits[0]).value, rest);
      assert forall i :: 0 <= i < |rest| ==> rest[i] == commits[i + 1];
    }
  }

  /**
    The interleaved updates refine the sequential ones: whenever no writer is active, memory is
    the commits replayed in order.
   */
  lemma InterleavingRefinesHistory(ld: Loader, n: nat, schedule: seq<Turn>)
    requires Exec(ld, Init(n), schedule).writer.None?
    ensures var s := Exec(ld, Init(n), schedule);
            s.memory == AfterHistory(ld, EMPTY, AsEvents(s.commits))
  {
    ExecKeepsInv(ld, Init(n), schedule);
    LastCommitWins(ld, EMPTY, Exec(ld, Init(n), schedule).commits);
  }

  // -------------------------------------------------------------------- progress

  /** One thread acting alone for a while. */
  function Alone(t: nat, actions: seq<Action>): seq<Turn> {
    if actions == [] then [] else [Turn(t, actions[0])] + Alone(t, actions[1..])
  }

  lemma AloneStep(ld: Loader, s: System, t: nat, a: Action, rest: seq<Action>)
    ensures Exec(ld, s, Alone(t, [a] + rest)) == Exec(ld, Next(ld, s, t, a), Alone(t, rest))
  {
    assert ([a] + rest)[1..] == rest;
    assert Alone(t, [a] + rest)[1..] == Alone(t, rest);
  }

  lemma AloneFive(ld: Loader, s: System, t: nat, a: Action, b: Action, c: Action, d: Action, e: Action)
    ensures Exec(ld, s, Alone(t, [a, b, c, d, e])) ==
            Next(ld, Next(ld, Next(ld, Next(ld, Next(ld, s, t, a), t, b), t, c), t, d), t, e)
  {
    var s1 := Next(ld, s, t, a);
    var s2 := Next(ld, s1, t, b);
    var s3 := Next(ld, s2, t, c);
    var s4 := Next(ld, s3, t, d);
    assert [a] + [b, c, d, e] == [a, b, c, d, e] && [b] + [c, d, e] == [b, c, d, e];
    assert [c] + [d, e] == [c, d, e] && [d] + [e] == [d, e] && [e] + [] == [e];
    AloneStep(ld, s, t, a, [b, c, d, e]);
    AloneStep(ld, s1, t, b, [c, d, e]);
    AloneStep(ld, s2, t, c, [d, e]);
    AloneStep(ld, s3, t, d, [e]);
    AloneStep(ld, s4, t, e, []);
  }

  /**
    Updates get through: an idle thread that finds the lock free replaces both fields and commits if
    the configuration loads, changes nothing if it does not, and in both cases leaves all else as it was.
   */
  lemma UpdateGetsThrough(ld: Loader, s: System, t: nat, raw: string)
    requires t < |s.threads| && s.threads[t].Idle? && s.writer.None? && s.readers == {}
    ensures Exec(ld, s, Alone(t, [CallUpdate(raw), Lock, Prepare, StoreMutators, StoreConfig, Unlock])) ==
            if Load(ld, raw).Ok? then s.(memory := Load(ld, raw).value, commits := s.commits + [raw]) else s
  {
    var s1 := Next(ld, s, t, CallUpdate(raw));
    var rest := [Lock, Prepare, StoreMutators, StoreConfig, Unlock];
    assert [CallUpdate(raw)] + rest == [CallUpdate(raw), Lock, Prepare, StoreMutators, StoreConfig, Unlock];
    AloneStep(ld, s, t, CallUpdate(raw), rest);
    AloneFive(ld, s1, t, Lock, Prepare, StoreMutators, StoreConfig, Unlock);
    var s3 := Next(ld, Next(ld, s1, t, Lock), t, Prepare);
    var s6 := Next(ld, Next(ld, Next(ld, s3, t, StoreMutators), t, StoreConfig), t, Unlock);
    assert s6.threads == s.threads;
  }

  /** Reads get through: an idle thread that finds no writer returns the current memory, next to any other readers. */
  lemma ReadGetsThrough(ld: Loader, s: System, t: nat)
    requires t < |s.threads| && s.threads[t].Idle? && s.writer.None? && t !in s.readers
    ensures Exec(ld, s, Alone(t, [CallGet, RLock, LoadConfig, LoadMutators, RUnlock])) ==
            s.(threads := s.threads[t := Returned(|s.commits|, |s.commits|, s.memory)])
  {
    AloneFive(ld, s, t, CallGet, RLock, LoadConfig, LoadMutators, RUnlock);
    var s2 := Next(ld, Next(ld, s, t, CallGet), t, RLock);
    assert s2.readers - {t} == s.readers;
  }
}
