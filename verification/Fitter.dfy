/**
 * The fitter's shared atomics under every interleaving of one worker thread with any number of concurrent
 * cancellations. Each action below is one atomic load or store, or one piece of work between two of them.
 */
module Fitter {

  datatype Stage = Ready | Extracting | Finalizing | Complete | Cancelled

  /** Where the worker is; `late` marks a finalize call that started after a cancellation was requested. */
  datatype Worker =
    | Idle
    | AddLoadStage(images: nat)
    | AddLoadFlag(images: nat)
    | AddConvert(images: nat)
    | AddStoreExtracting(images: nat)
    | AddLoop(done: nat, images: nat)
    | AddChunk(done: nat, images: nat)
    | AddCount(done: nat, images: nat)
    | AddStoreReady
    | AddStoreCancelled
    | LoadLoadStage
    | LoadRead
    | LoadStoreProcessed(restored: nat)
    | FinalizeLoadProcessed(late: bool)
    | FinalizeLoadStage(late: bool)
    | FinalizeLoadFlag(late: bool)
    | FinalizeStoreFinalizing(late: bool)
    | FinalizeWork(late: bool)
    | FinalizeStoreReady
    | FinalizeStoreComplete(late: bool)
    | FinalizeReturnOk(late: bool)

  /** The fixed parameters: the backend's batch size, and which of its two stores a cancel makes first. */
  datatype Config = Config(chunk: nat, flagFirst: bool)

  /** The atomics, the threads, and a history of what happened. */
  datatype State = State(
    stage: Stage,
    flag: bool,
    processed: nat,
    worker: Worker,
    cancelling: nat,
    added: nat,
    addedLate: nat,
    addedAfterComplete: nat,
    completed: bool,
    finalizedOk: nat,
    finalizedLateOk: nat)

  const START := State(Ready, false, 0, Idle, 0, 0, 0, 0, false, 0, 0)

  /** How a piece of the worker's work ends: it may return an error or throw. */
  datatype Outcome = Succeeds | Fails | Throws

  /** What may happen next; `outcome` and `restored` are what comes of the work the worker does. */
  datatype Action =
    | CallAdd(images: nat)
    | CallLoad
    | CallFinalize
    | Work(outcome: Outcome, restored: nat)
    | CancelFirstStore
    | CancelSecondStore

  function ChunkEnd(c: Config, done: nat, images: nat): nat {
    if images < done + c.chunk then images else done + c.chunk
  }

  /** An action that is not possible in a state leaves it unchanged. */
  function Apply(c: Config, s: State, a: Action): State {
    match a
    case CallAdd(images) => if s.worker.Idle? && images > 0 then s.(worker := AddLoadStage(images)) else s
    case CallLoad => if s.worker.Idle? then s.(worker := LoadLoadStage) else s
    case CallFinalize => if s.worker.Idle? then s.(worker := FinalizeLoadProcessed(s.flag)) else s
    case Work(outcome, restored) => WorkerStep(c, s, outcome, restored)
    case CancelFirstStore =>
      var t := s.(cancelling := s.cancelling + 1);
      if c.flagFirst then t.(flag := true) else t.(stage := Cancelled)
    case CancelSecondStore =>
      if s.cancelling == 0 then s
      else
        var t := s.(cancelling := s.cancelling - 1);
        if c.flagFirst then t.(stage := Cancelled) else t.(flag := true)
  }

  function WorkerStep(c: Config, s: State, outcome: Outcome, restored: nat): State {
    match s.worker
    case Idle => s
    // add_batch
    case AddLoadStage(images) => s.(worker := if s.stage == Complete then Idle else AddLoadFlag(images))
    case AddLoadFlag(images) => s.(worker := if s.flag then AddStoreCancelled else AddConvert(images))
    case AddConvert(images) =>
      s.(worker := match outcome
                   case Succeeds => AddStoreExtracting(images)
                   case Fails => Idle
                   case Throws => AddStoreReady)
    case AddStoreExtracting(images) => s.(stage := Extracting, worker := AddLoop(0, images))
    case AddLoop(done, images) =>
      s.(worker := if done >= images then AddStoreReady
                   else if s.flag then AddStoreCancelled
                   else AddChunk(done, images))
    case AddChunk(done, images) =>
      if !outcome.Succeeds? then s.(worker := AddStoreReady)
      else
        var n := if done < images then ChunkEnd(c, done, images) - done else 0;
        s.(worker := AddCount(done, images),
           added := s.added + n,
           addedLate := s.addedLate + (if s.flag then n else 0),
           addedAfterComplete := s.addedAfterComplete + (if s.completed then n else 0))
    case AddCount(done, images) =>
      var end := if done < images then ChunkEnd(c, done, images) else images;
      s.(processed := s.processed + (if done < end then end - done else 0), worker := AddLoop(end, images))
    case AddStoreReady => s.(stage := Ready, worker := Idle)
    case AddStoreCancelled => s.(stage := Cancelled, worker := Idle)
    // load_checkpoint
    case LoadLoadStage => s.(worker := if s.stage == Ready then LoadRead else Idle)
    case LoadRead => s.(worker := if outcome.Succeeds? then LoadStoreProcessed(restored) else Idle)
    case LoadStoreProcessed(n) => s.(processed := n, worker := Idle)
    // finalize
    case FinalizeLoadProcessed(late) => s.(worker := if s.processed == 0 then Idle else FinalizeLoadStage(late))
    case FinalizeLoadStage(late) => s.(worker := if s.stage == Ready then FinalizeLoadFlag(late) else Idle)
    case FinalizeLoadFlag(late) => s.(worker := if s.flag then Idle else FinalizeStoreFinalizing(late))
    case FinalizeStoreFinalizing(late) => s.(stage := Finalizing, worker := FinalizeWork(late))
    case FinalizeWork(late) => s.(worker := if outcome.Succeeds? then FinalizeStoreComplete(late) else FinalizeStoreReady)
    case FinalizeStoreReady => s.(stage := Ready, worker := Idle)
    case FinalizeStoreComplete(late) => s.(stage := Complete, completed := true, worker := FinalizeReturnOk(late))
    case FinalizeReturnOk(late) =>
      s.(worker := Idle, finalizedOk := s.finalizedOk + 1,
         finalizedLateOk := s.finalizedLateOk + (if late then 1 else 0))
  }

  function Run(c: Config, s: State, actions: seq<Action>): State
    decreases |actions|
  {
    if |actions| == 0 then s else Run(c, Apply(c, s, actions[0]), actions[1..])
  }

  // ---- the invariant ----

  /** Work that has passed every check and will change the fit or publish it. */
  predicate PastChecks(w: Worker) {
    || w.AddConvert? || w.AddStoreExtracting? || w.AddLoop? || w.AddChunk? || w.AddCount? || w.AddStoreReady?
    || w.FinalizeLoadFlag? || w.FinalizeStoreFinalizing? || w.FinalizeWork? || w.FinalizeStoreReady?
    || w.FinalizeStoreComplete?
  }

  predicate FinalizeChecking(w: Worker) {
    w.FinalizeLoadProcessed? || w.FinalizeLoadStage? || w.FinalizeLoadFlag?
  }

  predicate FinalizeAccepted(w: Worker) {
    w.FinalizeStoreFinalizing? || w.FinalizeWork? || w.FinalizeStoreComplete? || w.FinalizeReturnOk?
  }

  predicate Invariant(c: Config, s: State) {
    && c.chunk > 0 && c.flagFirst
    // a cancel sets the flag before anything else shows
    && (s.cancelling > 0 ==> s.flag)
    && (s.stage == Cancelled ==> s.flag)
    // the fit is published once, and then only a cancel still shows
    && (s.completed ==> s.stage == Complete || s.stage == Cancelled)
    && (s.completed ==> !PastChecks(s.worker) && !s.worker.LoadRead? && !s.worker.LoadStoreProcessed?)
    && (s.completed && s.worker.AddLoadFlag? ==> s.flag)
    && (s.worker.AddStoreCancelled? ==> s.flag)
    && s.addedAfterComplete == 0
    && (s.worker.FinalizeReturnOk? ==> s.completed)
    && s.finalizedOk + (if s.worker.FinalizeReturnOk? then 1 else 0) == (if s.completed then 1 else 0)
    // after the flag is set only the chunk in flight is still added
    && (!s.flag ==> s.addedLate == 0)
    && s.addedLate <= c.chunk
    && (s.flag && s.worker.AddChunk? ==> s.addedLate == 0)
    // a finalize that started after the flag was set never passes its flag check
    && s.finalizedLateOk == 0
    && (FinalizeChecking(s.worker) ==> s.worker.late ==> s.flag)
    && (FinalizeAccepted(s.worker) ==> !s.worker.late)
  }

  /** What every step keeps besides the invariant. */
  predicate Keeps(s: State, t: State) {
    && (s.flag ==> t.flag && t.added - s.added == t.addedLate - s.addedLate)
    && (s.completed ==> t.completed && t.added == s.added)
  }

  lemma CallStep(c: Config, s: State, a: Action)
    requires Invariant(c, s) && !a.Work?
    ensures Invariant(c, Apply(c, s, a)) && Keeps(s, Apply(c, s, a))
  {
  }

  predicate Adding(w: Worker) {
    w.AddLoop? || w.AddChunk? || w.AddCount?
  }

  lemma AddingStep(c: Config, s: State, outcome: Outcome, restored: nat)
    requires Invariant(c, s) && Adding(s.worker)
    ensures Invariant(c, WorkerStep(c, s, outcome, restored)) && Keeps(s, WorkerStep(c, s, outcome, restored))
  {
  }

  predicate Finalizes(w: Worker) {
    || FinalizeChecking(w) || FinalizeAccepted(w) || w.FinalizeStoreReady?
  }

  lemma FinalizingStep(c: Config, s: State, outcome: Outcome, restored: nat)
    requires Invariant(c, s) && Finalizes(s.worker)
    ensures Invariant(c, WorkerStep(c, s, outcome, restored)) && Keeps(s, WorkerStep(c, s, outcome, restored))
  {
  }

  lemma OtherStep(c: Config, s: State, outcome: Outcome, restored: nat)
    requires Invariant(c, s) && !Adding(s.worker) && !Finalizes(s.worker)
    ensures Invariant(c, WorkerStep(c, s, outcome, restored)) && Keeps(s, WorkerStep(c, s, outcome, restored))
  {
  }

  lemma InvariantStep(c: Config, s: State, a: Action)
    requires Invariant(c, s)
    ensures Invariant(c, Apply(c, s, a)) && Keeps(s, Apply(c, s, a))
  {
    hide Invariant;
    hide Keeps;
    hide WorkerStep;
    if !a.Work? {
      CallStep(c, s, a);
    } else if Adding(s.worker) {
      AddingStep(c, s, a.outcome, a.restored);
    } else if Finalizes(s.worker) {
      FinalizingStep(c, s, a.outcome, a.restored);
    } else {
      OtherStep(c, s, a.outcome, a.restored);
    }
  }

  lemma {:induction false} InvariantRun(c: Config, s: State, actions: seq<Action>)
    requires Invariant(c, s)
    ensures Invariant(c, Run(c, s, actions)) && Keeps(s, Run(c, s, actions))
    decreases |actions|
  {
    hide Invariant;
    hide Apply;
    if |actions| > 0 {
      InvariantStep(c, s, actions[0]);
      InvariantRun(c, Apply(c, s, actions[0]), actions[1..]);
    }
  }

  lemma {:induction false} RunAppend(c: Config, s: State, a: seq<Action>, b: seq<Action>)
    ensures Run(c, s, a + b) == Run(c, Run(c, s, a), b)
    decreases |a|
  {
    if |a| == 0 {
      assert a + b == b;
    } else {
      RunAppend(c, Apply(c, s, a[0]), a[1..], b);
      assert (a + b)[1..] == a[1..] + b;
    }
  }

  // ---- what holds in every run ----

  lemma ReachableInvariant(c: Config, actions: seq<Action>)
    requires c.chunk > 0 && c.flagFirst
    ensures Invariant(c, Run(c, START, actions))
  {
    InvariantRun(c, START, actions);
  }

  /** Finalize returns OK at most once. */
  lemma FinalizedAtMostOnce(c: Config, actions: seq<Action>)
    requires c.chunk > 0 && c.flagFirst
    ensures Run(c, START, actions).finalizedOk <= 1
  {
    ReachableInvariant(c, actions);
  }

  /** Once COMPLETE was stored the stage is only ever COMPLETE or CANCELLED and no sample is added. */
  lemma CompleteIsFinal(c: Config, before: seq<Action>, after: seq<Action>)
    requires c.chunk > 0 && c.flagFirst && Run(c, START, before).completed
    ensures var s, t := Run(c, START, before), Run(c, START, before + after);
            && (t.stage == Complete || t.stage == Cancelled)
            && t.added == s.added && t.finalizedOk <= 1
  {
    ReachableInvariant(c, before);
    RunAppend(c, START, before, after);
    InvariantRun(c, Run(c, START, before), after);
  }

  /**
   * Once the flag is set it stays set, at most one more chunk is added in total, and no finalize that
   * starts afterwards returns OK.
   */
  lemma CancellationHolds(c: Config, before: seq<Action>, after: seq<Action>)
    requires c.chunk > 0 && c.flagFirst && Run(c, START, before).flag
    ensures var s, t := Run(c, START, before), Run(c, START, before + after);
            t.flag && t.added <= s.added + c.chunk && t.finalizedLateOk == 0
  {
    ReachableInvariant(c, before);
    RunAppend(c, START, before, after);
    InvariantRun(c, Run(c, START, before), after);
  }

  /** No finalize that has yet to check the flag returns OK any more. */
  predicate NoneAccepted(s: State) {
    s.flag && !FinalizeAccepted(s.worker)
  }

  lemma {:induction false} NoneAcceptedStays(c: Config, s: State, actions: seq<Action>)
    requires NoneAccepted(s)
    ensures Run(c, s, actions).finalizedOk == s.finalizedOk
    decreases |actions|
  {
    if |actions| > 0 {
      NoneAcceptedStays(c, Apply(c, s, actions[0]), actions[1..]);
    }
  }

  /** Once the flag is set finalize returns OK only if one had already passed its check of the flag. */
  lemma NoFinalizeAfterCancel(c: Config, before: seq<Action>, after: seq<Action>)
    requires Run(c, START, before).flag && !FinalizeAccepted(Run(c, START, before).worker)
    ensures Run(c, START, before + after).finalizedOk == Run(c, START, before).finalizedOk
  {
    RunAppend(c, START, before, after);
    NoneAcceptedStays(c, Run(c, START, before), after);
  }

  // ---- what does not hold, or only because of the order of the two stores ----

  /** One action more at the end of a run. */
  lemma Then(c: Config, actions: seq<Action>, s: State, a: Action) returns (longer: seq<Action>, t: State)
    requires Run(c, START, actions) == s
    ensures longer == actions + [a] && t == Apply(c, s, a) && Run(c, START, longer) == t
  {
    longer, t := actions + [a], Apply(c, s, a);
    RunAppend(c, START, actions, [a]);
    assert [a][1..] == [];
  }

  /** The worker passes the checks of a one-image batch. */
  lemma ReachConvert(c: Config, actions: seq<Action>, s: State) returns (longer: seq<Action>, t: State)
    requires Run(c, START, actions) == s && s.worker == Idle && s.stage != Complete && !s.flag
    ensures Run(c, START, longer) == t && t == s.(worker := AddConvert(1))
  {
    hide Run;
    longer, t := Then(c, actions, s, CallAdd(1));
    longer, t := Then(c, longer, t, Work(Succeeds, 0));
    longer, t := Then(c, longer, t, Work(Succeeds, 0));
  }

  /** The worker steps from the start of a one-image batch to the point where its chunk is to be added. */
  lemma ReachChunk(c: Config, actions: seq<Action>, s: State) returns (longer: seq<Action>, t: State)
    requires c.chunk > 0 && Run(c, START, actions) == s && s.worker == Idle && s.stage != Complete && !s.flag
    ensures Run(c, START, longer) == t && t == s.(stage := Extracting, worker := AddChunk(0, 1))
  {
    hide Run;
    longer, t := ReachConvert(c, actions, s);
    longer, t := Then(c, longer, t, Work(Succeeds, 0));
    longer, t := Then(c, longer, t, Work(Succeeds, 0));
    longer, t := Then(c, longer, t, Work(Succeeds, 0));
  }

  /** Steps of the worker alone, with one outcome of its work. */
  function Steps(outcome: Outcome, n: nat): (actions: seq<Action>)
    ensures |actions| == n && forall i :: 0 <= i < n ==> actions[i] == Work(outcome, 0)
  {
    seq(n, i => Work(outcome, 0))
  }

  lemma OneStep(c: Config, s: State, outcome: Outcome, n: nat)
    requires n > 0
    ensures Run(c, s, Steps(outcome, n)) == Run(c, Apply(c, s, Work(outcome, 0)), Steps(outcome, n - 1))
  {
    assert Steps(outcome, n)[1..] == Steps(outcome, n - 1);
  }

  lemma NoSteps(c: Config, s: State, outcome: Outcome)
    ensures Run(c, s, Steps(outcome, 0)) == s
  {
  }

  lemma OneAction(c: Config, s: State, a: Action, rest: seq<Action>)
    ensures Run(c, s, [a] + rest) == Run(c, Apply(c, s, a), rest)
  {
    assert ([a] + rest)[1..] == rest;
  }

  lemma TwoActions(c: Config, s: State, a: Action, b: Action)
    ensures Run(c, s, [a, b]) == Apply(c, Apply(c, s, a), b)
  {
    hide Apply;
    assert [a, b] == [a] + [b] && [b] == [b] + [];
    OneAction(c, s, a, [b]);
    OneAction(c, Apply(c, s, a), b, []);
  }

  lemma ThreeActions(c: Config, s: State, a: Action, b: Action, d: Action)
    ensures Run(c, s, [a, b, d]) == Apply(c, Apply(c, Apply(c, s, a), b), d)
  {
    hide Apply;
    hide Run;
    assert [a, b, d] == [a] + [b, d];
    OneAction(c, s, a, [b, d]);
    TwoActions(c, Apply(c, s, a), b, d);
  }

  // ---- what undisturbed calls do ----

  lemma {:induction false} IdleStays(c: Config, s: State, outcome: Outcome, n: nat)
    requires s.worker == Idle
    ensures Run(c, s, Steps(outcome, n)) == s
    decreases n
  {
    hide Run;
    if n == 0 {
      NoSteps(c, s, outcome);
    } else {
      OneStep(c, s, outcome, n);
      IdleStays(c, s, outcome, n - 1);
    }
  }

  /** One more chunk is added and counted. */
  lemma ChunkIsCounted(c: Config, s: State, k: nat)
    requires c.chunk > 0 && s.worker.AddLoop? && s.worker.done < s.worker.images && !s.flag && !s.completed && k >= 3
    ensures var end := ChunkEnd(c, s.worker.done, s.worker.images);
              Run(c, s, Steps(Succeeds, k))
              == Run(c, s.(worker := AddLoop(end, s.worker.images), processed := s.processed + (end - s.worker.done),
                           added := s.added + (end - s.worker.done)), Steps(Succeeds, k - 3))
  {
    hide Run;
    hide Steps;
    OneStep(c, s, Succeeds, k);
    var t := Apply(c, s, Work(Succeeds, 0));
    OneStep(c, t, Succeeds, k - 1);
    OneStep(c, Apply(c, t, Work(Succeeds, 0)), Succeeds, k - 2);
  }

  /** The loop over the chunks counts every image of the batch that is left. */
  lemma {:induction false} LoopCounts(c: Config, s: State, done: nat, images: nat, k: nat)
    requires c.chunk > 0 && s.worker == AddLoop(done, images) && done <= images && !s.flag && !s.completed
    requires k >= 3 * (images - done) + 2
    ensures Run(c, s, Steps(Succeeds, k))
         == s.(worker := Idle, stage := Ready, processed := s.processed + (images - done),
               added := s.added + (images - done))
    decreases images - done
  {
    hide Run;
    if done == images {
      OneStep(c, s, Succeeds, k);
      OneStep(c, Apply(c, s, Work(Succeeds, 0)), Succeeds, k - 1);
      IdleStays(c, s.(worker := Idle, stage := Ready), Succeeds, k - 2);
    } else {
      var end := ChunkEnd(c, done, images);
      ChunkIsCounted(c, s, k);
      LoopCounts(c, s.(worker := AddLoop(end, images), processed := s.processed + (end - done),
                       added := s.added + (end - done)), end, images, k - 3);
    }
  }

  /** The worker passes its checks, and shows EXTRACTING. */
  lemma AddStarts(c: Config, s: State, n: nat, k: nat)
    requires s.worker == Idle && s.stage != Complete && !s.flag && n > 0 && k >= 4
    ensures Run(c, s, [CallAdd(n)] + Steps(Succeeds, k))
         == Run(c, s.(stage := Extracting, worker := AddLoop(0, n)), Steps(Succeeds, k - 4))
  {
    hide Run;
    hide Steps;
    OneAction(c, s, CallAdd(n), Steps(Succeeds, k));
    var t := s.(worker := AddLoadStage(n));
    OneStep(c, t, Succeeds, k);
    OneStep(c, s.(worker := AddLoadFlag(n)), Succeeds, k - 1);
    OneStep(c, s.(worker := AddConvert(n)), Succeeds, k - 2);
    OneStep(c, s.(worker := AddStoreExtracting(n)), Succeeds, k - 3);
  }

  /** A batch that nothing disturbs is added and counted whole, whatever the chunk size, and shows READY again. */
  lemma BatchIsCounted(c: Config, s: State, n: nat, k: nat)
    requires c.chunk > 0 && s.worker == Idle && s.stage != Complete && !s.flag && !s.completed && n > 0
    requires k >= 3 * n + 6
    ensures Run(c, s, [CallAdd(n)] + Steps(Succeeds, k))
         == s.(stage := Ready, processed := s.processed + n, added := s.added + n)
  {
    hide Run;
    AddStarts(c, s, n, k);
    LoopCounts(c, s.(stage := Extracting, worker := AddLoop(0, n)), 0, n, k - 4);
  }

  /** A loop whose first `j` chunks succeed has added and counted exactly those. */
  lemma {:induction false} WholeChunks(c: Config, s: State, done: nat, images: nat, j: nat)
    requires c.chunk > 0 && s.worker == AddLoop(done, images) && !s.flag && !s.completed
    requires done + j * c.chunk < images
    ensures Run(c, s, Steps(Succeeds, 3 * j))
         == s.(worker := AddLoop(done + j * c.chunk, images), processed := s.processed + j * c.chunk,
               added := s.added + j * c.chunk)
    decreases j
  {
    hide Run;
    if j == 0 {
      NoSteps(c, s, Succeeds);
    } else {
      Chunks(j, c.chunk);
      var end := done + c.chunk;
      ChunkIsCounted(c, s, 3 * j);
      WholeChunks(c, s.(worker := AddLoop(end, images), processed := s.processed + c.chunk,
                        added := s.added + c.chunk), end, images, j - 1);
    }
  }

  lemma Chunks(j: nat, chunk: nat)
    requires j > 0
    ensures j * chunk == chunk + (j - 1) * chunk && (j - 1) * chunk >= 0
  {
  }

  /** What the caller and the worker do when the chunk after the first `j` fails. */
  function FailingBatch(n: nat, j: nat, outcome: Outcome): seq<Action> {
    [CallAdd(n)] + Steps(Succeeds, 4 + 3 * j) + [Work(Succeeds, 0), Work(outcome, 0), Work(outcome, 0)]
  }

  /** A batch whose chunk after the first `j` fails leaves exactly those counted, and shows READY again. */
  lemma FailedBatchCountsWholeChunks(c: Config, s: State, n: nat, j: nat, outcome: Outcome)
    requires c.chunk > 0 && s.worker == Idle && s.stage != Complete && !s.flag && !s.completed
    requires j * c.chunk < n && outcome != Succeeds
    ensures Run(c, s, FailingBatch(n, j, outcome))
         == s.(stage := Ready, processed := s.processed + j * c.chunk, added := s.added + j * c.chunk)
  {
    hide Run;
    hide Steps;
    var reach := [CallAdd(n)] + Steps(Succeeds, 4 + 3 * j);
    RunAppend(c, s, reach, [Work(Succeeds, 0), Work(outcome, 0), Work(outcome, 0)]);
    AddStarts(c, s, n, 4 + 3 * j);
    WholeChunks(c, s.(stage := Extracting, worker := AddLoop(0, n)), 0, n, j);
    ThreeActions(c, Run(c, s, reach), Work(Succeeds, 0), Work(outcome, 0), Work(outcome, 0));
  }

  /** A checkpoint that is read restores its count; one that cannot be read changes nothing. */
  lemma LoadRestores(c: Config, s: State, outcome: Outcome, restored: nat)
    requires s.worker == Idle && s.stage == Ready
    ensures Run(c, s, [CallLoad, Work(Succeeds, 0), Work(outcome, restored), Work(Succeeds, 0)])
         == if outcome.Succeeds? then s.(processed := restored) else s
  {
    hide Run;
    var w := [Work(Succeeds, 0), Work(outcome, restored), Work(Succeeds, 0)];
    assert [CallLoad, Work(Succeeds, 0), Work(outcome, restored), Work(Succeeds, 0)] == [CallLoad] + w;
    OneAction(c, s, CallLoad, w);
    ThreeActions(c, Apply(c, s, CallLoad), Work(Succeeds, 0), Work(outcome, restored), Work(Succeeds, 0));
  }

  /** The worker passes finalize's checks, and shows FINALIZING while it works. */
  lemma FinalizeStarts(c: Config, s: State, k: nat)
    requires s.worker == Idle && s.stage == Ready && !s.flag && s.processed > 0 && k >= 4
    ensures Run(c, s, [CallFinalize] + Steps(Succeeds, k))
         == Run(c, s.(stage := Finalizing, worker := FinalizeWork(false)), Steps(Succeeds, k - 4))
  {
    hide Run;
    hide Steps;
    OneAction(c, s, CallFinalize, Steps(Succeeds, k));
    OneStep(c, s.(worker := FinalizeLoadProcessed(false)), Succeeds, k);
    OneStep(c, s.(worker := FinalizeLoadStage(false)), Succeeds, k - 1);
    OneStep(c, s.(worker := FinalizeLoadFlag(false)), Succeeds, k - 2);
    OneStep(c, s.(worker := FinalizeStoreFinalizing(false)), Succeeds, k - 3);
  }

  /** A finalize that nothing disturbs publishes the fit and returns OK. */
  lemma FinalizeCompletes(c: Config, s: State, k: nat)
    requires s.worker == Idle && s.stage == Ready && !s.flag && s.processed > 0 && k >= 7
    ensures Run(c, s, [CallFinalize] + Steps(Succeeds, k))
         == s.(stage := Complete, completed := true, finalizedOk := s.finalizedOk + 1)
  {
    hide Run;
    FinalizeStarts(c, s, k);
    var t := s.(stage := Finalizing, worker := FinalizeWork(false));
    OneStep(c, t, Succeeds, k - 4);
    OneStep(c, t.(worker := FinalizeStoreComplete(false)), Succeeds, k - 5);
    var u := s.(stage := Complete, completed := true, worker := FinalizeReturnOk(false));
    OneStep(c, u, Succeeds, k - 6);
    IdleStays(c, Apply(c, u, Work(Succeeds, 0)), Succeeds, k - 7);
  }

  /** One that fails in its work leaves the fit as it was, and READY. */
  lemma FailedFinalize(c: Config, s: State, outcome: Outcome)
    requires s.worker == Idle && s.stage == Ready && !s.flag && s.processed > 0 && outcome != Succeeds
    ensures Run(c, s, [CallFinalize] + Steps(Succeeds, 4) + [Work(outcome, 0), Work(outcome, 0)]) == s
  {
    hide Run;
    hide Steps;
    RunAppend(c, s, [CallFinalize] + Steps(Succeeds, 4), [Work(outcome, 0), Work(outcome, 0)]);
    FinalizeStarts(c, s, 4);
    var t := s.(stage := Finalizing, worker := FinalizeWork(false));
    NoSteps(c, t, Succeeds);
    TwoActions(c, t, Work(outcome, 0), Work(outcome, 0));
  }

  /** Calls that are refused leave everything as it was, but that an addition after a cancel shows CANCELLED. */
  lemma RefusedAddition(c: Config, s: State, n: nat)
    requires s.worker == Idle && n > 0 && (s.stage == Complete || s.flag)
    ensures Run(c, s, [CallAdd(n)] + Steps(Succeeds, 3)) == if s.stage == Complete then s else s.(stage := Cancelled)
  {
    hide Run;
    hide Steps;
    RefusedAt(c, s, CallAdd(n));
  }

  lemma RefusedLoad(c: Config, s: State)
    requires s.worker == Idle && s.stage != Ready
    ensures Run(c, s, [CallLoad] + Steps(Succeeds, 3)) == s
  {
    hide Run;
    hide Steps;
    RefusedAt(c, s, CallLoad);
  }

  lemma RefusedFinalize(c: Config, s: State)
    requires s.worker == Idle && (s.processed == 0 || s.stage != Ready || s.flag)
    ensures Run(c, s, [CallFinalize] + Steps(Succeeds, 3)) == s
  {
    hide Run;
    hide Steps;
    RefusedAt(c, s, CallFinalize);
  }

  lemma RefusedAt(c: Config, s: State, call: Action)
    ensures var t := Apply(c, s, call);
            var w := Work(Succeeds, 0);
              Run(c, s, [call] + Steps(Succeeds, 3)) == Apply(c, Apply(c, Apply(c, t, w), w), w)
  {
    hide Apply;
    hide Run;
    var t, w := Apply(c, s, call), Work(Succeeds, 0);
    OneAction(c, s, call, Steps(Succeeds, 3));
    OneStep(c, t, Succeeds, 3);
    OneStep(c, Apply(c, t, w), Succeeds, 2);
    OneStep(c, Apply(c, Apply(c, t, w), w), Succeeds, 1);
    NoSteps(c, Apply(c, Apply(c, Apply(c, t, w), w), w), Succeeds);
  }

  /** The calls of a training: one batch after the other. */
  function Batches(sizes: seq<nat>): seq<Action> {
    if |sizes| == 0 then []
    else
      var n := sizes[|sizes| - 1];
      Batches(sizes[..|sizes| - 1]) + ([CallAdd(n)] + Steps(Succeeds, 3 * n + 6))
  }

  function Total(sizes: seq<nat>): nat {
    if |sizes| == 0 then 0 else Total(sizes[..|sizes| - 1]) + sizes[|sizes| - 1]
  }

  lemma {:induction false} BatchesAreCounted(c: Config, sizes: seq<nat>)
    requires c.chunk > 0 && forall i :: 0 <= i < |sizes| ==> sizes[i] > 0
    ensures Run(c, START, Batches(sizes)) == START.(processed := Total(sizes), added := Total(sizes))
    decreases |sizes|
  {
    if |sizes| > 0 {
      hide Run;
      var front, n := sizes[..|sizes| - 1], sizes[|sizes| - 1];
      BatchesAreCounted(c, front);
      RunAppend(c, START, Batches(front), [CallAdd(n)] + Steps(Succeeds, 3 * n + 6));
      BatchIsCounted(c, START.(processed := Total(front), added := Total(front)), n, 3 * n + 6);
    }
  }

  /** A training that nothing disturbs counts every image of every batch, and its finalize returns OK. */
  lemma TrainingCompletes(c: Config, sizes: seq<nat>)
    requires c.chunk > 0 && |sizes| > 0 && forall i :: 0 <= i < |sizes| ==> sizes[i] > 0
    ensures Run(c, START, Batches(sizes) + ([CallFinalize] + Steps(Succeeds, 7)))
         == START.(stage := Complete, completed := true, finalizedOk := 1, processed := Total(sizes), added := Total(sizes))
  {
    hide Run;
    BatchesAreCounted(c, sizes);
    RunAppend(c, START, Batches(sizes), [CallFinalize] + Steps(Succeeds, 7));
    FinalizeCompletes(c, START.(processed := Total(sizes), added := Total(sizes)), 7);
  }

  // ---- when the stage stays CANCELLED ----

  /** Work past its checks, or about to return, that may still store a stage other than CANCELLED. */
  predicate MayOverwrite(c: Config, w: Worker) {
    || w.AddConvert? || w.AddStoreExtracting? || w.AddChunk? || w.AddStoreReady?
    || (w.AddLoop? && w.done >= w.images)
    || (w.AddCount? && (w.done >= w.images || ChunkEnd(c, w.done, w.images) >= w.images))
    || w.FinalizeStoreFinalizing? || w.FinalizeWork? || w.FinalizeStoreReady? || w.FinalizeStoreComplete?
  }

  /** A cancellation shows in the stage or is about to, and no work in flight will hide it. */
  predicate Settled(c: Config, s: State) {
    c.flagFirst && s.flag && (s.stage == Cancelled || s.cancelling > 0) && !MayOverwrite(c, s.worker)
  }

  lemma SettledStep(c: Config, s: State, a: Action)
    requires Settled(c, s)
    ensures Settled(c, Apply(c, s, a)) && (s.stage == Cancelled ==> Apply(c, s, a).stage == Cancelled)
    ensures a.CancelSecondStore? ==> Apply(c, s, a).stage == Cancelled
  {
  }

  lemma {:induction false} StaysSettled(c: Config, s: State, actions: seq<Action>)
    requires Settled(c, s)
    ensures Settled(c, Run(c, s, actions)) && (s.stage == Cancelled ==> Run(c, s, actions).stage == Cancelled)
    decreases |actions|
  {
    hide Settled;
    hide Apply;
    if |actions| > 0 {
      SettledStep(c, s, actions[0]);
      StaysSettled(c, Apply(c, s, actions[0]), actions[1..]);
    }
  }

  /** How many steps a worker whose work throws needs to store its stage. */
  function StepsToStore(c: Config, w: Worker): nat {
    match w
    case AddCount(_, _) => 3
    case AddConvert(_) => 2
    case AddLoop(_, _) => 2
    case AddChunk(_, _) => 2
    case FinalizeWork(_) => 2
    case _ => 1
  }

  lemma Overwrites(c: Config, s: State) returns (actions: seq<Action>)
    requires s.flag && MayOverwrite(c, s.worker)
    ensures Run(c, s, actions).stage != Cancelled
  {
    var n := StepsToStore(c, s.worker);
    actions := Steps(Throws, n);
    var t := s;
    hide Run;
    hide Steps;
    OneStep(c, s, Throws, n);
    t := Apply(c, s, Work(Throws, 0));
    if n > 1 {
      OneStep(c, t, Throws, n - 1);
      t := Apply(c, t, Work(Throws, 0));
    }
    if n > 2 {
      OneStep(c, t, Throws, n - 2);
      t := Apply(c, t, Work(Throws, 0));
    }
    NoSteps(c, t, Throws);
  }

  /**
   * After a cancel the stage stays CANCELLED, whatever any thread does next, if and only if the worker was
   * not caught between its checks and its last store.
   */
  lemma CancelledForGood(c: Config, s: State)
    requires c.flagFirst && s.flag && s.stage == Cancelled
    ensures !MayOverwrite(c, s.worker) <==> forall actions :: Run(c, s, actions).stage == Cancelled
  {
    if MayOverwrite(c, s.worker) {
      var actions := Overwrites(c, s);
      assert Run(c, s, actions).stage != Cancelled;
    } else {
      forall actions ensures Run(c, s, actions).stage == Cancelled {
        StaysSettled(c, s, actions);
      }
    }
  }

  /**
   * A cancel that begins while no call is in progress leaves the stage CANCELLED for good, whatever
   * happens between its two stores and after them.
   */
  lemma CancelWhileIdle(c: Config, before: seq<Action>, between: seq<Action>, after: seq<Action>)
    requires c.flagFirst && Run(c, START, before).worker == Idle
    ensures Run(c, START, before + [CancelFirstStore] + between + [CancelSecondStore] + after).stage == Cancelled
  {
    hide Apply;
    var first, second := [CancelFirstStore], [CancelSecondStore];
    var s := Run(c, START, before);
    var t := Apply(c, s, CancelFirstStore);
    FirstStoreSettles(c, s);
    RunAppend(c, START, before + first + between + second, after);
    RunAppend(c, START, before + first + between, second);
    RunAppend(c, START, before + first, between);
    RunAppend(c, START, before, first);
    assert first[1..] == [] && second[1..] == [];
    var u := Run(c, t, between);
    StaysSettled(c, t, between);
    SettledStep(c, u, CancelSecondStore);
    StaysSettled(c, Apply(c, u, CancelSecondStore), after);
  }

  lemma FirstStoreSettles(c: Config, s: State)
    requires c.flagFirst && s.worker == Idle
    ensures Settled(c, Apply(c, s, CancelFirstStore))
  {
  }

  /** One caught in the middle does not: a batch in flight may still store READY after the cancel returned. */
  lemma CancelledStageMayBeOverwritten(c: Config)
    requires c.chunk > 0
    ensures exists actions :: var s := Run(c, START, actions); s.flag && s.cancelling == 0 && s.stage == Ready
  {
    var actions, s := ReachChunk(c, [], START);
    actions, s := Then(c, actions, s, CancelFirstStore);
    actions, s := Then(c, actions, s, CancelSecondStore);
    actions, s := Then(c, actions, s, Work(Fails, 0));
    actions, s := Then(c, actions, s, Work(Succeeds, 0));
  }

  /** A run that adds one image. */
  lemma ReachTrained(c: Config) returns (actions: seq<Action>, s: State)
    requires c.chunk > 0
    ensures Run(c, START, actions) == s && s == START.(processed := 1, added := 1)
  {
    actions, s := ReachChunk(c, [], START);
    actions, s := Then(c, actions, s, Work(Succeeds, 0));
    actions, s := Then(c, actions, s, Work(Succeeds, 0));
    actions, s := Then(c, actions, s, Work(Succeeds, 0));
    actions, s := Then(c, actions, s, Work(Succeeds, 0));
  }

  /** A run to the point where finalize has passed its checks. */
  lemma ReachFinalizing(c: Config) returns (actions: seq<Action>, s: State)
    requires c.chunk > 0
    ensures Run(c, START, actions) == s
    ensures s == START.(processed := 1, added := 1, worker := FinalizeStoreFinalizing(false))
  {
    hide Run;
    actions, s := ReachTrained(c);
    actions, s := Then(c, actions, s, CallFinalize);
    actions, s := Then(c, actions, s, Work(Succeeds, 0));
    actions, s := Then(c, actions, s, Work(Succeeds, 0));
    actions, s := Then(c, actions, s, Work(Succeeds, 0));
  }

  /** A run that publishes a fit of one image. */
  lemma ReachComplete(c: Config) returns (actions: seq<Action>, s: State)
    requires c.chunk > 0
    ensures Run(c, START, actions) == s
    ensures s.completed && s.stage == Complete && s.worker == Idle && !s.flag && s.addedAfterComplete == 0
  {
    hide Run;
    actions, s := ReachFinalizing(c);
    actions, s := Then(c, actions, s, Work(Succeeds, 0));
    actions, s := Then(c, actions, s, Work(Succeeds, 0));
    actions, s := Then(c, actions, s, Work(Succeeds, 0));
    actions, s := Then(c, actions, s, Work(Succeeds, 0));
  }

  /** A published fit stays untouched in every run exactly because a cancel stores its flag before the stage. */
  lemma StoreOrderMatters(c: Config)
    requires c.chunk > 0
    ensures c.flagFirst <==> forall actions :: Run(c, START, actions).addedAfterComplete == 0
  {
    if c.flagFirst {
      forall actions ensures Run(c, START, actions).addedAfterComplete == 0 {
        ReachableInvariant(c, actions);
      }
    } else {
      var actions, s := ReachComplete(c);
      actions, s := Then(c, actions, s, CancelFirstStore);
      actions, s := ReachChunk(c, actions, s);
      actions, s := Then(c, actions, s, Work(Succeeds, 0));
      assert Run(c, START, actions).addedAfterComplete == 1;
    }
  }
}
