/** The PaDiM fit object: additions, checkpoints and artifacts, and whole runs of them under faults. */
module PadimFit {
  import opened Numbers
  import opened Vectors
  import opened Cholesky
  import opened PadimSizing
  import opened Padim
  import opened PadimCovariance

  predicate Shaped(batch: seq<Image>, size: nat) {
    |batch| > 0 && forall k :: 0 <= k < |batch| ==> |batch[k]| == size
  }

  predicate BatchFinite(batch: seq<Image>) {
    forall k :: 0 <= k < |batch| ==> AllFinite(batch[k])
  }

  function BatchReals(batch: seq<Image>): (images: seq<Vec>)
    requires BatchFinite(batch)
    ensures |images| == |batch| && forall k :: 0 <= k < |images| ==> images[k] == Reals(batch[k])
  {
    seq(|batch|, k requires 0 <= k < |batch| => Reals(batch[k]))
  }

  method CheckShape(batch: seq<Image>, size: nat) returns (ok: bool)
    ensures ok == Shaped(batch, size)
  {
    if |batch| == 0 {
      return false;
    }
    for k := 0 to |batch|
      invariant forall j :: 0 <= j < k ==> |batch[j]| == size
    {
      if |batch[k]| != size {
        return false;
      }
    }
    return true;
  }

  method CheckValues(batch: seq<Image>) returns (ok: bool)
    ensures ok == BatchFinite(batch)
  {
    for k := 0 to |batch|
      invariant BatchFinite(batch[..k])
    {
      for i := 0 to |batch[k]|
        invariant AllFinite(batch[k][..i])
      {
        if batch[k][i].NonFinite? {
          return false;
        }
      }
      assert batch[k][..|batch[k]|] == batch[k];
    }
    return true;
  }

  /** What the device does during an addition: whether memory is there, and at which location a call fails. */
  datatype UpdateFaults = UpdateFaults(allocates: bool, failsAt: Option<nat>)

  /**
   * What the environment does while artifacts are written: where the inverse exceeds float32, whether
   * the device answers, and whether the files can be written.
   */
  datatype ArtifactFaults = ArtifactFaults(unfit: set<nat>, answers: bool, writes: bool)

  // ---- what a fit holds ----

  /** The state last restored or zero, and the images counted since. */
  datatype Fit = Fit(base: Snapshot, images: seq<Vec>, poisoned: bool, started: bool)

  function Nothing(config: PadimConfig): (s: Snapshot)
    ensures s.samples == 0
  {
    if config.Valid() then
      ProductNonNegative(config.Size(), config.Dimension());
      Snapshot(0, Zeros(config.Size()), Zeros(config.Size() * config.Dimension()))
    else Snapshot(0, [], [])
  }

  function Samples(f: Fit): nat {
    f.base.samples + |f.images|
  }

  /** The statistics at hand are whole and not empty. */
  predicate Whole(config: PadimConfig, f: Fit) {
    config.Valid() && !f.poisoned && f.started && Samples(f) > 0
  }

  /** A batch passes every check, so that its update begins. */
  predicate UpdateBegins(config: PadimConfig, f: Fit, batch: seq<Image>, faults: UpdateFaults) {
    && config.Valid() && Shaped(batch, config.Size()) && BatchFinite(batch) && !f.poisoned
    && Samples(f) + |batch| <= SIZE_MAX && (config.gpu ==> f.started || faults.allocates)
  }

  predicate DeviceFails(config: PadimConfig, faults: UpdateFaults)
    requires config.Valid()
  {
    config.gpu && faults.failsAt.Some? && faults.failsAt.value < config.Locations()
  }

  /** The error of a failed addition, where the host tests shapes first and the device values. */
  function AddError(config: PadimConfig, f: Fit, batch: seq<Image>): Error {
    if !config.Valid() then config.Refusal()
    else if config.gpu && !BatchFinite(batch) then InvalidArgument
    else if config.gpu && f.poisoned then NotInitialized
    else if !Shaped(batch, config.Size()) then TensorShapeMismatch
    else if Samples(f) + |batch| > SIZE_MAX then OutOfMemory
    else if config.gpu then CudaFailure else InvalidArgument
  }

  ghost predicate Sound(config: PadimConfig, f: Fit) {
    if config.Valid() then Sized(f.base, config.Locations(), config.Dimension()) && Uniform(f.images, config.Size())
    else !f.started
  }

  /** The state that whole batches give. */
  ghost function Current(config: PadimConfig, f: Fit): (s: Snapshot)
    requires config.Valid() && Sound(config, f)
    ensures s.samples == Samples(f) && Sized(s, config.Locations(), config.Dimension())
  {
    SnapshotAfter(f.base, f.images, config.Locations(), config.Dimension())
  }

  datatype Artifacts = Artifacts(means: seq<Vec>, covariances: seq<seq<Vec>>)

  /** The means and regularized covariances of a state, at every location. */
  ghost predicate AreArtifacts(a: Artifacts, s: Snapshot, config: PadimConfig)
    requires config.Valid() && s.samples > 0 && Sized(s, config.Locations(), config.Dimension())
  {
    var locations, d := config.Locations(), config.Dimension();
    && |a.means| == |a.covariances| == locations
    && forall l :: 0 <= l < locations ==>
         && IsMean(a.means[l], s.sums, s.samples, locations, d, l)
         && a.covariances[l] == CovarianceOf(s, config.regularization.value, locations, d, l)
  }

  /** The covariance at location `l` factorizes and its inverse can be stored. */
  ghost predicate Regular(s: Snapshot, config: PadimConfig, faults: ArtifactFaults, l: nat)
    requires config.Valid() && s.samples > 0 && Sized(s, config.Locations(), config.Dimension()) && l < config.Locations()
  {
    && Factorizes(CovarianceOf(s, config.regularization.value, config.Locations(), config.Dimension(), l))
    && l !in faults.unfit
  }

  ghost predicate AllRegular(s: Snapshot, config: PadimConfig, faults: ArtifactFaults, n: nat)
    requires config.Valid() && s.samples > 0 && Sized(s, config.Locations(), config.Dimension()) && n <= config.Locations()
  {
    forall l :: 0 <= l < n ==> Regular(s, config, faults, l)
  }

  /** How many locations a device call updates: as many as the budget and the grid allow, and at least one. */
  function UpdateChunk(config: PadimConfig): (chunk: nat)
    requires config.Valid()
    ensures 1 <= chunk <= config.Locations()
    ensures chunk > 1 ==> StatisticsBytes(chunk, config.Dimension()) <= config.gpuMemoryBudgetBytes
    ensures chunk < config.Locations() ==> StatisticsBytes(chunk + 1, config.Dimension()) > config.gpuMemoryBudgetBytes
  {
    var d := config.Dimension();
    ProductNonNegative(d, d);
    var chunk := ChunkLocations(config.gpuMemoryBudgetBytes, (d + d * d) * 8, config.Locations());
    BytesOfChunk(chunk, d);
    BytesOfChunk(chunk + 1, d);
    chunk
  }

  lemma BytesOfChunk(n: nat, d: nat)
    ensures n * ((d + d * d) * 8) == StatisticsBytes(n, d)
  {
    assert n * (d + d * d) == n * d + n * d * d;
  }

  class PadimPipeline {
    const config: PadimConfig
    var sampleCount: nat
    var started: bool
    var sums: array<real>
    var moments: array<real>
    var updateFailed: bool
    ghost var base: Snapshot
    ghost var images: seq<Vec>

    ghost function Repr(): set<object>
      reads this
    {
      {this, sums, moments}
    }

    ghost function State(): Fit
      reads this
    {
      Fit(base, images, updateFailed, started)
    }

    /**
     * Unless an update failed part-way, the statistics are exactly those of `base`, the state last
     * restored or zero, with the images of the successful updates since.
     */
    ghost predicate Valid()
      reads this, sums, moments
    {
      && sums != moments
      && (updateFailed ==> config.gpu && started)
      && if !started then sampleCount == 0 && images == [] && base == Nothing(config)
         else
           && config.Valid()
           && sums.Length == config.Size() && moments.Length == config.Size() * config.Dimension()
           && Sized(base, config.Locations(), config.Dimension()) && Uniform(images, config.Size())
           && sampleCount == base.samples + |images|
           && (!updateFailed ==> Consistent())
    }

    ghost predicate Consistent()
      requires config.Valid()
      reads this, sums, moments
    {
      Accumulated(base, images, Taken(sampleCount, sums, moments), config.Locations(), config.Dimension())
    }

    /** The statistics at hand, unless the fit is poisoned. */
    lemma StatisticsAre()
      requires Valid()
      ensures Sound(config, State())
      ensures Whole(config, State()) ==> Taken(sampleCount, sums, moments) == Current(config, State())
    {
      if Whole(config, State()) {
        AccumulatedUnique(base, images, Taken(sampleCount, sums, moments), Current(config, State()),
                          config.Locations(), config.Dimension());
      }
    }

    constructor (config: PadimConfig)
      ensures Valid() && fresh(Repr()) && this.config == config
      ensures State() == Fit(Nothing(config), [], false, false)
    {
      this.config := config;
      sampleCount, started, updateFailed := 0, false, false;
      sums, moments := new real[0], new real[0];
      base, images := Nothing(config), [];
    }

    method Allocate()
      requires Valid() && config.Valid()
      modifies this
      ensures Valid() && State() == old(State()).(started := true) && sampleCount == old(sampleCount)
      ensures if old(started) then sums == old(sums) && moments == old(moments) else fresh(sums) && fresh(moments)
    {
      if !started {
        var d := config.Dimension();
        ProductNonNegative(config.Size(), d);
        sums := new real[config.Size()](_ => 0.0);
        moments := new real[config.Size() * d](_ => 0.0);
        started := true;
        assert sums[..] == base.sums && moments[..] == base.moments;
        AccumulatedNothing(base, config.Locations(), d);
      }
    }

    /** Runs the update of a batch that passed the checks; a device failure part-way poisons the fit. */
    method Update(added: seq<Vec>, failsAt: Option<nat>) returns (ok: bool)
      requires Valid() && started && !updateFailed && Uniform(added, config.Size())
      modifies Repr()
      ensures Valid() && sums == old(sums) && moments == old(moments)
      ensures ok <==> (config.gpu ==> failsAt.None? || failsAt.value >= config.Locations())
      ensures State() == if ok then old(State()).(images := old(images) + added)
                         else old(State()).(poisoned := true)
    {
      var d := config.Dimension();
      ghost var before := Taken(sampleCount, sums, moments);
      if config.gpu {
        updateFailed := true;
        ok := AddOnDevice(sums, moments, added, config.Locations(), d, UpdateChunk(config), failsAt, sampleCount);
        if !ok {
          return;
        }
      } else {
        AddOnHost(sums, moments, added, config.Locations(), d, sampleCount);
        ok := true;
      }
      sampleCount := sampleCount + |added|;
      updateFailed := false;
      AccumulatedTwice(base, images, before, added, Taken(sampleCount, sums, moments), config.Locations(), d);
      images := images + added;
    }

    /** The host path: it makes the statistics before the last checks. */
    method AddHost(batch: seq<Image>) returns (status: Status)
      requires Valid() && config.Valid() && !config.gpu
      modifies Repr()
      ensures Valid() && fresh(Repr() - old(Repr())) && (old(started) ==> Repr() == old(Repr()))
      ensures status.Success? <==> UpdateBegins(config, old(State()), batch, UpdateFaults(true, None))
      ensures !status.Success? ==> status.error == AddError(config, old(State()), batch)
      ensures State() == if status.Success? then Fit(old(base), old(images) + BatchReals(batch), false, true)
                         else old(State()).(started := old(started) || Shaped(batch, config.Size()))
      ensures !status.Success? && old(started) ==> sums[..] == old(sums[..]) && moments[..] == old(moments[..])
    {
      var shaped := CheckShape(batch, config.Size());
      if !shaped {
        return Failure(TensorShapeMismatch);
      }
      Allocate();
      if sampleCount > SIZE_MAX - |batch| {
        return Failure(OutOfMemory);
      }
      var finite := CheckValues(batch);
      if !finite {
        return Failure(InvalidArgument);
      }
      var _ := Update(BatchReals(batch), None);
      return Success;
    }

    /** The device path: values are checked first, and nothing is touched once the fit is poisoned. */
    method AddDevice(batch: seq<Image>, faults: UpdateFaults) returns (status: Status)
      requires Valid() && config.Valid() && config.gpu
      modifies Repr()
      ensures Valid() && fresh(Repr() - old(Repr())) && (old(started) ==> Repr() == old(Repr()))
      ensures status.Success? <==>
                UpdateBegins(config, old(State()), batch, faults) && !DeviceFails(config, faults)
      ensures !status.Success? ==> status.error == AddError(config, old(State()), batch)
      ensures State() == if status.Success? then Fit(old(base), old(images) + BatchReals(batch), false, true)
                         else if UpdateBegins(config, old(State()), batch, faults)
                         then old(State()).(poisoned := true, started := true)
                         else old(State())
      ensures !status.Success? && !updateFailed ==>
                && sums == old(sums) && moments == old(moments)
                && sums[..] == old(sums[..]) && moments[..] == old(moments[..])
    {
      var finite := CheckValues(batch);
      if !finite {
        return Failure(InvalidArgument);
      }
      if updateFailed {
        return Failure(NotInitialized);
      }
      var shaped := CheckShape(batch, config.Size());
      if !shaped {
        return Failure(TensorShapeMismatch);
      }
      if sampleCount > SIZE_MAX - |batch| {
        return Failure(OutOfMemory);
      }
      if !started && !faults.allocates {
        return Failure(CudaFailure);
      }
      Allocate();
      var ok := Update(BatchReals(batch), faults.failsAt);
      if !ok {
        return Failure(CudaFailure);
      }
      return Success;
    }

    /**
     * Adds a batch of images. A failed addition counts nothing: either it leaves the statistics as they
     * were, or it failed part-way on the device, and then the fit is poisoned.
     */
    method Add(batch: seq<Image>, faults: UpdateFaults) returns (status: Status)
      requires Valid()
      modifies Repr()
      ensures Valid() && fresh(Repr() - old(Repr())) && (old(started) ==> Repr() == old(Repr()))
      ensures status.Success? <==>
                UpdateBegins(config, old(State()), batch, faults) && !DeviceFails(config, faults)
      ensures !status.Success? ==> status.error == AddError(config, old(State()), batch)
      ensures base == old(base)
      ensures images == if status.Success? then old(images) + BatchReals(batch) else old(images)
      ensures updateFailed <==>
                old(updateFailed) || (UpdateBegins(config, old(State()), batch, faults) && DeviceFails(config, faults))
      ensures started == StartedBy(config, old(State()), batch, faults)
      ensures status.Success? ==> started && BatchFinite(batch)
      ensures !status.Success? && !updateFailed && old(started) ==>
                sums[..] == old(sums[..]) && moments[..] == old(moments[..])
    {
      var valid := ValidateConfig(config);
      if !valid.Success? {
        return valid;
      }
      if config.gpu {
        status := AddDevice(batch, faults);
      } else {
        status := AddHost(batch);
      }
    }

    /** Takes a checkpoint: refused while poisoned, so it reflects exactly the whole batches that were added. */
    method SaveCheckpoint(writes: bool) returns (status: Status, snapshot: Snapshot)
      requires Valid()
      ensures status == if !Whole(config, State())
                        then Failure(if config.Valid() then NotInitialized else config.Refusal())
                        else if writes then Success else Failure(IoError)
      ensures Sound(config, State()) && (status.Success? ==> snapshot == Current(config, State()))
    {
      StatisticsAre();
      snapshot := Snapshot(0, [], []);
      var valid := ValidateConfig(config);
      if !valid.Success? {
        return valid, snapshot;
      }
      if updateFailed || sampleCount == 0 || !started {
        return Failure(NotInitialized), snapshot;
      }
      if !writes {
        return Failure(IoError), snapshot;
      }
      return Success, Snapshot(sampleCount, sums[..], moments[..]);
    }

    /** Restores a checkpoint, which also lifts the poison; a refused file changes nothing. */
    method LoadCheckpoint(file: PadimFile, deviceRestores: bool) returns (status: Status)
      requires Valid()
      modifies this
      ensures Valid() && (fresh({sums, moments}) || (sums == old(sums) && moments == old(moments)))
      ensures status == if !config.Valid() then Failure(config.Refusal())
                        else if !Acceptable(file, config) then Failure(ArtifactCorrupt)
                        else if config.gpu && !deviceRestores then Failure(CudaFailure) else Success
      ensures State() == if status.Success? then Fit(Restored(file, config), [], false, true) else old(State())
      ensures !status.Success? ==> sampleCount == old(sampleCount) && sums == old(sums) && moments == old(moments)
    {
      var valid := ValidateConfig(config);
      if !valid.Success? {
        return valid;
      }
      if !Acceptable(file, config) {
        return Failure(ArtifactCorrupt);
      }
      if config.gpu && !deviceRestores {
        return Failure(CudaFailure);
      }
      var s := Restored(file, config);
      sums := new real[|s.sums|](i requires 0 <= i < |s.sums| => s.sums[i]);
      moments := new real[|s.moments|](i requires 0 <= i < |s.moments| => s.moments[i]);
      sampleCount, started, updateFailed := s.samples, true, false;
      base, images := s, [];
      assert sums[..] == s.sums && moments[..] == s.moments;
      AccumulatedNothing(base, config.Locations(), config.Dimension());
      return Success;
    }

    /** Means and regularized covariances of every location, of whole batches only. */
    method SaveArtifacts(faults: ArtifactFaults) returns (status: Status, artifacts: Artifacts)
      requires Valid()
      ensures !Whole(config, State()) ==>
                status == Failure(if config.Valid() then NotInitialized else config.Refusal())
      ensures Sound(config, State())
      ensures Whole(config, State()) ==>
                var s := Current(config, State());
                && status == (if config.gpu && !faults.answers then Failure(CudaFailure)
                              else if !AllRegular(s, config, faults, config.Locations())
                              then Failure(if config.gpu then CudaFailure else AdapterFailure)
                              else if faults.writes then Success else Failure(IoError))
                && (status.Success? ==> AreArtifacts(artifacts, s, config))
    {
      hide IsMean;
      hide IsAccumulatedCovariance;
      hide Accumulated;
      StatisticsAre();
      artifacts := Artifacts([], []);
      var valid := ValidateConfig(config);
      if !valid.Success? {
        return valid, artifacts;
      }
      if updateFailed || sampleCount == 0 || !started {
        return Failure(NotInitialized), artifacts;
      }
      if config.gpu && !faults.answers {
        return Failure(CudaFailure), artifacts;
      }
      ghost var s := Taken(sampleCount, sums, moments);
      var locations, d := config.Locations(), config.Dimension();
      var means, covariances := [], [];
      for l := 0 to locations
        invariant |means| == |covariances| == l && AllRegular(s, config, faults, l)
        invariant forall k :: 0 <= k < l ==> IsMean(means[k], sums[..], sampleCount, locations, d, k)
        invariant forall k :: 0 <= k < l ==>
                    covariances[k] == CovarianceOf(s, config.regularization.value, locations, d, k)
      {
        var mean, c := CovarianceAt(sums[..], moments[..], sampleCount, config.regularization.value, locations, d, l);
        CovarianceUnique(c, s, config.regularization.value, locations, d, l);
        if !Factorizes(c) || l in faults.unfit {
          assert !Regular(s, config, faults, l);
          return Failure(if config.gpu then CudaFailure else AdapterFailure), artifacts;
        }
        means, covariances := means + [mean], covariances + [c];
      }
      if !faults.writes {
        return Failure(IoError), artifacts;
      }
      return Success, Artifacts(means, covariances);
    }

    method Clear()
      requires Valid()
      modifies this
      ensures Valid() && fresh({sums, moments})
      ensures State() == Fit(Nothing(config), [], false, false)
    {
      sampleCount, started, updateFailed := 0, false, false;
      sums, moments := new real[0], new real[0];
      base, images := Nothing(config), [];
    }
  }

  /** Whether the statistics exist after an addition. */
  predicate StartedBy(config: PadimConfig, f: Fit, batch: seq<Image>, faults: UpdateFaults) {
    || f.started
    || (config.Valid() && if config.gpu then UpdateBegins(config, f, batch, faults) else Shaped(batch, config.Size()))
  }

  // ---- whole runs ----

  datatype Command =
    | AddBatch(batch: seq<Image>, updateFaults: UpdateFaults)
    | Save(writes: bool)
    | Restore(file: PadimFile, deviceRestores: bool)
    | Finalize(artifactFaults: ArtifactFaults)
    | Reset

  /** What a caller sees of one command: its status, and what it wrote if it succeeded. */
  datatype Entry = Entry(command: Command, ok: bool, checkpoint: Snapshot, artifacts: Artifacts)

  /** What a fit holds after one more command, given whether it succeeded. */
  ghost function Next(config: PadimConfig, f: Fit, e: Entry): Fit
  {
    match e.command
    case AddBatch(batch, faults) =>
      if e.ok && BatchFinite(batch) then f.(images := f.images + BatchReals(batch), started := true)
      else f.(poisoned := f.poisoned || UpdateBegins(config, f, batch, faults),
              started := StartedBy(config, f, batch, faults))
    case Restore(file, _) =>
      if e.ok && config.Valid() && Acceptable(file, config) then Fit(Restored(file, config), [], false, true) else f
    case Reset => Fit(Nothing(config), [], false, false)
    case _ => f
  }

  /** When a command succeeds. */
  ghost predicate Succeeds(config: PadimConfig, f: Fit, command: Command) {
    match command
    case AddBatch(batch, faults) => UpdateBegins(config, f, batch, faults) && !DeviceFails(config, faults)
    case Save(writes) => Whole(config, f) && writes
    case Restore(file, restores) => config.Valid() && Acceptable(file, config) && (config.gpu ==> restores)
    case Finalize(faults) =>
      && Whole(config, f) && Sound(config, f) && (config.gpu ==> faults.answers) && faults.writes
      && AllRegular(Current(config, f), config, faults, config.Locations())
    case Reset => true
  }

  /** A command succeeded exactly when it must, and what it wrote reflects whole batches only. */
  ghost predicate Explained(config: PadimConfig, f: Fit, e: Entry) {
    && (e.ok <==> Succeeds(config, f, e.command))
    && (e.ok && e.command.Save? ==>
        && Sound(config, f) && e.checkpoint == Current(config, f))
    && (e.ok && e.command.Finalize? ==> AreArtifacts(e.artifacts, Current(config, f), config))
  }

  method Perform(p: PadimPipeline, command: Command) returns (e: Entry)
    requires p.Valid()
    modifies p.Repr()
    ensures p.Valid() && fresh(p.Repr() - old(p.Repr())) && e.command == command
    ensures Explained(p.config, old(p.State()), e) && p.State() == Next(p.config, old(p.State()), e)
  {
    hide AllRegular;
    hide AreArtifacts;
    hide UpdateBegins;
    hide DeviceFails;
    hide StartedBy;
    hide Current;
    hide Whole;
    hide Acceptable;
    hide Nothing;
    hide PadimPipeline.Valid;
    hide BatchFinite;
    hide Sound;
    hide Sized;
    var status, checkpoint, artifacts := Success, Snapshot(0, [], []), Artifacts([], []);
    match command {
      case AddBatch(batch, faults) => status := p.Add(batch, faults);
      case Save(writes) => status, checkpoint := p.SaveCheckpoint(writes);
      case Restore(file, restores) => status := p.LoadCheckpoint(file, restores);
      case Finalize(faults) => status, artifacts := p.SaveArtifacts(faults);
      case Reset => p.Clear();
    }
    e := Entry(command, status.Success?, checkpoint, artifacts);
  }

  ghost function AfterFrom(config: PadimConfig, f: Fit, history: seq<Entry>): Fit {
    if |history| == 0 then f
    else Next(config, AfterFrom(config, f, history[..|history| - 1]), history[|history| - 1])
  }

  /** What a new fit holds after a history of commands. */
  ghost function After(config: PadimConfig, history: seq<Entry>): Fit {
    AfterFrom(config, Fit(Nothing(config), [], false, false), history)
  }

  /** Every entry of a history is explained by the entries before it. */
  ghost predicate Faithful(config: PadimConfig, history: seq<Entry>) {
    forall k :: 0 <= k < |history| ==> Explained(config, After(config, history[..k]), history[k])
  }

  /** Runs commands on a new fit. */
  method Run(config: PadimConfig, commands: seq<Command>) returns (p: PadimPipeline, history: seq<Entry>)
    ensures p.Valid() && fresh(p.Repr()) && p.config == config
    ensures |history| == |commands| && forall k :: 0 <= k < |history| ==> history[k].command == commands[k]
    ensures Faithful(config, history) && p.State() == After(config, history)
  {
    hide Explained;
    hide Next;
    p := new PadimPipeline(config);
    history := [];
    for n := 0 to |commands|
      invariant p.Valid() && fresh(p.Repr()) && p.config == config
      invariant |history| == n && forall k :: 0 <= k < n ==> history[k].command == commands[k]
      invariant Faithful(config, history) && p.State() == After(config, history)
    {
      var e := Perform(p, commands[n]);
      var longer := history + [e];
      forall k | 0 <= k <= n ensures Explained(config, After(config, longer[..k]), longer[k]) {
        assert longer[..k] == history[..k];
        assert history[..n] == history;
      }
      assert longer[..n] == history;
      history := longer;
    }
  }

  // ---- what every history of a fit is like ----

  /** The fit was cleared or a checkpoint was restored. */
  predicate Resets(e: Entry) {
    e.command.Reset? || (e.command.Restore? && e.ok)
  }

  /** Where the entries after the last reset begin. */
  function Since(history: seq<Entry>): (k: nat)
    ensures k <= |history|
    ensures k > 0 ==> Resets(history[k - 1])
    ensures forall j :: k <= j < |history| ==> !Resets(history[j])
  {
    if |history| == 0 then 0
    else if Resets(history[|history| - 1]) then |history|
    else Since(history[..|history| - 1])
  }

  /** The state the last reset left: that of the restored file, or zero. */
  ghost function Origin(config: PadimConfig, history: seq<Entry>): Snapshot {
    var k := Since(history);
    if k > 0 && history[k - 1].command.Restore? && config.Valid() && Acceptable(history[k - 1].command.file, config) then
      Restored(history[k - 1].command.file, config)
    else Nothing(config)
  }

  /** The images of the successful additions among the entries, in order. */
  function Counted(entries: seq<Entry>): seq<Vec> {
    if |entries| == 0 then []
    else
      var e := entries[|entries| - 1];
      Counted(entries[..|entries| - 1])
      + if e.ok && e.command.AddBatch? && BatchFinite(e.command.batch) then BatchReals(e.command.batch) else []
  }

  lemma {:induction false} NoResetBetween(config: PadimConfig, f: Fit, entries: seq<Entry>)
    requires forall j :: 0 <= j < |entries| ==> !Resets(entries[j])
    ensures AfterFrom(config, f, entries).base == f.base
    ensures AfterFrom(config, f, entries).images == f.images + Counted(entries)
    ensures f.poisoned ==> AfterFrom(config, f, entries).poisoned
  {
    hide BatchFinite;
    hide UpdateBegins;
    hide StartedBy;
    hide Acceptable;
    hide Nothing;
    if |entries| > 0 {
      NoResetBetween(config, f, entries[..|entries| - 1]);
    }
  }

  lemma {:induction false} AfterSplit(config: PadimConfig, f: Fit, history: seq<Entry>, k: nat)
    requires k <= |history|
    ensures AfterFrom(config, f, history) == AfterFrom(config, AfterFrom(config, f, history[..k]), history[k..])
  {
    if k == |history| {
      assert history[..k] == history;
    } else {
      var last := |history| - 1;
      AfterSplit(config, f, history[..last], k);
      assert history[..last][..k] == history[..k] && history[k..][..last - k] == history[..last][k..];
    }
  }

  /** A fit holds what the last reset left and the images of exactly the successful additions since. */
  lemma HoldsWholeBatches(config: PadimConfig, history: seq<Entry>)
    requires Faithful(config, history)
    ensures After(config, history).base == Origin(config, history)
    ensures After(config, history).images == Counted(history[Since(history)..])
  {
    hide Explained;
    hide Acceptable;
    hide Next;
    hide Nothing;
    hide Faithful;
    var k := Since(history);
    AfterSplit(config, Fit(Nothing(config), [], false, false), history, k);
    NoResetBetween(config, After(config, history[..k]), history[k..]);
    if k > 0 {
      Entered(config, history, k - 1);
      hide AfterFrom;
      ResetLeaves(config, After(config, history[..k - 1]), history[k - 1]);
    }
  }

  lemma Entered(config: PadimConfig, history: seq<Entry>, k: nat)
    requires Faithful(config, history) && k < |history|
    ensures Explained(config, After(config, history[..k]), history[k])
    ensures After(config, history[..k + 1]) == Next(config, After(config, history[..k]), history[k])
  {
    hide Explained;
    hide Next;
    assert history[..k + 1][..k] == history[..k];
  }

  lemma ResetLeaves(config: PadimConfig, f: Fit, e: Entry)
    requires Resets(e) && Explained(config, f, e)
    ensures Next(config, f, e).images == []
    ensures Next(config, f, e).base
         == if e.command.Restore? && config.Valid() && Acceptable(e.command.file, config) then Restored(e.command.file, config)
            else Nothing(config)
  {
    hide Acceptable;
  }

  /**
   * Every checkpoint that was written, in any run, whatever failed before it: the state last restored,
   * or zero, with the images of exactly the successful additions since.
   */
  lemma CheckpointsAreWhole(config: PadimConfig, history: seq<Entry>, j: nat)
    requires Faithful(config, history) && j < |history| && history[j].command.Save? && history[j].ok
    ensures var before := history[..j];
              && config.Valid() && Sound(config, After(config, before))
              && Accumulated(Origin(config, before), Counted(before[Since(before)..]), history[j].checkpoint,
                             config.Locations(), config.Dimension())
  {
    hide Accumulated;
    var before := history[..j];
    assert Explained(config, After(config, before), history[j]);
    FaithfulBefore(config, history, j);
    HoldsWholeBatches(config, before);
  }

  lemma FaithfulBefore(config: PadimConfig, history: seq<Entry>, j: nat)
    requires Faithful(config, history) && j <= |history|
    ensures Faithful(config, history[..j])
  {
    hide Explained;
    forall k | 0 <= k < j ensures Explained(config, After(config, history[..j][..k]), history[..j][k]) {
      assert history[..j][..k] == history[..k];
    }
  }

  /** So it is with artifacts. */
  lemma ArtifactsAreWhole(config: PadimConfig, history: seq<Entry>, j: nat) returns (s: Snapshot)
    requires Faithful(config, history) && j < |history| && history[j].command.Finalize? && history[j].ok
    ensures var before := history[..j];
              && config.Valid() && Sized(s, config.Locations(), config.Dimension()) && s.samples > 0
              && Accumulated(Origin(config, before), Counted(before[Since(before)..]), s,
                             config.Locations(), config.Dimension())
              && AreArtifacts(history[j].artifacts, s, config)
  {
    hide Accumulated;
    hide AreArtifacts;
    hide AllRegular;
    var before := history[..j];
    assert Explained(config, After(config, before), history[j]);
    FaithfulBefore(config, history, j);
    HoldsWholeBatches(config, before);
    s := Current(config, After(config, before));
  }

  /** After a device failure part-way nothing succeeds until the fit is cleared or restored. */
  lemma PoisonLasts(config: PadimConfig, history: seq<Entry>, k: nat, j: nat)
    requires Faithful(config, history) && k < j < |history| && history[k].command.AddBatch? && !history[k].ok
    requires UpdateBegins(config, After(config, history[..k]), history[k].command.batch, history[k].command.updateFaults)
    requires forall i :: k < i <= j ==> !Resets(history[i])
    ensures !history[j].ok
  {
    hide AllRegular;
    var f := Fit(Nothing(config), [], false, false);
    var before := history[..j];
    assert before[..k + 1][..k] == history[..k] && before[..k + 1][k] == history[k];
    AfterSplit(config, f, before, k + 1);
    NoResetBetween(config, After(config, before[..k + 1]), before[k + 1..]);
    assert After(config, before).poisoned;
    assert Explained(config, After(config, before), history[j]);
  }

  /** A fit that started from nothing always has artifacts, unless an inverse exceeds float32 or the environment fails. */
  lemma FromNothingSucceeds(config: PadimConfig, f: Fit, faults: ArtifactFaults)
    requires Whole(config, f) && Sound(config, f) && f.base == Nothing(config) && faults.unfit == {}
    requires faults.writes && (config.gpu ==> faults.answers)
    ensures Succeeds(config, f, Finalize(faults))
  {
    hide Factorizes;
    hide Accumulated;
    hide IsAccumulatedCovariance;
    var s, locations, d := Current(config, f), config.Locations(), config.Dimension();
    forall l | 0 <= l < locations ensures Regular(s, config, faults, l) {
      var m := CovarianceOf(s, config.regularization.value, locations, d, l);
      AccumulatedFactorizes(m, f.images, s, config.regularization.value, locations, d, l);
    }
  }

  /**
   * A fit restored from any file has artifacts if and only if at every location the pivots of the
   * restored covariance are positive, which is to say that the form of its lower triangle is.
   */
  lemma RestoredSucceedsExactly(config: PadimConfig, file: PadimFile, faults: ArtifactFaults)
    requires config.Valid() && Acceptable(file, config)
    requires faults.unfit == {} && faults.writes && (config.gpu ==> faults.answers)
    ensures var f := Fit(Restored(file, config), [], false, true);
            Succeeds(config, f, Finalize(faults)) <==>
              forall l: nat :: l < config.Locations() ==> RestoredFactorizes(config, file, l)
    ensures forall l: nat :: l < config.Locations() ==>
              (RestoredFactorizes(config, file, l) <==> Definite(Mirrored(RestoredCovariance(config, file, l))))
  {
    hide Factorizes;
    hide Definite;
    hide Accumulated;
    var f := Fit(Restored(file, config), [], false, true);
    AccumulatedNothing(f.base, config.Locations(), config.Dimension());
    AccumulatedUnique(f.base, [], f.base, Current(config, f), config.Locations(), config.Dimension());
    forall l: nat | l < config.Locations()
      ensures Regular(f.base, config, faults, l) <==> RestoredFactorizes(config, file, l)
      ensures RestoredFactorizes(config, file, l) <==> Definite(Mirrored(RestoredCovariance(config, file, l)))
    {
      FactorizesExactly(RestoredCovariance(config, file, l));
    }
  }

  ghost function RestoredCovariance(config: PadimConfig, file: PadimFile, l: nat): (m: seq<Vec>)
    requires config.Valid() && Acceptable(file, config) && l < config.Locations()
    ensures IsSquare(m)
  {
    CovarianceOf(Restored(file, config), config.regularization.value, config.Locations(), config.Dimension(), l)
  }

  ghost predicate RestoredFactorizes(config: PadimConfig, file: PadimFile, l: nat)
    requires config.Valid() && Acceptable(file, config) && l < config.Locations()
  {
    Factorizes(RestoredCovariance(config, file, l))
  }

  /** Saving, restoring and going on gives the statistics of never having stopped. */
  lemma ResumedIsOneFit(config: PadimConfig, f: Fit, more: seq<Vec>)
    requires config.Valid() && Sound(config, f) && Uniform(more, config.Size())
    ensures var resumed, unbroken := Fit(Current(config, f), more, false, true), f.(images := f.images + more);
              Sound(config, resumed) && Sound(config, unbroken)
              && Current(config, resumed) == Current(config, unbroken)
  {
    hide Accumulated;
    var locations, d := config.Locations(), config.Dimension();
    var resumed, unbroken := Fit(Current(config, f), more, false, true), f.(images := f.images + more);
    AccumulatedTwice(f.base, f.images, Current(config, f), more, Current(config, resumed), locations, d);
    AccumulatedUnique(f.base, f.images + more, Current(config, resumed), Current(config, unbroken), locations, d);
  }
}
