/** The streaming statistical fit: moments in memory, raw features in a temporary file. */
module StatisticalFit {
  import opened Numbers
  import opened Sums
  import opened Vectors
  import opened FarthestFirst
  import opened Coreset
  import opened Moments
  import opened Checkpoint
  import opened MemoryBank

  datatype Variant = Original | Mahalanobis | SubspaceAD

  datatype FitConfig = FitConfig(
    variant: Variant,
    embeddingDimension: int32,
    numNeighbors: int32,
    pcaComponents: int32,
    explainedVariance: Float,
    covarianceShrinkage: Float,
    covarianceRegularization: Float,
    memoryBankSize: int32,
    streamingChunkSize: int32)
  {
    predicate Valid() {
      && variant != Original
      && 0 < embeddingDimension && 0 <= pcaComponents <= embeddingDimension
      && explainedVariance.Finite? && 0.0 < explainedVariance.value < 1.0
      && covarianceShrinkage.Finite? && 0.0 <= covarianceShrinkage.value <= 1.0
      && covarianceRegularization.Finite? && covarianceRegularization.value > 0.0
      && memoryBankSize > 0 && streamingChunkSize > 0
      && memoryBankSize <= INT_MAX - streamingChunkSize
    }

    /** The numbers of the variants in files. */
    function Mode(): (mode: nat)
      ensures mode < 3 && [Original, Mahalanobis, SubspaceAD][mode] == variant
    {
      match variant
      case Original => 0
      case Mahalanobis => 1
      case SubspaceAD => 2
    }
  }

  /** The configuration check; its last test does not overflow. */
  method Validate(c: FitConfig) returns (status: Status)
    ensures status == if c.Valid() then Success else Failure(InvalidArgument)
  {
    if (c.variant != Mahalanobis && c.variant != SubspaceAD)
       || c.embeddingDimension <= 0 || c.pcaComponents < 0
       || c.pcaComponents > c.embeddingDimension || c.explainedVariance.NonFinite?
       || c.explainedVariance.value <= 0.0 || c.explainedVariance.value >= 1.0
       || c.covarianceShrinkage.NonFinite? || c.covarianceShrinkage.value < 0.0
       || c.covarianceShrinkage.value > 1.0 || c.covarianceRegularization.NonFinite?
       || c.covarianceRegularization.value <= 0.0 || c.memoryBankSize <= 0 || c.streamingChunkSize <= 0
    {
      return Failure(InvalidArgument);
    }
    var room: int32 := INT_MAX - c.streamingChunkSize;
    return if c.memoryBankSize > room then Failure(InvalidArgument) else Success;
  }

  /** A checkpoint of a fit with another variant or another dimension is refused. */
  lemma ForeignFitRefused(a: FitConfig, b: FitConfig, codec: Codec, s: State)
    requires a.Valid() && b.Valid() && (a.variant != b.variant || a.embeddingDimension != b.embeddingDimension)
    requires Saveable(codec, b.Mode(), b.embeddingDimension, b.variant == Mahalanobis, s)
    ensures DecodeFile(codec, a.Mode(), a.embeddingDimension, a.variant == Mahalanobis,
                       EncodeFile(codec, b.Mode(), b.embeddingDimension, s)) == None
  {
    hide EncodeFile;
    hide DecodeFile;
    hide Saveable;
    ForeignFileRefused(codec, a.Mode(), a.embeddingDimension, a.variant == Mahalanobis,
                       b.Mode(), b.embeddingDimension, b.variant == Mahalanobis, s);
  }

  /** What the environment does during one addition: where the GPU fails, and how the file behaves. */
  datatype AddFaults = AddFaults(gpuFailsAt: Option<nat>, opens: bool, seeks: bool, written: nat, flushes: bool)

  /** What the environment does during one restore. */
  datatype LoadFaults = LoadFaults(opens: bool, written: nat)

  /**
   * What it does during one save: how many values can be read back, how many bytes the stream accepts,
   * and how many of those are in the file once it is closed, which is not reported.
   */
  datatype SaveFaults = SaveFaults(readable: nat, room: nat, kept: nat)

  /** And while artifacts are written: whether the statistics can be, and how many values can be read back. */
  datatype ReplayFaults = ReplayFaults(statistics: bool, readable: nat)

  /** A file after `data` was written at `offset`, over whatever was there. */
  function Overwritten(file: seq<real>, offset: nat, data: seq<real>): (r: seq<real>)
    requires offset <= |file|
    ensures |r| == if offset + |data| <= |file| then |file| else offset + |data|
    ensures forall k :: 0 <= k < |r| ==> r[k] == if offset <= k < offset + |data| then data[k - offset] else file[k]
  {
    file[..offset] + data + (if offset + |data| <= |file| then file[offset + |data|..] else [])
  }

  /** A batch in row-major order. */
  predicate Shaped(values: seq<Float>, n: nat, d: nat)
    requires d > 0
  {
    0 < n && n * d <= SIZE_MAX && |values| == n * d
  }

  function Step(before: State, rows: seq<Vec>, d: nat, spooled: bool, size: nat): State
    requires WellFormed(before.moments, d) && Uniform(rows, d) && size > 0
  {
    State(AddChunks(before.moments, rows, d, size), if spooled then before.features + Flat(rows) else [])
  }

  predicate RoomFor(config: FitConfig, count: nat, n: nat)
    requires config.Valid()
  {
    count + n <= SIZE_MAX && count + n <= INT64_MAX / config.embeddingDimension / 4
  }

  /** A batch is well formed and accumulated without a device failure. */
  predicate Accumulates(config: FitConfig, gpu: bool, count: nat, values: seq<Float>, n: nat, faults: AddFaults) {
    && config.Valid() && Shaped(values, n, config.embeddingDimension) && RoomFor(config, count, n) && AllFinite(values)
    && (gpu && faults.gpuFailsAt.Some? ==> faults.gpuFailsAt.value >= n)
  }

  /** Why an addition fails: the batch, the device, or else the file. */
  function AddError(config: FitConfig, gpu: bool, count: nat, values: seq<Float>, n: nat, faults: AddFaults): Error {
    if Accumulates(config, gpu, count, values, n, faults) then IoError
    else if Accumulates(config, false, count, values, n, faults) then CudaFailure
    else InvalidArgument
  }

  /** The values of a batch reach the feature file. */
  predicate Reaches<T>(open: bool, values: seq<T>, faults: AddFaults) {
    (open || faults.opens) && faults.seeks && |values| <= faults.written && faults.flushes
  }

  class StatisticalFit {
    const config: FitConfig
    const codec: Codec
    const gpu: bool
    var count: nat
    var mean: Vec
    var m2: seq<Vec>
    var spool: Option<seq<real>>

    constructor (config: FitConfig, codec: Codec, gpu: bool)
      ensures this.config == config && this.codec == codec && this.gpu == gpu
      ensures Valid() && Current() == State(NOTHING, []) && spool == None
    {
      this.config, this.codec, this.gpu := config, codec, gpu;
      count, mean, m2, spool := 0, [], [], None;
    }

    predicate Spooled() {
      config.variant == Mahalanobis
    }

    function ChunkSize(): nat {
      if gpu then 8192 else 256
    }

    ghost predicate Valid()
      reads this
    {
      if count == 0 then mean == [] && m2 == []
      else
        && config.Valid()
        && WellFormed(Moments(count, mean, m2), config.embeddingDimension)
        && (Spooled() ==> spool.Some? && count * config.embeddingDimension <= |spool.value|)
    }

    /** The committed state; what lies beyond the committed prefix of the file is not part of it. */
    ghost function Current(): State
      requires Valid()
      reads this
    {
      State(Moments(count, mean, m2),
            if Spooled() && count > 0 then spool.value[..count * config.embeddingDimension] else [])
    }

    ghost function Set(): Setting {
      Setting(config, codec, gpu)
    }

    ghost function Holding(): Fit
      requires Valid()
      reads this
    {
      Fit(Current(), spool.Some?)
    }

    method Clear()
      modifies this
      ensures Valid() && Current() == State(NOTHING, []) && spool == None
    {
      count, mean, m2, spool := 0, [], [], None;
    }

    /**
     * Adds `n` rows. Nothing is committed unless everything succeeds, and a failed append leaves the
     * committed features as they were, whatever prefix of the batch reached the file.
     */
    method Add(values: seq<Float>, n: nat, faults: AddFaults) returns (status: Status)
      requires Valid()
      modifies this
      ensures Valid()
      ensures status.Success? <==>
              && Accumulates(config, gpu, old(count), values, n, faults)
              && (Spooled() ==> Reaches(old(spool).Some?, values, faults))
      ensures spool.Some? <==>
              old(spool).Some? || (Accumulates(config, gpu, old(count), values, n, faults) && Spooled() && faults.opens)
      ensures !status.Success? ==> Current() == old(Current()) && status.error == AddError(config, gpu, old(count), values, n, faults)
      ensures status.Success? ==>
              Current() == Step(old(Current()), Rows(Reals(values), config.embeddingDimension),
                                config.embeddingDimension, Spooled(), ChunkSize())
    {
      var acceptable := CheckBatch(values, n);
      if !acceptable {
        return Failure(InvalidArgument);
      }
      status := AddRows(Reals(values), n, faults);
    }

    method AddRows(data: seq<real>, n: nat, faults: AddFaults) returns (status: Status)
      requires Valid() && config.Valid() && 0 < n && |data| == n * config.embeddingDimension
      modifies this
      ensures Valid()
      ensures status.Success? <==>
              && (gpu && faults.gpuFailsAt.Some? ==> faults.gpuFailsAt.value >= n)
              && (Spooled() ==> Reaches(old(spool).Some?, data, faults))
      ensures spool.Some? <==>
              || old(spool).Some?
              || ((gpu && faults.gpuFailsAt.Some? ==> faults.gpuFailsAt.value >= n) && Spooled() && faults.opens)
      ensures !status.Success? ==> Current() == old(Current())
      ensures !status.Success? ==>
              status.error == if gpu && faults.gpuFailsAt.Some? && faults.gpuFailsAt.value < n then CudaFailure else IoError
      ensures status.Success? ==>
              Current() == Step(old(Current()), Rows(data, config.embeddingDimension),
                                config.embeddingDimension, Spooled(), ChunkSize())
    {
      hide AddChunks;
      hide Flat;
      hide RowsTo;
      var d: nat := config.embeddingDimension;
      DivExact(n, d);
      var rows := Rows(data, d);
      assert rows != [];
      var outcome := Accumulate(rows, faults.gpuFailsAt);
      if outcome.None? {
        return Failure(CudaFailure);
      }
      if Spooled() {
        var appended := Append(data, faults);
        if !appended {
          return Failure(IoError);
        }
        FlatOfRows(data, d, n);
        assert data[..n * d] == data;
        Distributes(count, n, d);
        assert spool.value[..(count + n) * d] == Current().features + Flat(rows);
      }
      count, mean, m2 := outcome.value.count, outcome.value.mean, outcome.value.m2;
      return Success;
    }

    method CheckBatch(values: seq<Float>, n: nat) returns (ok: bool)
      ensures ok <==>
              && config.Valid() && Shaped(values, n, config.embeddingDimension) && RoomFor(config, count, n)
              && AllFinite(values)
    {
      var valid := Validate(config);
      if !valid.Success? {
        return false;
      }
      var d := config.embeddingDimension;
      QuotientBound(SIZE_MAX, d, n);
      if n == 0 || n > SIZE_MAX / d || |values| != n * d || count > SIZE_MAX - n
         || count + n > INT64_MAX / d / 4 {
        return false;
      }
      for i := 0 to |values|
        invariant AllFinite(values[..i])
      {
        if values[i].NonFinite? {
          return false;
        }
        assert values[..i + 1] == values[..i] + [values[i]];
      }
      assert values[..|values|] == values;
      return true;
    }

    /** Merges the rows into a candidate chunk by chunk; the fields keep their values. */
    method Accumulate(rows: seq<Vec>, gpuFailsAt: Option<nat>) returns (next: Option<Moments>)
      requires Valid() && config.Valid() && |rows| > 0 && Uniform(rows, config.embeddingDimension)
      ensures next.Some? <==> (gpu && gpuFailsAt.Some? ==> gpuFailsAt.value >= |rows|)
      ensures next.Some? ==>
                next.value == AddChunks(Moments(count, mean, m2), rows, config.embeddingDimension, ChunkSize())
    {
      hide AddChunks;
      hide Merge;
      hide MomentsOf;
      var d: nat := config.embeddingDimension;
      var m := Moments(count, mean, m2);
      var start := 0;
      while start < |rows|
        invariant 0 <= start <= |rows| && WellFormed(m, d)
        invariant gpu && gpuFailsAt.Some? ==> gpuFailsAt.value >= start
        invariant AddChunks(m, rows[start..], d, ChunkSize())
               == AddChunks(Moments(count, mean, m2), rows, d, ChunkSize())
      {
        var take := if |rows| - start < ChunkSize() then |rows| - start else ChunkSize();
        if gpu && gpuFailsAt.Some? && gpuFailsAt.value < start + take {
          return None;
        }
        var chunk := rows[start..start + take];
        assert rows[start..][..take] == chunk && rows[start..][take..] == rows[start + take..];
        AddChunksStep(m, rows[start..], d, ChunkSize());
        MomentsOfCount(chunk, d);
        m := Merge(m, MomentsOf(chunk, d), d);
        start := start + take;
      }
      AddNothing(m, d, ChunkSize());
      assert rows[|rows|..] == [];
      return Some(m);
    }

    /** Writes a batch behind the committed features; a failure may leave any prefix of it there. */
    method Append(data: seq<real>, faults: AddFaults) returns (ok: bool)
      requires Valid() && config.Valid() && Spooled()
      modifies `spool
      ensures Valid() && Current() == old(Current())
      ensures ok <==> Reaches(old(spool).Some?, data, faults)
      ensures spool.Some? <==> old(spool).Some? || faults.opens
      ensures ok ==> spool.Some? && count * config.embeddingDimension + |data| <= |spool.value|
                     && spool.value[..count * config.embeddingDimension + |data|] == Current().features + data
    {
      if spool.None? {
        if !faults.opens {
          return false;
        }
        spool := Some([]);
      }
      if !faults.seeks {
        return false;
      }
      var offset := count * config.embeddingDimension;
      var written := if faults.written < |data| then data[..faults.written] else data;
      spool := Some(Overwritten(spool.value, offset, written));
      return written == data && |data| <= faults.written && faults.flushes;
    }

    /** Writes a checkpoint; whatever happens the file holds a prefix of the whole one. */
    method SaveCheckpoint(faults: SaveFaults) returns (status: Status, file: seq<Byte>)
      requires Valid()
      ensures count == 0 ==> status == Failure(NotInitialized) && file == []
      ensures count > 0 ==>
                var whole := EncodeFile(codec, config.Mode(), config.embeddingDimension, Current());
                && (status.Success? <==>
                    |whole| <= faults.room && (Spooled() ==> count * config.embeddingDimension <= faults.readable))
                && (status.Success? || status == Failure(IoError))
                && file <= whole && (status.Success? && |whole| <= faults.kept ==> file == whole)
    {
      if count == 0 {
        return Failure(NotInitialized), [];
      }
      var d: nat := config.embeddingDimension;
      var stream := Header(config.Mode(), d, count) + EncodeValues(codec, 8, mean) + EncodeValues(codec, 8, Flat(m2));
      var complete := true;
      if Spooled() {
        hide Header;
        hide Flat;
        var values;
        complete, values := ReplayBytes(spool.value[..count * d], faults.readable);
        stream := stream + values;
      }
      status := if complete && |stream| <= faults.room then Success else Failure(IoError);
      file := Cut(stream, faults);
    }

    /** Reads values back from the feature file in blocks of at most 4096, as bytes, until a read fails. */
    method ReplayBytes(values: seq<real>, readable: nat) returns (complete: bool, bytes: seq<Byte>)
      ensures complete <==> |values| <= readable
      ensures bytes <= EncodeValues(codec, 4, values)
      ensures complete ==> bytes == EncodeValues(codec, 4, values)
    {
      bytes := [];
      var done := 0;
      while done < |values|
        invariant 0 <= done <= |values| && (done <= readable || done == 0)
        invariant bytes == EncodeValues(codec, 4, values[..done])
      {
        hide EncodeValues;
        var take := if |values| - done < 4096 then |values| - done else 4096;
        if readable < done + take {
          EncodeAppend(codec, 4, values[..done], values[done..]);
          assert values == values[..done] + values[done..];
          return false, bytes;
        }
        EncodeAppend(codec, 4, values[..done], values[done..done + take]);
        assert values[..done + take] == values[..done] + values[done..done + take];
        bytes := bytes + EncodeValues(codec, 4, values[done..done + take]);
        done := done + take;
      }
      assert values[..|values|] == values;
      complete := true;
    }

    /** What is in the file of a stream that was given these bytes. */
    function Cut(stream: seq<Byte>, faults: SaveFaults): (file: seq<Byte>)
      ensures file <= stream && |file| <= faults.room && |file| <= faults.kept
      ensures |stream| <= faults.room && |stream| <= faults.kept ==> file == stream
    {
      var accepted := if |stream| <= faults.room then stream else stream[..faults.room];
      if |accepted| <= faults.kept then accepted else accepted[..faults.kept]
    }

    /** Restores a checkpoint. A refused file changes nothing. */
    method LoadCheckpoint(file: seq<Byte>, faults: LoadFaults) returns (status: Status)
      requires Valid()
      modifies this
      ensures Valid()
      ensures !status.Success? ==> count == old(count) && mean == old(mean) && m2 == old(m2) && spool == old(spool)
      ensures !config.Valid() ==> status == Failure(InvalidArgument)
      ensures config.Valid() ==>
                var found := DecodeFile(codec, config.Mode(), config.embeddingDimension, Spooled(), file);
                && (status.Success? <==>
                    found.Some? && (Spooled() ==> faults.opens && |found.value.features| <= faults.written))
                && (status.Success? ==> Current() == found.value && spool.Some? == Spooled())
                && (!status.Success? && found.Some? ==> status == Failure(IoError))
                && (!status.Success? && (!Spooled() || (faults.opens && |file| <= faults.written)) ==>
                    status == Failure(ArtifactCorrupt))
    {
      var valid := Validate(config);
      if !valid.Success? {
        return valid;
      }
      var d: nat := config.embeddingDimension;
      if |file| < HEADER_BYTES {
        return Failure(ArtifactCorrupt);
      }
      var header := HeaderCount(config.Mode(), d, file);
      if header.None? || !SizeAccepted(d, header.value, Spooled(), |file|) {
        return Failure(ArtifactCorrupt);
      }
      var n := header.value;
      var payload := file[HEADER_BYTES..];
      var newMean := DecodeValues(codec, 8, payload, d);
      var newM2 := DecodeValues(codec, 8, payload[8 * d..], Cells(d));
      if newMean.None? || newM2.None? {
        return Failure(ArtifactCorrupt);
      }
      DivExact(d, d);
      var newSpool: Option<seq<real>> := None;
      if Spooled() {
        if !faults.opens {
          return Failure(IoError);
        }
        SizeTest(d, n, true, |file|);
        var copied := CopyFeatures(payload[MatrixBytes(d)..], n * d, faults.written);
        if copied.Err? {
          return Failure(copied.error);
        }
        newSpool := Some(copied.value);
      }
      count, mean, m2, spool := n, newMean.value, Rows(newM2.value, d), newSpool;
      return Success;
    }

    /** Copies `n` feature values into a fresh temporary file, in blocks of at most 4096 values. */
    method CopyFeatures(bytes: seq<Byte>, n: nat, written: nat) returns (r: Result<seq<real>>)
      requires n * 4 <= |bytes|
      ensures var values := DecodeValues(codec, 4, bytes, n);
              && (r.Ok? <==> values.Some? && n <= written)
              && (r.Ok? ==> values == Some(r.value))
              && (r.Err? ==> r.error == ArtifactCorrupt || r.error == IoError)
              && (r.Err? && r.error == ArtifactCorrupt ==> values.None?) && (r.Err? && r.error == IoError ==> n > written)
    {
      var copied: seq<real> := [];
      var done := 0;
      while done < n
        invariant 0 <= done <= n && done <= written
        invariant DecodeValues(codec, 4, bytes, done) == Some(copied)
      {
        var take := if n - done < 4096 then n - done else 4096;
        var block := DecodeValues(codec, 4, bytes[done * 4..], take);
        DecodeSplit(codec, 4, bytes, done, take);
        DecodeSplit(codec, 4, bytes, done + take, n - done - take);
        assert done + take + (n - done - take) == n;
        if block.None? {
          return Err(ArtifactCorrupt);
        }
        if written < done + take {
          return Err(IoError);
        }
        copied := copied + block.value;
        done := done + take;
      }
      return Ok(copied);
    }

    /** Replays the committed features into the memory bank and reports how many rows it holds. */
    method SaveArtifacts(fitted: Whitening, faults: ReplayFaults)
      returns (r: Result<nat>, bank: seq<real>, ghost origin: seq<nat>, ghost sizes: seq<nat>)
      requires Valid() && (config.Valid() ==> fitted.Valid(config.embeddingDimension))
      ensures !config.Valid() || count < 2 ==> r == Err(InvalidArgument) && bank == []
      ensures config.Valid() && count >= 2 && !faults.statistics ==> r == Err(IoError) && bank == []
      ensures config.Valid() && count >= 2 && faults.statistics && !Spooled() ==> r == Ok(|fitted.basis|) && bank == []
      ensures config.Valid() && count >= 2 && faults.statistics && Spooled() ==>
                (r == Err(IoError) <==> count * config.embeddingDimension > faults.readable)
      ensures config.Valid() && count >= 2 && faults.statistics && Spooled() && r != Err(IoError) ==>
                var rows := Rows(Current().features, config.embeddingDimension);
                var n := if count <= config.memoryBankSize then count else config.memoryBankSize;
                && |rows| == count
                && Holds(bank, TransformedRows(fitted, config.embeddingDimension, rows), origin)
                && |origin| == n && sizes == Sizes(0, count, config.memoryBankSize, config.streamingChunkSize)
                && (forall k :: 0 <= k < |sizes| ==> sizes[k] <= config.memoryBankSize + config.streamingChunkSize <= INT_MAX)
                && (count <= config.memoryBankSize ==>
                    bank == Flat(TransformedRows(fitted, config.embeddingDimension, rows)))
                && r == if config.numNeighbors < 0 || n < config.numNeighbors then Err(InvalidArgument) else Ok(n)
    {
      bank, origin, sizes := [], [], [];
      var valid := Validate(config);
      if !valid.Success? || count < 2 {
        return Err(InvalidArgument), bank, origin, sizes;
      }
      if !faults.statistics {
        return Err(IoError), bank, origin, sizes;
      }
      if !Spooled() {
        return Ok(|fitted.basis|), bank, origin, sizes;
      }
      var d: nat := config.embeddingDimension;
      if count * d > faults.readable {
        return Err(IoError), bank, origin, sizes;
      }
      DivExact(count, d);
      bank, origin, sizes :=
        StreamBank(fitted, d, spool.value[..count * d], config.memoryBankSize, config.streamingChunkSize);
      var n := |bank| / |fitted.basis|;
      if config.numNeighbors < 0 || n < config.numNeighbors {
        return Err(InvalidArgument), bank, origin, sizes;
      }
      return Ok(n), bank, origin, sizes;
    }
  }

  // ---- whole runs ----

  /** What a fit must hold after the rows `rows` were added. */
  ghost function Summary(rows: seq<Vec>, d: nat, spooled: bool): State
    requires Uniform(rows, d)
  {
    State(MomentsOf(rows, d), if spooled then Flat(rows) else [])
  }

  /** One successful addition keeps the state exact: the contract of `Add` seen from the training data. */
  lemma StepExact(rows: seq<Vec>, batch: seq<Vec>, d: nat, spooled: bool, size: nat)
    requires Uniform(rows, d) && Uniform(batch, d) && size > 0
    ensures WellFormed(MomentsOf(rows, d), d)
    ensures Step(Summary(rows, d, spooled), batch, d, spooled, size) == Summary(rows + batch, d, spooled)
  {
    MomentsOfCount(rows, d);
    AddChunksExact(rows, batch, d, size);
    FlatAppend(rows, batch);
  }

  datatype Command =
    | AddBatch(values: seq<Float>, n: nat, addFaults: AddFaults)
    | Save(saveFaults: SaveFaults)
    | Restore(bytes: seq<Byte>, loadFaults: LoadFaults)
    | Reset

  /** What a caller sees of one command: whether it succeeded, and the file a save left behind. */
  datatype Entry = Entry(command: Command, ok: bool, file: seq<Byte>)

  /** What a fit holds, and whether its feature file is open. */
  datatype Fit = Fit(state: State, open: bool)

  datatype Setting = Setting(config: FitConfig, codec: Codec, gpu: bool)
  {
    predicate Spooled() {
      config.variant == Mahalanobis
    }

    function ChunkSize(): nat {
      if gpu then 8192 else 256
    }

    function Dimension(): (d: nat)
      requires config.Valid()
      ensures d > 0
    {
      config.embeddingDimension
    }

    /** The whole checkpoint of a state. */
    function Whole(s: State): seq<Byte>
      requires config.Valid()
    {
      EncodeFile(codec, config.Mode(), Dimension(), s)
    }

    function Found(bytes: seq<Byte>): Option<State>
      requires config.Valid()
    {
      DecodeFile(codec, config.Mode(), Dimension(), Spooled(), bytes)
    }
  }

  /** When a command succeeds. */
  ghost predicate Succeeds(c: Setting, f: Fit, command: Command) {
    match command
    case AddBatch(values, n, faults) =>
      && Accumulates(c.config, c.gpu, f.state.moments.count, values, n, faults)
      && (c.Spooled() ==> Reaches(f.open, values, faults))
    case Save(faults) =>
      && c.config.Valid() && f.state.moments.count > 0 && |c.Whole(f.state)| <= faults.room
      && (c.Spooled() ==> f.state.moments.count * c.Dimension() <= faults.readable)
    case Restore(bytes, faults) =>
      && c.config.Valid() && c.Found(bytes).Some?
      && (c.Spooled() ==> faults.opens && |c.Found(bytes).value.features| <= faults.written)
    case Reset => true
  }

  /** A command succeeded exactly when it must, and a save left a prefix of the whole checkpoint. */
  ghost predicate Explained(c: Setting, f: Fit, e: Entry) {
    && (e.ok <==> Succeeds(c, f, e.command))
    && (e.command.Save? ==>
        if c.config.Valid() && f.state.moments.count > 0 then
          && e.file <= c.Whole(f.state)
          && (e.ok && |c.Whole(f.state)| <= e.command.saveFaults.kept ==> e.file == c.Whole(f.state))
        else e.file == [])
  }

  ghost function Next(c: Setting, f: Fit, e: Entry): Fit {
    match e.command
    case AddBatch(values, n, faults) =>
      if !Accumulates(c.config, c.gpu, f.state.moments.count, values, n, faults) then f
      else
        Fit(if e.ok && WellFormed(f.state.moments, c.Dimension()) then
              Step(f.state, Rows(Reals(values), c.Dimension()), c.Dimension(), c.Spooled(), c.ChunkSize())
            else f.state,
            f.open || (c.Spooled() && faults.opens))
    case Restore(bytes, _) =>
      if e.ok && c.config.Valid() && c.Found(bytes).Some? then Fit(c.Found(bytes).value, c.Spooled()) else f
    case Save(_) => f
    case Reset => Fit(State(NOTHING, []), false)
  }

  ghost function After(c: Setting, history: seq<Entry>): Fit {
    if |history| == 0 then Fit(State(NOTHING, []), false)
    else Next(c, After(c, history[..|history| - 1]), history[|history| - 1])
  }

  /** Every entry of a history is explained by the entries before it. */
  ghost predicate Faithful(c: Setting, history: seq<Entry>) {
    forall k :: 0 <= k < |history| ==> Explained(c, After(c, history[..k]), history[k])
  }

  method Perform(p: StatisticalFit, command: Command) returns (e: Entry)
    requires p.Valid()
    modifies p
    ensures p.Valid() && e.command == command
    ensures Explained(p.Set(), old(p.Holding()), e) && p.Holding() == Next(p.Set(), old(p.Holding()), e)
  {
    hide Accumulates;
    hide Reaches;
    hide Step;
    hide EncodeFile;
    hide DecodeFile;
    var status, file := Success, [];
    match command {
      case AddBatch(values, n, faults) => status := p.Add(values, n, faults);
      case Save(faults) => status, file := p.SaveCheckpoint(faults);
      case Restore(bytes, faults) => status := p.LoadCheckpoint(bytes, faults);
      case Reset => p.Clear();
    }
    e := Entry(command, status.Success?, file);
  }

  /** Runs commands on a new fit. */
  method Run(config: FitConfig, codec: Codec, gpu: bool, commands: seq<Command>)
    returns (p: StatisticalFit, history: seq<Entry>)
    ensures p.Valid() && fresh(p) && p.Set() == Setting(config, codec, gpu)
    ensures |history| == |commands| && forall k :: 0 <= k < |history| ==> history[k].command == commands[k]
    ensures Faithful(p.Set(), history) && p.Holding() == After(p.Set(), history)
  {
    hide Explained;
    hide Next;
    p := new StatisticalFit(config, codec, gpu);
    history := [];
    for n := 0 to |commands|
      invariant p.Valid() && fresh(p) && p.Set() == Setting(config, codec, gpu)
      invariant |history| == n && forall k :: 0 <= k < n ==> history[k].command == commands[k]
      invariant Faithful(p.Set(), history) && p.Holding() == After(p.Set(), history)
    {
      var e := Perform(p, commands[n]);
      var longer := history + [e];
      forall k | 0 <= k <= n ensures Explained(p.Set(), After(p.Set(), longer[..k]), longer[k]) {
        assert longer[..k] == history[..k];
        assert history[..n] == history;
      }
      assert longer[..n] == history;
      history := longer;
    }
  }

  // ---- what every history of a fit is like ----

  /** The last save that left these bytes behind. */
  function SavedAt(history: seq<Entry>, bytes: seq<Byte>): (j: Option<nat>)
    ensures j.Some? ==> j.value < |history| && history[j.value].command.Save? && history[j.value].file == bytes
    ensures j.None? ==> forall k :: 0 <= k < |history| ==> !(history[k].command.Save? && history[k].file == bytes)
  {
    if |history| == 0 then None
    else if history[|history| - 1].command.Save? && history[|history| - 1].file == bytes then Some(|history| - 1)
    else SavedAt(history[..|history| - 1], bytes)
  }

  /** The rows a fit stands for: those of the successful additions, since it was new or as they were at a save. */
  ghost function Standing(c: Setting, history: seq<Entry>): (rows: seq<Vec>)
    requires c.config.Valid()
    ensures Uniform(rows, c.Dimension())
    decreases |history|
  {
    if |history| == 0 then []
    else
      var before, e := history[..|history| - 1], history[|history| - 1];
      match e.command
      case AddBatch(values, _, _) =>
        Standing(c, before) + if e.ok && AllFinite(values) then Rows(Reals(values), c.Dimension()) else []
      case Save(_) => Standing(c, before)
      case Restore(bytes, _) =>
        if e.ok && SavedAt(before, bytes).Some? then Standing(c, before[..SavedAt(before, bytes).value])
        else Standing(c, before)
      case Reset => []
  }

  /** Whatever was restored was left behind by a save of the same history, whole or cut short. */
  predicate OwnFiles(history: seq<Entry>) {
    forall k :: 0 <= k < |history| && history[k].command.Restore? && history[k].ok ==>
      SavedAt(history[..k], history[k].command.bytes).Some?
  }

  /** What was saved is representable in the file's floating-point formats. */
  ghost predicate Storable(c: Setting, history: seq<Entry>)
    requires c.config.Valid()
  {
    forall k {:trigger history[k]} :: 0 <= k < |history| && history[k].command.Save? ==>
      var s := Summary(Standing(c, history[..k]), c.Dimension(), c.Spooled());
      s.moments.count > 0 ==> Saveable(c.codec, c.config.Mode(), c.Dimension(), c.Spooled(), s)
  }

  lemma PrefixKeeps(c: Setting, history: seq<Entry>, j: nat)
    requires c.config.Valid() && Faithful(c, history) && OwnFiles(history) && Storable(c, history) && j <= |history|
    ensures Faithful(c, history[..j]) && OwnFiles(history[..j]) && Storable(c, history[..j])
  {
    hide Explained;
    hide Saveable;
    hide Summary;
    hide Standing;
    hide After;
    forall k | 0 <= k < j ensures history[..j][..k] == history[..k] && history[..j][k] == history[k] {
    }
    assert forall k {:trigger history[..j][k]} :: 0 <= k < j ==> history[..j][k] == history[k];
  }

  /** A file that a save of this state left behind, and that is accepted, holds this state. */
  lemma FoundIsSaved(c: Setting, s: State, bytes: seq<Byte>)
    requires c.config.Valid() && Saveable(c.codec, c.config.Mode(), c.Dimension(), c.Spooled(), s)
    requires bytes <= c.Whole(s) && c.Found(bytes).Some?
    ensures c.Found(bytes).value == s
  {
    hide Saveable;
    hide EncodeFile;
    hide DecodeFile;
    var whole := c.Whole(s);
    if |bytes| < |whole| {
      assert bytes == whole[..|bytes|];
      TruncatedFileRejected(c.codec, c.config.Mode(), c.Dimension(), c.Spooled(), s, |bytes|);
    } else {
      assert bytes == whole;
      FileRoundTrip(c.codec, c.config.Mode(), c.Dimension(), c.Spooled(), s);
    }
  }

  lemma NoBytesRefused(c: Setting)
    requires c.config.Valid()
    ensures c.Found([]) == None
  {
  }

  /**
   * After any run of additions, saves, restores and resets, whatever fails in between and however far
   * failed writes get, the fit holds the exact statistics of the rows it stands for, and their values in
   * order: as if nothing had failed and it had never stopped.
   */
  lemma {:induction false} RunExact(c: Setting, history: seq<Entry>)
    requires c.config.Valid() && Faithful(c, history) && OwnFiles(history) && Storable(c, history)
    ensures After(c, history).state == Summary(Standing(c, history), c.Dimension(), c.Spooled())
    decreases |history|
  {
    hide Saveable;
    hide Summary;
    hide Accumulates;
    hide Reaches;
    hide Faithful;
    hide OwnFiles;
    hide Storable;
    hide Explained;
    hide Step;
    hide EncodeFile;
    hide DecodeFile;
    if |history| == 0 {
      NothingYet(c.Dimension(), c.Spooled());
    } else {
      var n := |history| - 1;
      var before, e := history[..n], history[n];
      PrefixKeeps(c, history, n);
      RunExact(c, before);
      At(c, history, n);
      match e.command
      case AddBatch(values, _, _) =>
        if e.ok {
          AdditionExact(c, Standing(c, before), After(c, before), e);
        } else {
          assert Standing(c, before) + [] == Standing(c, before);
        }
      case Save(_) =>
      case Reset => NothingYet(c.Dimension(), c.Spooled());
      case Restore(bytes, _) =>
        if e.ok {
          RestoredExact(c, history, n);
          var j := SavedAt(before, bytes).value;
          assert before[..j] == history[..j];
        }
    }
  }

  lemma NothingYet(d: nat, spooled: bool)
    ensures Summary([], d, spooled) == State(NOTHING, [])
  {
  }

  lemma At(c: Setting, history: seq<Entry>, k: nat)
    requires Faithful(c, history) && k < |history|
    ensures Explained(c, After(c, history[..k]), history[k])
  {
  }

  lemma AdditionExact(c: Setting, rows: seq<Vec>, f: Fit, e: Entry)
    requires c.config.Valid() && Uniform(rows, c.Dimension()) && f.state == Summary(rows, c.Dimension(), c.Spooled())
    requires e.command.AddBatch? && e.ok && Explained(c, f, e)
    ensures AllFinite(e.command.values)
    ensures Next(c, f, e).state
         == Summary(rows + Rows(Reals(e.command.values), c.Dimension()), c.Dimension(), c.Spooled())
  {
    hide Step;
    StepExact(rows, Rows(Reals(e.command.values), c.Dimension()), c.Dimension(), c.Spooled(), c.ChunkSize());
  }

  lemma {:induction false} RestoredExact(c: Setting, history: seq<Entry>, n: nat)
    requires c.config.Valid() && Faithful(c, history) && OwnFiles(history) && Storable(c, history)
    requires n < |history| && history[n].command.Restore? && history[n].ok
    ensures var j := SavedAt(history[..n], history[n].command.bytes);
              && j.Some? && c.Found(history[n].command.bytes)
              == Some(Summary(Standing(c, history[..j.value]), c.Dimension(), c.Spooled()))
    decreases n, 0
  {
    hide Saveable;
    hide Summary;
    hide Faithful;
    hide Storable;
    hide Standing;
    var bytes := history[n].command.bytes;
    var j := SavedAt(history[..n], bytes).value;
    assert history[..n][j] == history[j];
    At(c, history, n);
    At(c, history, j);
    PrefixKeeps(c, history, j);
    RunExact(c, history[..j]);
    NoBytesRefused(c);
    SavedStorable(c, history, j);
    FoundIsSaved(c, After(c, history[..j]).state, bytes);
  }

  lemma SavedStorable(c: Setting, history: seq<Entry>, j: nat)
    requires c.config.Valid() && Storable(c, history) && j < |history| && history[j].command.Save?
    ensures var s := Summary(Standing(c, history[..j]), c.Dimension(), c.Spooled());
              s.moments.count > 0 ==> Saveable(c.codec, c.config.Mode(), c.Dimension(), c.Spooled(), s)
  {
  }
}
