/** The host side of a backend plugin: loading, inference, and the tensors that outlive them. */
module BackendLifetime {
  import opened BackendMemory
  import opened Numbers

  /** What the plugin answers while it is loaded. */
  datatype CreateReply = CreateReply(status: int, instance: bool, signatureStatus: int, signature: bool, maxBatch: int)

  /** One tensor of a batch as the plugin describes it; `data` is `None` for a null pointer. */
  datatype TensorReply = TensorReply(name: string, wellFormed: bool, byteSize: nat, data: Option<seq<int>>,
                                     onDevice: bool, shapeFits: bool)

  datatype InferReply = InferReply(status: int, owner: bool, listed: bool, tensors: seq<TensorReply>)

  datatype Answer = Done | Refused | NotLoaded | BackendFailure | PluginFailed(status: int) | Thrown

  /** The view an output tensor takes: of the plugin's memory, unless the pointer is null. */
  function ViewOf(reply: TensorReply, device: bool): View {
    match reply.data
    case None => Own([])
    case Some(bytes) => if device then Device(bytes) else Host(bytes)
  }

  /** The checks on one tensor of a batch. */
  predicate Acceptable(reply: TensorReply, device: bool) {
    && reply.wellFormed && (reply.byteSize != 0 ==> reply.data.Some?)
    && (device ==> reply.onDevice && reply.shapeFits)
  }

  /** The checks in the order of the host and the device loop. */
  method CheckReply(reply: TensorReply, device: bool) returns (ok: bool)
    ensures ok == Acceptable(reply, device)
  {
    if device && !reply.onDevice {
      return false;
    }
    if !reply.wellFormed || (reply.byteSize != 0 && reply.data.None?) {
      return false;
    }
    return !device || reply.shapeFits;
  }

  /** Setting the view: a null pointer leaves the new tensor with no bytes of its own. */
  method SetView(reply: TensorReply, device: bool) returns (view: View)
    ensures view == ViewOf(reply, device)
  {
    view := Own([]);
    if reply.data.Some? {
      if device {
        view := Device(reply.data.value);
      } else {
        view := Host(reply.data.value);
      }
    }
  }

  /** Each name among the first `n` tensors stands for the first tensor of that name. */
  ghost predicate Outputs(replies: seq<TensorReply>, n: nat, device: bool, b: nat, outputs: map<string, nat>,
                          tensors: Tensors)
    requires n <= |replies|
  {
    && (forall k :: 0 <= k < n ==> replies[k].name in outputs)
    && (forall name :: name in outputs ==>
          && outputs[name] in tensors
          && exists k :: (FirstNamed(replies, n, k, name)
                          && tensors[outputs[name]] == Tensor(ViewOf(replies[k], device), Some(b))))
  }

  ghost predicate FirstNamed(replies: seq<TensorReply>, n: nat, k: int, name: string)
    requires n <= |replies|
  {
    0 <= k < n && replies[k].name == name && forall j :: 0 <= j < k ==> replies[j].name != name
  }

  /** The tensors are those there were before, unchanged, and the outputs. */
  ghost predicate Made(before: Tensors, tensors: Tensors, outputs: map<string, nat>) {
    && (forall t :: t in before ==> t in tensors && tensors[t] == before[t])
    && tensors.Keys == before.Keys + outputs.Values && before.Keys !! outputs.Values
  }

  lemma OutputAdded(replies: seq<TensorReply>, n: nat, device: bool, b: nat, outputs: map<string, nat>,
                    tensors: Tensors, t: nat)
    requires n < |replies| && Outputs(replies, n, device, b, outputs, tensors)
    requires t !in tensors && replies[n].name !in outputs
    ensures Outputs(replies, n + 1, device, b, outputs[replies[n].name := t],
                    tensors[t := Tensor(ViewOf(replies[n], device), Some(b))])
  {
    var after := tensors[t := Tensor(ViewOf(replies[n], device), Some(b))];
    assert FirstNamed(replies, n + 1, n, replies[n].name);
    forall name | name in outputs
      ensures exists k :: FirstNamed(replies, n + 1, k, name)
                          && after[outputs[name]] == Tensor(ViewOf(replies[k], device), Some(b))
    {
      var k :| FirstNamed(replies, n, k, name)
               && tensors[outputs[name]] == Tensor(ViewOf(replies[k], device), Some(b));
      assert FirstNamed(replies, n + 1, k, name);
    }
  }

  lemma OutputRepeated(replies: seq<TensorReply>, n: nat, device: bool, b: nat, outputs: map<string, nat>,
                       tensors: Tensors)
    requires n < |replies| && Outputs(replies, n, device, b, outputs, tensors) && replies[n].name in outputs
    ensures Outputs(replies, n + 1, device, b, outputs, tensors)
  {
    forall name | name in outputs
      ensures exists k :: FirstNamed(replies, n + 1, k, name)
                          && tensors[outputs[name]] == Tensor(ViewOf(replies[k], device), Some(b))
    {
      var k :| FirstNamed(replies, n, k, name)
               && tensors[outputs[name]] == Tensor(ViewOf(replies[k], device), Some(b));
      assert FirstNamed(replies, n + 1, k, name);
    }
  }

  lemma MadeOneMore(before: Tensors, tensors: Tensors, outputs: map<string, nat>, name: string, t: nat, tensor: Tensor)
    requires Made(before, tensors, outputs) && t !in tensors && name !in outputs
    ensures Made(before, tensors[t := tensor], outputs[name := t])
  {
    assert outputs[name := t].Values == outputs.Values + {t} by {
      assert name in outputs[name := t];
      forall u | u in outputs.Values ensures u in outputs[name := t].Values {
        var key :| key in outputs && outputs[key] == u;
        assert key in outputs[name := t] && outputs[name := t][key] == u;
      }
    }
  }

  lemma NoOutputs(replies: seq<TensorReply>, device: bool, b: nat, tensors: Tensors)
    ensures Outputs(replies, 0, device, b, map[], tensors) && Made(tensors, tensors, map[])
  {
  }

  lemma UnmakeAll(before: Tensors, tensors: Tensors, outputs: map<string, nat>)
    requires Made(before, tensors, outputs)
    ensures outputs.Values <= tensors.Keys && tensors - outputs.Values == before
  {
  }

  lemma AddThenRemove(tensors: Tensors, t: nat, tensor: Tensor)
    requires t !in tensors
    ensures tensors[t := tensor] - {t} == tensors
  {
  }

  /** Reading a view of plugin memory. */
  function ViewReads(tensors: Tensors, t: nat): seq<Event>
    requires t in tensors
  {
    if !tensors[t].view.Own? && tensors[t].owner.Some? then [Read(tensors[t].owner.value)] else []
  }

  /** Reading the inputs in turn, up to the first that cannot be read. */
  function InputReads(tensors: Tensors, inputs: seq<nat>, device: bool): seq<Event>
    requires forall t :: t in inputs ==> t in tensors
  {
    if |inputs| == 0 || (!device && tensors[inputs[0]].view.Device?) then []
    else ViewReads(tensors, inputs[0]) + InputReads(tensors, inputs[1..], device)
  }

  lemma OneInputRead(read: seq<Event>, tensors: Tensors, inputs: seq<nat>, k: nat, device: bool, all: seq<Event>)
    requires k < |inputs| && forall t :: t in inputs ==> t in tensors
    requires device || !tensors[inputs[k]].view.Device?
    requires read + InputReads(tensors, inputs[k..], device) == all
    ensures read + ViewReads(tensors, inputs[k]) + InputReads(tensors, inputs[k + 1..], device) == all
  {
    assert inputs[k..][1..] == inputs[k + 1..];
  }

  /** Reading a tensor on the host. */
  function HostReads(tensors: Tensors, t: nat): seq<Event>
    requires t in tensors
  {
    if tensors[t].view.Device? then [] else ViewReads(tensors, t)
  }

  /** Writing to a tensor makes it own its bytes; one that viewed its batch lets it go. */
  function Written(tensors: Tensors, t: nat, bytes: seq<int>): Tensors
    requires t in tensors
  {
    tensors[t := Tensor(Own(bytes), if tensors[t].view.Host? then None else tensors[t].owner)]
  }

  lemma RefusedInstanceGrows(m: Memory)
    ensures Grows(m.log, RefusedInstance(m).log, [Created(m.next), Called(m.next)])
  {
    var log1, log2 := m.log + [Created(m.next)], m.log + [Created(m.next), Called(m.next)];
    AddInstanceGrows(m);
    assert log2 == log1 + [Called(m.next)];
    GrowsBy(log2, Destroyed(m.next));
    GrowsTwice(m.log, log2, RefusedInstance(m).log, [Created(m.next), Called(m.next)], []);
  }

  /** A new instance and the first call to it. */
  lemma AddInstanceGrows(m: Memory)
    ensures Grows(m.log, m.log + [Created(m.next), Called(m.next)], [Created(m.next), Called(m.next)])
    ensures Log(AddInstance(m), Called(m.next)).log == m.log + [Created(m.next), Called(m.next)]
  {
    var log1 := m.log + [Created(m.next)];
    assert m.log + [Created(m.next), Called(m.next)] == log1 + [Called(m.next)];
    GrowsBy(m.log, Created(m.next));
    GrowsBy(log1, Called(m.next));
    GrowsTwice(m.log, log1, log1 + [Called(m.next)], [Created(m.next)], [Called(m.next)]);
    assert [Created(m.next)] + [Called(m.next)] == [Created(m.next), Called(m.next)];
  }

  /** What is handed out after `log` shows, also when it is given back at once. */
  lemma Handed(before: seq<Event>, log: seq<Event>, asked: seq<Event>, b: nat, i: nat, status: int)
    requires Grows(before, log, asked)
    ensures var p := Produced(b, i, status);
              && Grows(before, log + [p], asked + [p]) && Grows(before, log + [p] + [Released(b)], asked + [p])
              && Grows(before, log, asked + [])
  {
    hide Grows;
    var p := Produced(b, i, status);
    assert asked + [] == asked;
    GrowsBy(log, p);
    GrowsTwice(before, log, log + [p], asked, [p]);
    GrowsBy(log + [p], Released(b));
    GrowsTwice(before, log + [p], log + [p] + [Released(b)], asked + [p], []);
    assert asked + [p] + [] == asked + [p];
  }

  /** The backend object and the memory around it. */
  datatype World = World(memory: Memory, alive: bool, instance: Option<nat>)

  predicate LoadSucceeds(w: World, providerFits: bool, reply: CreateReply) {
    && providerFits && w.instance.None? && reply.status == 0 && reply.instance
    && reply.signatureStatus == 0 && reply.signature && reply.maxBatch > 0
  }

  /** Loading creates one instance, unless it is refused or the plugin makes none. */
  function LoadAsks(w: World, providerFits: bool, reply: CreateReply): seq<Event> {
    if !providerFits || w.instance.Some? || !reply.instance then [] else [Created(w.memory.next), Called(w.memory.next)]
  }

  predicate InputsReadable(w: World, device: bool, inputs: seq<nat>)
    requires forall t :: t in inputs ==> t in w.memory.tensors
  {
    device || forall t :: t in inputs ==> !w.memory.tensors[t].view.Device?
  }

  predicate InferSucceeds(w: World, device: bool, inputs: seq<nat>, reply: InferReply, outOfMemory: bool)
    requires forall t :: t in inputs ==> t in w.memory.tensors
  {
    && w.instance.Some? && InputsReadable(w, device, inputs)
    && reply.status == 0 && (reply.tensors == [] || (reply.listed && reply.owner)) && !outOfMemory
    && forall k :: 0 <= k < |reply.tensors| ==> Acceptable(reply.tensors[k], device)
  }

  /** What stops an inference, the first thing that does. */
  function InferAnswer(w: World, device: bool, inputs: seq<nat>, reply: InferReply, outOfMemory: bool): Answer
    requires forall t :: t in inputs ==> t in w.memory.tensors
  {
    if InferSucceeds(w, device, inputs, reply, outOfMemory) then Done
    else if w.instance.None? then NotLoaded
    else if !InputsReadable(w, device, inputs) then Thrown
    else if reply.status != 0 then PluginFailed(reply.status)
    else if outOfMemory && (reply.tensors == [] || (reply.listed && reply.owner)) then Thrown
    else BackendFailure
  }

  /** Inference reads its inputs, calls the instance, and is handed at most one batch. */
  function InferAsks(w: World, device: bool, inputs: seq<nat>, reply: InferReply): seq<Event>
    requires forall t :: t in inputs ==> t in w.memory.tensors
  {
    if w.instance.None? then []
    else if !InputsReadable(w, device, inputs) then InputReads(w.memory.tensors, inputs, device)
    else
      InputReads(w.memory.tensors, inputs, device) + [Called(w.instance.value)]
      + if reply.owner then [Produced(w.memory.next, w.instance.value, reply.status)] else []
  }

  class DynamicBackend {
    var memory: Memory
    var alive: bool
    var instance: Option<nat>

    ghost predicate Holding(local: Option<nat>)
      reads this
    {
      Consistent(memory, Context(alive, instance, local), Nothing)
    }

    ghost predicate Valid()
      reads this
    {
      Holding(None)
    }

    ghost function Now(): World
      reads this
    {
      World(memory, alive, instance)
    }

    constructor ()
      ensures Valid() && alive && instance == None && memory.tensors == map[] && memory.log == []
    {
      memory := Memory({Backend}, map[], map[], map[], 0, []);
      alive, instance := true, None;
    }

    method LetInstanceGo()
      requires Valid() && instance.Some?
      modifies this
      ensures Valid() && instance == None && alive == old(alive) && memory.tensors == old(memory.tensors)
      ensures Grows(old(memory.log), memory.log, [])
    {
      hide Consistent;
      hide Grows;
      var i := instance.value;
      BackendLetsGo(memory, Context(alive, instance, None));
      DropInstanceGrows(memory, i, Backend);
      memory := DropInstance(memory, i, Backend);
      instance := None;
    }

    method Load(providerFits: bool, reply: CreateReply) returns (r: Answer)
      requires Valid() && alive
      modifies this
      ensures Valid() && alive && memory.tensors == old(memory.tensors)
      ensures r == Done <==> LoadSucceeds(old(Now()), providerFits, reply)
      ensures r == Refused <==> !providerFits || old(instance).Some?
      ensures r == Refused ==> memory == old(memory)
      ensures r.PluginFailed? <==>
                && providerFits && old(instance).None?
                && (reply.status != 0 || !reply.instance || reply.signatureStatus != 0)
      ensures r.PluginFailed? ==>
                r.status == if reply.status != 0 || !reply.instance then reply.status else reply.signatureStatus
      ensures r in {Done, Refused, BackendFailure} || r.PluginFailed?
      ensures instance == if r == Done then Some(old(memory.next)) else old(instance)
      ensures Grows(old(memory.log), memory.log, LoadAsks(old(Now()), providerFits, reply))
    {
      hide Consistent;
      hide Grows;
      var c := Context(alive, instance, None);
      ghost var log := memory.log;
      GrowsNot(log);
      if !providerFits || instance.Some? {
        return Refused;
      }
      LibraryLoaded(memory, c);
      if reply.status != 0 || !reply.instance {
        if reply.instance {
          RefusedInstanceKeeps(memory, c);
          RefusedInstanceGrows(memory);
          memory := RefusedInstance(memory);
        }
        return PluginFailed(reply.status);
      }
      AddInstanceKeeps(memory, c);
      AddInstanceGrows(memory);
      var i := memory.next;
      memory := AddInstance(memory);
      instance := Some(i);
      c := Context(alive, instance, None);
      CallKeeps(memory, c, i);
      memory := Log(memory, Called(i));
      if reply.signatureStatus != 0 {
        Unload(log, i);
        return PluginFailed(reply.signatureStatus);
      }
      if !reply.signature || reply.maxBatch <= 0 {
        Unload(log, i);
        return BackendFailure;
      }
      r := Done;
    }

    /** A load that fails after the instance was made. */
    method Unload(ghost log: seq<Event>, ghost i: nat)
      requires Valid() && alive && instance.Some? && Grows(log, memory.log, [Created(i), Called(i)])
      modifies this
      ensures Valid() && instance == None && alive == old(alive) && memory.tensors == old(memory.tensors)
      ensures Grows(log, memory.log, [Created(i), Called(i)])
    {
      hide Grows;
      hide Consistent;
      LetInstanceGo();
      GrowsTwice(log, old(memory.log), memory.log, [Created(i), Called(i)], []);
      assert [Created(i), Called(i)] + [] == [Created(i), Called(i)];
    }

    method LetTensorGo(t: nat, local: Option<nat>)
      requires Holding(local) && t in memory.tensors
      modifies this`memory
      ensures Holding(local) && memory.tensors == old(memory.tensors) - {t}
      ensures local.Some? ==>
                && local.value in old(memory.batches) && local.value in memory.batches
                && memory.batches[local.value].held == old(memory.batches)[local.value].held
      ensures Grows(old(memory.log), memory.log, [])
    {
      hide Consistent;
      hide Grows;
      var c := Context(alive, instance, local);
      LetGoKeeps(memory, c, t, memory.tensors - {t});
      LetGoGrows(memory, t, memory.tensors - {t});
      if local.Some? {
        LocalStays(memory, c, t, memory.tensors - {t});
      }
      memory := LetGo(memory, t, memory.tensors - {t});
    }

    /** The results of a failed inference are destroyed with the map that holds them. */
    method LetTensorsGo(ts: set<nat>, b: nat)
      requires Holding(Some(b)) && ts <= memory.tensors.Keys
      modifies this`memory
      ensures Holding(Some(b)) && memory.tensors == old(memory.tensors) - ts
      ensures Grows(old(memory.log), memory.log, [])
    {
      hide Consistent;
      hide Grows;
      var left := ts;
      GrowsNot(memory.log);
      while left != {}
        invariant Holding(Some(b)) && left <= ts && memory.tensors == old(memory.tensors) - (ts - left)
        invariant Grows(old(memory.log), memory.log, [])
        decreases left
      {
        var t :| t in left;
        ghost var log := memory.log;
        LetTensorGo(t, Some(b));
        GrowsTwice(old(memory.log), log, memory.log, [], []);
        left := left - {t};
      }
    }

    method LetLocalGo(b: nat)
      requires Holding(Some(b))
      modifies this`memory
      ensures Valid() && memory.tensors == old(memory.tensors)
      ensures Grows(old(memory.log), memory.log, [])
    {
      hide Consistent;
      hide Grows;
      LocalGone(memory, Context(alive, instance, Some(b)));
      DropBatchGrows(memory, b, Local);
      memory := DropBatch(memory, b, Local);
    }

    /** The plugin reads its inputs; a host inference cannot read a tensor on the device. */
    method ReadInputs(device: bool, inputs: seq<nat>) returns (ok: bool)
      requires Valid() && forall t :: t in inputs ==> t in memory.tensors
      modifies this`memory
      ensures Valid() && memory.tensors == old(memory.tensors)
      ensures memory.next == old(memory.next) && memory.instances == old(memory.instances)
      ensures ok <==> InputsReadable(old(Now()), device, inputs)
      ensures Grows(old(memory.log), memory.log, InputReads(memory.tensors, inputs, device))
    {
      hide Consistent;
      hide Grows;
      ghost var read: seq<Event> := [];
      ghost var all := InputReads(memory.tensors, inputs, device);
      GrowsNot(memory.log);
      assert read + InputReads(memory.tensors, inputs[0..], device) == all;
      for k := 0 to |inputs|
        invariant Valid() && memory.tensors == old(memory.tensors)
        invariant memory.next == old(memory.next) && memory.instances == old(memory.instances)
        invariant device || forall t :: t in inputs[..k] ==> !memory.tensors[t].view.Device?
        invariant Grows(old(memory.log), memory.log, read)
        invariant read + InputReads(memory.tensors, inputs[k..], device) == all
      {
        var t := inputs[k];
        if !device && memory.tensors[t].view.Device? {
          assert read == all;
          return false;
        }
        OneInputRead(read, memory.tensors, inputs, k, device, all);
        if !memory.tensors[t].view.Own? {
          ReadKeeps(memory, Context(alive, instance, None), t);
          var e := Read(memory.tensors[t].owner.value);
          GrowsBy(memory.log, e);
          GrowsTwice(old(memory.log), memory.log, memory.log + [e], read, [e]);
          memory := Log(memory, e);
          read := read + [e];
        } else {
          assert read + [] == read;
        }
      }
      assert read == all;
      ok := true;
    }

    method MakeTensor(view: View, b: nat) returns (t: nat)
      requires Holding(Some(b)) && b in memory.batches && (view.Own? || memory.batches[b].held)
      modifies this`memory
      ensures Holding(Some(b)) && b in memory.batches && memory.batches[b].held == old(memory.batches)[b].held
      ensures t !in old(memory.tensors) && memory.tensors == old(memory.tensors)[t := Tensor(view, Some(b))]
      ensures memory.log == old(memory.log)
    {
      hide Consistent;
      t := memory.next;
      var c := Context(alive, instance, Some(b));
      FreshEvents(memory, c);
      AddTensorKeeps(memory, c, view, Some(b));
      memory := AddTensor(memory, view, Some(b));
    }

    /** Turns the batch's tensors into views that share it; on a bad one, gives up those made so far. */
    method Collect(device: bool, b: nat, replies: seq<TensorReply>) returns (ok: bool, outputs: map<string, nat>)
      requires Holding(Some(b)) && b in memory.batches && (replies != [] ==> memory.batches[b].held)
      modifies this`memory
      ensures Holding(Some(b))
      ensures ok <==> forall k :: 0 <= k < |replies| ==> Acceptable(replies[k], device)
      ensures !ok ==> memory.tensors == old(memory.tensors) && outputs == map[]
      ensures ok ==>
                && Outputs(replies, |replies|, device, b, outputs, memory.tensors)
                && Made(old(memory.tensors), memory.tensors, outputs)
      ensures Grows(old(memory.log), memory.log, [])
    {
      hide Consistent;
      hide Outputs;
      hide Made;
      hide Acceptable;
      hide Grows;
      GrowsNot(memory.log);
      NoOutputs(replies, device, b, memory.tensors);
      outputs := map[];
      for k := 0 to |replies|
        invariant Holding(Some(b)) && b in memory.batches && (replies != [] ==> memory.batches[b].held)
        invariant forall j :: 0 <= j < k ==> Acceptable(replies[j], device)
        invariant Outputs(replies, k, device, b, outputs, memory.tensors)
        invariant Made(old(memory.tensors), memory.tensors, outputs)
        invariant Grows(old(memory.log), memory.log, [])
      {
        ghost var log := memory.log;
        var acceptable := CheckReply(replies[k], device);
        if !acceptable {
          UnmakeAll(old(memory.tensors), memory.tensors, outputs);
          LetTensorsGo(outputs.Values, b);
          GrowsTwice(old(memory.log), log, memory.log, [], []);
          return false, map[];
        }
        ghost var tensors := memory.tensors;
        var view := SetView(replies[k], device);
        var t := MakeTensor(view, b);
        ghost var tensor := Tensor(ViewOf(replies[k], device), Some(b));
        if replies[k].name in outputs {
          AddThenRemove(tensors, t, tensor);
          OutputRepeated(replies, k, device, b, outputs, tensors);
          LetTensorGo(t, Some(b));
          GrowsTwice(old(memory.log), log, memory.log, [], []);
        } else {
          OutputAdded(replies, k, device, b, outputs, tensors, t);
          MadeOneMore(old(memory.tensors), tensors, outputs, replies[k].name, t, tensor);
          outputs := outputs[replies[k].name := t];
        }
      }
      ok := true;
    }

    /** Inference, on the host or on the device. Whatever fails, no batch and no tensor of it stays. */
    method Infer(device: bool, inputs: seq<nat>, reply: InferReply, outOfMemory: bool)
      returns (r: Answer, outputs: map<string, nat>)
      requires Valid() && alive && forall t :: t in inputs ==> t in memory.tensors
      modifies this`memory
      ensures Valid()
      ensures r == Done <==> InferSucceeds(old(Now()), device, inputs, reply, outOfMemory)
      ensures r == InferAnswer(old(Now()), device, inputs, reply, outOfMemory)
      ensures r != Done ==> memory.tensors == old(memory.tensors) && outputs == map[]
      ensures r == Done ==>
                && Made(old(memory.tensors), memory.tensors, outputs)
                && Outputs(reply.tensors, |reply.tensors|, device, old(memory.next), outputs, memory.tensors)
      ensures Grows(old(memory.log), memory.log, InferAsks(old(Now()), device, inputs, reply))
    {
      hide Consistent;
      hide Outputs;
      hide Made;
      hide Acceptable;
      hide Grows;
      hide InputReads;
      hide InputsReadable;
      outputs := map[];
      ghost var log := memory.log;
      GrowsNot(log);
      if instance.None? {
        return NotLoaded, outputs;
      }
      var readable := ReadInputs(device, inputs);
      if !readable {
        return Thrown, outputs;
      }
      var i, c := instance.value, Context(alive, instance, None);
      InstanceThere(memory, c);
      CallKeeps(memory, c, i);
      ghost var read := InputReads(memory.tensors, inputs, device);
      GrowsBy(memory.log, Called(i));
      GrowsTwice(log, memory.log, memory.log + [Called(i)], read, [Called(i)]);
      memory := Log(memory, Called(i));
      Handed(log, memory.log, read + [Called(i)], memory.next, i, reply.status);
      if reply.status != 0 {
        if reply.owner {
          RefusedBatchKeeps(memory, c, i, reply.status);
          memory := RefusedBatch(memory, i, reply.status);
        }
        return PluginFailed(reply.status), outputs;
      }
      var malformed := reply.tensors != [] && (!reply.listed || !reply.owner);
      if malformed || outOfMemory {
        if reply.owner {
          GuardedBatchKeeps(memory, c, i);
          memory := GuardedBatch(memory, i);
        }
        return if malformed then BackendFailure else Thrown, outputs;
      }
      var b := memory.next;
      AddBatchKeeps(memory, c, i, reply.owner);
      memory := AddBatch(memory, i, reply.owner);
      ghost var asked := InferAsks(old(Now()), device, inputs, reply);
      assert Grows(log, memory.log, asked);
      var ok;
      ghost var handed := memory.log;
      ok, outputs := Collect(device, b, reply.tensors);
      ghost var collected := memory.log;
      LetLocalGo(b);
      GrowsTwice(log, handed, collected, asked, []);
      GrowsTwice(log, collected, memory.log, asked, []);
      assert asked + [] == asked;
      r := if ok then Done else BackendFailure;
    }

    // ---- what callers do with tensors ----

    /** A copy shares the view and keeps the batch. */
    method CopyTensor(t: nat) returns (u: nat)
      requires Valid() && t in memory.tensors
      modifies this`memory
      ensures Valid() && u !in old(memory.tensors)
      ensures u == old(memory.next) && memory.tensors == old(memory.tensors)[u := old(memory.tensors)[t]]
      ensures memory.log == old(memory.log)
    {
      hide Consistent;
      u := memory.next;
      var c := Context(alive, instance, None);
      FreshEvents(memory, c);
      var tensor := memory.tensors[t];
      OwnerHeld(memory, c, t);
      AddTensorKeeps(memory, c, tensor.view, tensor.owner);
      memory := AddTensor(memory, tensor.view, tensor.owner);
    }

    /** Reads a tensor on the host. */
    method ReadTensor(t: nat) returns (bytes: Option<seq<int>>)
      requires Valid() && t in memory.tensors
      modifies this`memory
      ensures Valid() && memory.tensors == old(memory.tensors)
      ensures bytes == if memory.tensors[t].view.Device? then None else Some(memory.tensors[t].view.bytes)
      ensures Grows(old(memory.log), memory.log, HostReads(memory.tensors, t))
    {
      hide Consistent;
      hide Grows;
      GrowsNot(memory.log);
      var tensor := memory.tensors[t];
      if tensor.view.Device? {
        return None;
      }
      if tensor.view.Host? {
        ReadKeeps(memory, Context(alive, instance, None), t);
        GrowsBy(memory.log, Read(tensor.owner.value));
        memory := Log(memory, Read(tensor.owner.value));
      }
      bytes := Some(tensor.view.bytes);
    }

    /** Mutable access: a view becomes a private copy of the same bytes, and lets its batch go. */
    method Data(t: nat) returns (ok: bool)
      requires Valid() && t in memory.tensors
      modifies this`memory
      ensures Valid()
      ensures ok <==> !old(memory.tensors)[t].view.Device?
      ensures memory.tensors == if old(memory.tensors)[t].view.Host?
                                then old(memory.tensors)[t := Tensor(Own(old(memory.tensors)[t].view.bytes), None)]
                                else old(memory.tensors)
      ensures Grows(old(memory.log), memory.log, HostReads(old(memory.tensors), t))
    {
      hide Consistent;
      hide Grows;
      GrowsNot(memory.log);
      var tensor := memory.tensors[t];
      if tensor.view.Host? {
        var c := Context(alive, instance, None);
        ReadKeeps(memory, c, t);
        ghost var log, e := memory.log, Read(tensor.owner.value);
        GrowsBy(log, e);
        memory := Log(memory, Read(tensor.owner.value));
        var after := memory.tensors[t := Tensor(Own(tensor.view.bytes), None)];
        LetGoKeeps(memory, c, t, after);
        LetGoGrows(memory, t, after);
        GrowsTwice(log, log + [e], LetGo(memory, t, after).log, [e], []);
        assert [e] + [] == [e];
        memory := LetGo(memory, t, after);
      }
      ok := !tensor.view.Device?;
    }

    /** Writing through the pointer changes this tensor and no other. */
    method WriteTensor(t: nat, bytes: seq<int>) returns (ok: bool)
      requires Valid() && t in memory.tensors && |bytes| == |memory.tensors[t].view.bytes|
      modifies this`memory
      ensures Valid() && (ok <==> !old(memory.tensors)[t].view.Device?)
      ensures memory.tensors == if ok then Written(old(memory.tensors), t, bytes) else old(memory.tensors)
      ensures Grows(old(memory.log), memory.log, HostReads(old(memory.tensors), t))
    {
      hide Consistent;
      hide Grows;
      ok := Data(t);
      if ok {
        RewriteKeeps(memory, Context(alive, instance, None), t, bytes);
        memory := Rewrite(memory, t, bytes);
      }
    }

    /** Destroys the backend object: first its pointer to the instance, then the one to the library. */
    method Drop()
      requires Valid() && alive
      modifies this
      ensures Valid() && !alive && instance == None && memory.tensors == old(memory.tensors)
      ensures Grows(old(memory.log), memory.log, [])
    {
      hide Consistent;
      hide Grows;
      GrowsNot(memory.log);
      if instance.Some? {
        LetInstanceGo();
      }
      BackendGone(memory, Context(alive, instance, None));
      DropLibraryGrows(memory, Backend);
      GrowsTwice(old(memory.log), memory.log, DropLibrary(memory, Backend).log, [], []);
      memory := DropLibrary(memory, Backend);
      alive := false;
    }
  }

  // ---- runs ----

  datatype Command =
    | Load(providerFits: bool, reply: CreateReply)
    | Infer(device: bool, inputs: seq<nat>, answer: InferReply, outOfMemory: bool)
    | Copy(tensor: nat)
    | Look(tensor: nat)
    | Write(tensor: nat, bytes: seq<int>)
    | Forget(tensor: nat)
    | Drop

  /** A caller can use the backend only while it has it, and only tensors it has. */
  predicate Possible(command: Command, alive: bool, tensors: Tensors) {
    match command
    case Load(_, _) => alive
    case Infer(_, inputs, _, _) => alive && forall t :: t in inputs ==> t in tensors
    case Write(t, bytes) => t in tensors && |bytes| == |tensors[t].view.bytes|
    case Drop => alive
    case _ => command.tensor in tensors
  }

  /** What one command does: to the backend, to the tensors, and to the log. */
  ghost predicate Effect(w: World, command: Command, v: World)
    requires Possible(command, w.alive, w.memory.tensors)
  {
    var before, after := w.memory, v.memory;
    && v.alive == (w.alive && !command.Drop?)
    && match command
       case Load(providerFits, reply) =>
         && v.instance == (if LoadSucceeds(w, providerFits, reply) then Some(before.next) else w.instance)
         && after.tensors == before.tensors && Grows(before.log, after.log, LoadAsks(w, providerFits, reply))
       case Infer(device, inputs, answer, outOfMemory) =>
         && v.instance == w.instance && Grows(before.log, after.log, InferAsks(w, device, inputs, answer))
         && if InferSucceeds(w, device, inputs, answer, outOfMemory) then
              exists outputs :: && Made(before.tensors, after.tensors, outputs)
                                && Outputs(answer.tensors, |answer.tensors|, device, before.next, outputs, after.tensors)
            else after.tensors == before.tensors
       case Copy(t) =>
         && v.instance == w.instance && after.tensors == before.tensors[before.next := before.tensors[t]]
         && after.log == before.log
       case Look(t) =>
         && v.instance == w.instance && after.tensors == before.tensors
         && Grows(before.log, after.log, HostReads(before.tensors, t))
       case Write(t, bytes) =>
         && v.instance == w.instance && Grows(before.log, after.log, HostReads(before.tensors, t))
         && after.tensors == (if before.tensors[t].view.Device? then before.tensors else Written(before.tensors, t, bytes))
       case Forget(t) =>
         && v.instance == w.instance && after.tensors == before.tensors - {t} && Grows(before.log, after.log, [])
       case Drop =>
         v.instance == None && after.tensors == before.tensors && Grows(before.log, after.log, [])
  }

  /** A command that is not possible does nothing. */
  ghost predicate Step(w: World, command: Command, v: World) {
    if Possible(command, w.alive, w.memory.tensors) then Effect(w, command, v) else v == w
  }

  method Perform(backend: DynamicBackend, command: Command)
    requires backend.Valid() && Possible(command, backend.alive, backend.memory.tensors)
    modifies backend
    ensures backend.Valid() && Effect(old(backend.Now()), command, backend.Now())
  {
    hide Consistent;
    hide Grows;
    hide Made;
    hide Outputs;
    hide LoadSucceeds;
    hide LoadAsks;
    hide InferSucceeds;
    hide InferAsks;
    match command
    case Load(providerFits, reply) =>
      var _ := backend.Load(providerFits, reply);
    case Infer(device, inputs, answer, outOfMemory) =>
      var _, _ := backend.Infer(device, inputs, answer, outOfMemory);
    case Copy(t) =>
      var _ := backend.CopyTensor(t);
    case Look(t) =>
      var _ := backend.ReadTensor(t);
    case Write(t, bytes) =>
      var _ := backend.WriteTensor(t, bytes);
    case Forget(t) =>
      backend.LetTensorGo(t, None);
    case Drop =>
      backend.Drop();
  }

  /** Nothing is used, released or destroyed once it is gone, and all that nobody keeps has been given back. */
  ghost predicate Exact(w: World) {
    var m := w.memory;
    && Safe(m.log)
    && (forall b: nat, i: nat, status :: Produced(b, i, status) in m.log ==>
          (Released(b) in m.log <==> status == 0 && forall t :: t in m.tensors ==> m.tensors[t].owner != Some(b)))
    && (forall i: nat :: Created(i) in m.log ==>
          (Destroyed(i) in m.log <==>
           && w.instance != Some(i)
           && forall t :: t in m.tensors && m.tensors[t].owner.Some? ==>
                m.tensors[t].owner.value in m.batches && m.batches[m.tensors[t].owner.value].instance != i))
    && (Unloaded in m.log <==> !w.alive && forall t :: t in m.tensors ==> m.tensors[t].owner == None)
  }

  lemma ConsistentIsExact(w: World)
    requires Consistent(w.memory, Context(w.alive, w.instance, None), Nothing)
    ensures Exact(w)
  {
    hide Consistent;
    hide Safe;
    var m, c := w.memory, Context(w.alive, w.instance, None);
    LogIsSafe(m, c);
    forall b: nat, i: nat, status | Produced(b, i, status) in m.log
      ensures Released(b) in m.log <==> status == 0 && forall t :: t in m.tensors ==> m.tensors[t].owner != Some(b)
    {
      ReleasedExactly(m, c, b, i, status);
    }
    forall i: nat | Created(i) in m.log
      ensures Destroyed(i) in m.log <==>
                && w.instance != Some(i)
                && forall t :: t in m.tensors && m.tensors[t].owner.Some? ==>
                     m.tensors[t].owner.value in m.batches && m.batches[m.tensors[t].owner.value].instance != i
    {
      DestroyedExactly(m, c, i);
    }
    UnloadedExactly(m, c);
  }

  /**
   * Every run of callers and plugin answers. `worlds` are the states between the commands: each follows
   * from the one before it by its command, and in each of them exactly what nobody keeps any more has been
   * given back.
   */
  method Run(backend: DynamicBackend, commands: seq<Command>) returns (ghost worlds: seq<World>)
    requires backend.Valid()
    modifies backend
    ensures backend.Valid()
    ensures |worlds| == |commands| + 1 && worlds[0] == old(backend.Now()) && worlds[|commands|] == backend.Now()
    ensures forall k :: 0 <= k < |commands| ==> Step(worlds[k], commands[k], worlds[k + 1])
    ensures forall k :: 0 <= k < |worlds| ==> Exact(worlds[k]) && old(backend.memory.log) <= worlds[k].memory.log
  {
    hide Consistent;
    hide Exact;
    hide Effect;
    worlds := [backend.Now()];
    ConsistentIsExact(backend.Now());
    for k := 0 to |commands|
      invariant backend.Valid() && |worlds| == k + 1
      invariant worlds[0] == old(backend.Now()) && worlds[k] == backend.Now()
      invariant forall j :: 0 <= j < k ==> Step(worlds[j], commands[j], worlds[j + 1])
      invariant forall j :: 0 <= j <= k ==> Exact(worlds[j]) && old(backend.memory.log) <= worlds[j].memory.log
    {
      if Possible(commands[k], backend.alive, backend.memory.tensors) {
        Perform(backend, commands[k]);
        EffectGrows(worlds[k], commands[k], backend.Now());
      }
      ConsistentIsExact(backend.Now());
      worlds := worlds + [backend.Now()];
    }
  }

  lemma EffectGrows(w: World, command: Command, v: World)
    requires Possible(command, w.alive, w.memory.tensors) && Effect(w, command, v)
    ensures w.memory.log <= v.memory.log
  {
    hide Asked;
  }

  /**
   * A batch handed out together with a failing status is never given back: not even when nothing is left
   * of backend and tensors.
   */
  method FailedBatchIsKept() returns (log: seq<Event>)
    ensures Unloaded in log
    ensures exists b: nat, i: nat :: Produced(b, i, 5) in log && Released(b) !in log && Destroyed(i) in log
  {
    hide Consistent;
    var backend := new DynamicBackend();
    var loaded := backend.Load(true, CreateReply(0, true, 0, true, 1));
    assert loaded == Done;
    ghost var w := backend.Now();
    ghost var b, i := w.memory.next, w.instance.value;
    AskedMembers(w.memory.log, Created(i));
    var _, _ := backend.Infer(false, [], InferReply(5, true, true, []), false);
    AskedMembers(backend.memory.log, Produced(b, i, 5));
    backend.Drop();
    log := backend.memory.log;
    AskedMembers(log, Produced(b, i, 5));
    AskedMembers(log, Created(i));
    ConsistentIsExact(backend.Now());
    assert Produced(b, i, 5) in log && Released(b) !in log && Destroyed(i) in log;
  }
}
