/** Who owns what across the plugin boundary: the library, its instances, their batches, and the tensors. */
module BackendMemory {
  import opened Numbers

  /** A holder of a shared pointer. */
  datatype Owner = Backend | Local | OfInstance(instance: nat) | OfBatch(batch: nat) | OfTensor(tensor: nat)

  /** What the plugin and the memory it owns see, in order. */
  datatype Event =
    | Created(instance: nat)
    | Called(instance: nat)
    | Destroyed(instance: nat)
    | Produced(batch: nat, instance: nat, status: int)
    | Released(batch: nat)
    | Read(batch: nat)
    | Unloaded

  /** A batch under shared ownership, with the instance it keeps alive; `held` when it is the plugin's to release. */
  datatype SharedBatch = SharedBatch(instance: nat, held: bool, owners: set<Owner>)

  datatype View = Own(bytes: seq<int>) | Host(bytes: seq<int>) | Device(bytes: seq<int>)

  datatype Tensor = Tensor(view: View, owner: Option<nat>)

  datatype Memory = Memory(
    library: set<Owner>,
    instances: map<nat, set<Owner>>,
    batches: map<nat, SharedBatch>,
    tensors: map<nat, Tensor>,
    next: nat,
    log: seq<Event>
  )

  function Log(m: Memory, e: Event): Memory {
    m.(log := m.log + [e])
  }

  // ---- letting go ----

  /** The last owner unloads the library. */
  function DropLibrary(m: Memory, o: Owner): Memory {
    var left := m.library - {o};
    if left == {} then Log(m.(library := left), Unloaded) else m.(library := left)
  }

  /** The last owner destroys the instance; only then does the deleter let go of the library. */
  function DropInstance(m: Memory, i: nat, o: Owner): Memory
    requires i in m.instances
  {
    var left := m.instances[i] - {o};
    if left == {} then DropLibrary(Log(m.(instances := m.instances - {i}), Destroyed(i)), OfInstance(i))
    else m.(instances := m.instances[i := left])
  }

  /** The last owner releases the batch; only then does it let go of its instance. */
  function DropBatch(m: Memory, b: nat, o: Owner): Memory
    requires b in m.batches && m.batches[b].instance in m.instances
  {
    var batch := m.batches[b];
    var left := batch.owners - {o};
    if left == {} then
      var gone := m.(batches := m.batches - {b});
      DropInstance(if batch.held then Log(gone, Released(b)) else gone, batch.instance, OfBatch(b))
    else
      m.(batches := m.batches[b := batch.(owners := left)])
  }

  // ---- what the log must look like ----

  /** An event that may follow: nothing is used, released or destroyed once it is gone. */
  ghost predicate Allowed(before: seq<Event>, e: Event) {
    && Unloaded !in before
    && match e
       case Created(i) => Created(i) !in before && Destroyed(i) !in before
       case Called(i) => Created(i) in before && Destroyed(i) !in before
       case Destroyed(i) => Created(i) in before && Destroyed(i) !in before
       case Produced(b, i, _) =>
         && Created(i) in before && Destroyed(i) !in before && Released(b) !in before
         && forall j, status :: Produced(b, j, status) !in before
       case Released(b) => Live(before, b)
       case Read(b) => Live(before, b)
       case Unloaded => forall i :: Created(i) in before ==> Destroyed(i) in before
  }

  /** A batch handed out with success, not yet released, of an instance not yet destroyed. */
  ghost predicate Live(log: seq<Event>, b: nat) {
    && Released(b) !in log
    && (exists i :: Produced(b, i, 0) in log)
    && (forall i, status :: Produced(b, i, status) in log ==> Destroyed(i) !in log)
  }

  ghost predicate Safe(log: seq<Event>) {
    forall k :: 0 <= k < |log| ==> Allowed(log[..k], log[k])
  }

  lemma SafeAppend(log: seq<Event>, e: Event)
    requires Safe(log) && Allowed(log, e)
    ensures Safe(log + [e])
  {
    hide Allowed;
    var longer := log + [e];
    forall k | 0 <= k < |longer| ensures Allowed(longer[..k], longer[k]) {
      if k < |log| {
        assert longer[..k] == log[..k];
      } else {
        assert longer[..k] == log;
      }
    }
  }

  lemma Before(log: seq<Event>, j: nat, k: nat)
    requires j < k < |log|
    ensures log[j] in log[..k]
  {
    assert log[..k][j] == log[j];
  }

  /** In a safe log nothing is released, destroyed or unloaded twice. */
  lemma AtMostOnce(log: seq<Event>, j: nat, k: nat)
    requires Safe(log) && j < k < |log|
    requires log[j].Released? || log[j].Destroyed? || log[j].Unloaded?
    ensures log[j] != log[k]
  {
    Before(log, j, k);
  }

  /** A view is only read before its batch is released. */
  lemma NoReadAfterRelease(log: seq<Event>, j: nat, k: nat, b: nat)
    requires Safe(log) && j < |log| && k < |log| && log[j] == Read(b) && log[k] == Released(b)
    ensures j < k
  {
    if k < j {
      Before(log, k, j);
    }
  }

  /** A batch is released before its instance is destroyed, and the instance before the library unloads. */
  lemma ReleaseOrder(log: seq<Event>, p: nat, r: nat, d: nat, b: nat, i: nat, status: int)
    requires Safe(log) && p < |log| && r < |log| && d < |log|
    requires log[p] == Produced(b, i, status) && log[r] == Released(b) && log[d] == Destroyed(i)
    ensures p < r < d
  {
    if r < p {
      Before(log, r, p);
    }
    if d < r {
      Before(log, d, r);
      Before(log, p, r);
    }
  }

  lemma NothingAfterUnload(log: seq<Event>, k: nat)
    requires Safe(log) && k < |log| && log[k] == Unloaded
    ensures k == |log| - 1
  {
    if k + 1 < |log| {
      Before(log, k, k + 1);
    }
  }

  // ---- who owns what ----

  /** What the backend object holds: nothing once it is dropped. */
  datatype Context = Context(alive: bool, instance: Option<nat>, local: Option<nat>)

  /** An owner that still appears in a set although its holder has just let go. */
  datatype Loose = Nothing | BatchOwner(batch: nat, owner: Owner) | InstanceOwner(instance: nat, owner: Owner)
    | LibraryOwner(owner: Owner)

  type Tensors = map<nat, Tensor>
  type Batches = map<nat, SharedBatch>
  type Instances = map<nat, set<Owner>>

  ghost predicate HoldsBatch(tensors: Tensors, c: Context, b: nat, o: Owner) {
    match o
    case OfTensor(t) => t in tensors && tensors[t].owner == Some(b)
    case Local => c.local == Some(b)
    case _ => false
  }

  ghost predicate HoldsInstance(batches: Batches, c: Context, i: nat, o: Owner) {
    match o
    case OfBatch(b) => b in batches && batches[b].instance == i
    case Backend => c.instance == Some(i)
    case _ => false
  }

  ghost predicate HoldsLibrary(instances: Instances, c: Context, o: Owner) {
    match o
    case OfInstance(i) => i in instances
    case Backend => c.alive
    case _ => false
  }

  /** Every holder of a batch is its owner, and every owner but the loose one is a holder. */
  ghost predicate BatchesOwned(tensors: Tensors, batches: Batches, c: Context, loose: Option<(nat, Owner)>) {
    && (forall t :: t in tensors && tensors[t].owner.Some? ==>
          var b := tensors[t].owner.value;
            b in batches && OfTensor(t) in batches[b].owners)
    && (c.local.Some? ==> c.local.value in batches && Local in batches[c.local.value].owners)
    && (forall b :: b in batches ==> batches[b].owners != {})
    && (forall b, o :: b in batches && o in batches[b].owners ==>
          HoldsBatch(tensors, c, b, o) || loose == Some((b, o)))
  }

  ghost predicate InstancesOwned(batches: Batches, instances: Instances, c: Context, loose: Option<(nat, Owner)>) {
    && (forall b :: b in batches ==>
          batches[b].instance in instances && OfBatch(b) in instances[batches[b].instance])
    && (c.instance.Some? ==> c.instance.value in instances && Backend in instances[c.instance.value])
    && (forall i :: i in instances ==> instances[i] != {})
    && (forall i, o :: i in instances && o in instances[i] ==>
          HoldsInstance(batches, c, i, o) || loose == Some((i, o)))
  }

  ghost predicate LibraryOwned(instances: Instances, library: set<Owner>, c: Context, loose: Option<Owner>) {
    && (forall i :: i in instances ==> OfInstance(i) in library)
    && (c.alive ==> Backend in library)
    && (c.instance.Some? ==> c.alive)
    && (forall o :: o in library ==> HoldsLibrary(instances, c, o) || loose == Some(o))
  }

  /** Identities are never used twice. */
  ghost predicate Numbered(tensors: Tensors, batches: Batches, log: seq<Event>, next: nat) {
    && (forall b :: b in batches ==> b < next)
    && (forall t :: t in tensors ==> t < next)
    && (forall i: nat :: Created(i) in log ==> i < next)
    && (forall b: nat, i, status :: Produced(b, i, status) in log ==> b < next)
  }

  /** The log tells exactly which instances are still there, and whether the library is. */
  ghost predicate InstancesLogged(instances: Instances, library: set<Owner>, log: seq<Event>) {
    && (forall i :: Created(i) in log ==> (Destroyed(i) in log <==> i !in instances))
    && (forall i :: i in instances || Destroyed(i) in log ==> Created(i) in log)
    && (Unloaded in log <==> library == {})
  }

  /** A batch is released once it is gone, if it was handed out with success; else it never is. */
  ghost predicate BatchesLogged(batches: Batches, log: seq<Event>) {
    && (forall b, i, status :: Produced(b, i, status) in log ==>
          (Released(b) in log <==> status == 0 && b !in batches))
    && (forall b, i, status :: Produced(b, i, status) in log && b in batches ==>
          status == 0 && batches[b].held && batches[b].instance == i)
    && (forall b :: b in batches && batches[b].held ==>
          Produced(b, batches[b].instance, 0) in log && Released(b) !in log)
  }

  /** A tensor that views memory it does not own keeps the batch it belongs to. */
  ghost predicate ViewsBacked(tensors: Tensors, batches: Batches) {
    forall t :: t in tensors && !tensors[t].view.Own? ==>
      tensors[t].owner.Some? && tensors[t].owner.value in batches && batches[tensors[t].owner.value].held
  }

  ghost predicate Consistent(m: Memory, c: Context, loose: Loose) {
    && ViewsBacked(m.tensors, m.batches)
    && BatchesOwned(m.tensors, m.batches, c, if loose.BatchOwner? then Some((loose.batch, loose.owner)) else None)
    && InstancesOwned(m.batches, m.instances, c,
                      if loose.InstanceOwner? then Some((loose.instance, loose.owner)) else None)
    && LibraryOwned(m.instances, m.library, c, if loose.LibraryOwner? then Some(loose.owner) else None)
    && Numbered(m.tensors, m.batches, m.log, m.next)
    && Safe(m.log) && InstancesLogged(m.instances, m.library, m.log) && BatchesLogged(m.batches, m.log)
  }

  // ---- letting go keeps all of it ----

  lemma LogMembers(log: seq<Event>, e: Event)
    ensures forall x :: x in log + [e] <==> x in log || x == e
  {
  }

  lemma UnloadAllowed(instances: Instances, library: set<Owner>, c: Context, o: Owner, log: seq<Event>)
    requires LibraryOwned(instances, library, c, Some(o)) && library == {o} && !HoldsLibrary(instances, c, o)
    requires InstancesLogged(instances, library, log)
    ensures Allowed(log, Unloaded) && InstancesLogged(instances, {}, log + [Unloaded])
  {
    assert forall i :: i in instances ==> OfInstance(i) == o;
    assert forall i :: i !in instances;
  }

  lemma LibraryKept(instances: Instances, library: set<Owner>, left: set<Owner>, log: seq<Event>)
    requires InstancesLogged(instances, library, log) && (library == {} <==> left == {})
    ensures InstancesLogged(instances, left, log)
  {
  }

  /** An event about instances or the library says nothing about batches. */
  lemma BatchesUntouched(m: Memory, e: Event)
    requires !e.Produced? && !e.Released? && !e.Created?
    requires Numbered(m.tensors, m.batches, m.log, m.next) && BatchesLogged(m.batches, m.log)
    ensures Numbered(m.tensors, m.batches, m.log + [e], m.next) && BatchesLogged(m.batches, m.log + [e])
  {
    LogMembers(m.log, e);
  }

  lemma DropLibraryKeeps(m: Memory, c: Context, o: Owner)
    requires Consistent(m, c, LibraryOwner(o)) && o in m.library && !HoldsLibrary(m.instances, c, o)
    ensures Consistent(DropLibrary(m, o), c, Nothing)
  {
    hide BatchesOwned;
    hide InstancesOwned;
    hide Numbered;
    hide Safe;
    hide Allowed;
    hide InstancesLogged;
    hide BatchesLogged;
    hide ViewsBacked;
    var left := m.library - {o};
    assert LibraryOwned(m.instances, left, c, None);
    if left == {} {
      assert m.library == {o};
      UnloadAllowed(m.instances, m.library, c, o, m.log);
      SafeAppend(m.log, Unloaded);
      BatchesUntouched(m, Unloaded);
    } else {
      LibraryKept(m.instances, m.library, left, m.log);
    }
  }

  lemma InstanceGone(batches: Batches, instances: Instances, library: set<Owner>, c: Context, i: nat, o: Owner)
    requires i in instances && instances[i] == {o} && !HoldsInstance(batches, c, i, o)
    requires InstancesOwned(batches, instances, c, Some((i, o))) && LibraryOwned(instances, library, c, None)
    ensures InstancesOwned(batches, instances - {i}, c, None)
    ensures LibraryOwned(instances - {i}, library, c, Some(OfInstance(i)))
    ensures OfInstance(i) in library && !HoldsLibrary(instances - {i}, c, OfInstance(i))
  {
    forall b | b in batches ensures batches[b].instance != i {
      assert OfBatch(b) in instances[batches[b].instance];
    }
  }

  lemma DestroyLogged(instances: Instances, library: set<Owner>, i: nat, log: seq<Event>)
    requires InstancesLogged(instances, library, log) && i in instances && library != {}
    ensures Allowed(log, Destroyed(i)) && InstancesLogged(instances - {i}, library, log + [Destroyed(i)])
  {
  }

  lemma InstanceKept(batches: Batches, instances: Instances, library: set<Owner>, c: Context, i: nat, o: Owner,
                     log: seq<Event>)
    requires i in instances && o in instances[i] && instances[i] != {o} && !HoldsInstance(batches, c, i, o)
    requires InstancesOwned(batches, instances, c, Some((i, o))) && LibraryOwned(instances, library, c, None)
    requires InstancesLogged(instances, library, log)
    ensures var after := instances[i := instances[i] - {o}];
              && InstancesOwned(batches, after, c, None) && LibraryOwned(after, library, c, None)
              && InstancesLogged(after, library, log)
  {
    var left := instances[i] - {o};
    assert instances[i] == left + {o};
  }

  lemma DropInstanceKeeps(m: Memory, c: Context, i: nat, o: Owner)
    requires i in m.instances && o in m.instances[i]
    requires Consistent(m, c, InstanceOwner(i, o)) && !HoldsInstance(m.batches, c, i, o)
    ensures Consistent(DropInstance(m, i, o), c, Nothing)
  {
    hide BatchesOwned;
    hide InstancesOwned;
    hide LibraryOwned;
    hide HoldsInstance;
    hide HoldsLibrary;
    hide Numbered;
    hide Safe;
    hide Allowed;
    hide InstancesLogged;
    hide BatchesLogged;
    hide ViewsBacked;
    hide DropLibrary;
    var left := m.instances[i] - {o};
    if left == {} {
      assert m.instances[i] == {o};
      InstanceGone(m.batches, m.instances, m.library, c, i, o);
      DestroyLogged(m.instances, m.library, i, m.log);
      SafeAppend(m.log, Destroyed(i));
      BatchesUntouched(m, Destroyed(i));
      DropLibraryKeeps(Log(m.(instances := m.instances - {i}), Destroyed(i)), c, OfInstance(i));
    } else {
      InstanceKept(m.batches, m.instances, m.library, c, i, o, m.log);
    }
  }

  lemma BatchGone(tensors: Tensors, batches: Batches, c: Context, b: nat, o: Owner)
    requires b in batches && batches[b].owners == {o} && !HoldsBatch(tensors, c, b, o)
    requires BatchesOwned(tensors, batches, c, Some((b, o)))
    ensures BatchesOwned(tensors, batches - {b}, c, None)
  {
    forall t | t in tensors && tensors[t].owner.Some? ensures tensors[t].owner != Some(b) {
      assert OfTensor(t) in batches[tensors[t].owner.value].owners;
    }
    var after := batches - {b};
    assert forall d :: d in after ==> d in batches && d != b && after[d] == batches[d];
  }

  lemma OwnerLoose(batches: Batches, instances: Instances, c: Context, b: nat)
    requires b in batches && InstancesOwned(batches, instances, c, None)
    ensures batches[b].instance in instances && OfBatch(b) in instances[batches[b].instance]
    ensures InstancesOwned(batches - {b}, instances, c, Some((batches[b].instance, OfBatch(b))))
    ensures !HoldsInstance(batches - {b}, c, batches[b].instance, OfBatch(b))
  {
    var after := batches - {b};
    forall i, o | i in instances && o in instances[i]
      ensures HoldsInstance(after, c, i, o) || (i == batches[b].instance && o == OfBatch(b))
    {
      assert HoldsInstance(batches, c, i, o);
    }
  }

  lemma BatchKept(tensors: Tensors, batches: Batches, c: Context, b: nat, o: Owner)
    requires b in batches && o in batches[b].owners && batches[b].owners != {o} && !HoldsBatch(tensors, c, b, o)
    requires BatchesOwned(tensors, batches, c, Some((b, o)))
    ensures BatchesOwned(tensors, batches[b := batches[b].(owners := batches[b].owners - {o})], c, None)
  {
    var left := batches[b].owners - {o};
    assert batches[b].owners == left + {o};
    var after := batches[b := batches[b].(owners := left)];
    forall d, p | d in after && p in after[d].owners ensures HoldsBatch(tensors, c, d, p) {
      assert p in batches[d].owners;
    }
    forall t | t in tensors && tensors[t].owner.Some?
      ensures tensors[t].owner.value in after && OfTensor(t) in after[tensors[t].owner.value].owners
    {
      assert OfTensor(t) in batches[tensors[t].owner.value].owners;
      assert HoldsBatch(tensors, c, tensors[t].owner.value, OfTensor(t));
    }
  }

  /** Which owners a batch has is nothing to its instance or to the log. */
  lemma OwnersAside(batches: Batches, instances: Instances, c: Context, b: nat, owners: set<Owner>, log: seq<Event>)
    requires b in batches && InstancesOwned(batches, instances, c, None) && BatchesLogged(batches, log)
    ensures var after := batches[b := batches[b].(owners := owners)];
              InstancesOwned(after, instances, c, None) && BatchesLogged(after, log)
  {
    var after := batches[b := batches[b].(owners := owners)];
    forall i, o | i in instances && o in instances[i] ensures HoldsInstance(after, c, i, o) {
      assert HoldsInstance(batches, c, i, o);
    }
  }

  lemma ReleaseAllowed(m: Memory, b: nat)
    requires b in m.batches && m.batches[b].held && m.library != {} && m.batches[b].instance in m.instances
    requires InstancesLogged(m.instances, m.library, m.log) && BatchesLogged(m.batches, m.log)
    ensures Allowed(m.log, Released(b))
  {
    assert Live(m.log, b);
  }

  lemma ReleaseLogged(m: Memory, b: nat)
    requires b in m.batches && m.batches[b].held
    requires Numbered(m.tensors, m.batches, m.log, m.next) && BatchesLogged(m.batches, m.log)
    ensures BatchesLogged(m.batches - {b}, m.log + [Released(b)])
    ensures Numbered(m.tensors, m.batches - {b}, m.log + [Released(b)], m.next)
  {
    LogMembers(m.log, Released(b));
  }

  /** An event about a batch says nothing about instances or the library. */
  lemma InstancesUntouched(instances: Instances, library: set<Owner>, log: seq<Event>, e: Event)
    requires InstancesLogged(instances, library, log) && (e.Released? || e.Read? || e.Produced? || e.Called?)
    ensures InstancesLogged(instances, library, log + [e])
  {
    LogMembers(log, e);
  }

  lemma NothingToRelease(m: Memory, b: nat)
    requires b in m.batches && !m.batches[b].held
    requires Numbered(m.tensors, m.batches, m.log, m.next) && BatchesLogged(m.batches, m.log)
    ensures Numbered(m.tensors, m.batches - {b}, m.log, m.next) && BatchesLogged(m.batches - {b}, m.log)
  {
  }

  lemma LibraryThere(m: Memory, c: Context, i: nat)
    requires LibraryOwned(m.instances, m.library, c, None) && i in m.instances
    ensures m.library != {}
  {
  }

  lemma ViewsStay(tensors: Tensors, batches: Batches, after: Batches, c: Context)
    requires ViewsBacked(tensors, batches) && BatchesOwned(tensors, after, c, None)
    requires forall b :: b in after ==> b in batches && after[b].held == batches[b].held
    ensures ViewsBacked(tensors, after)
  {
  }

  lemma OwnersNumbered(m: Memory, b: nat, owners: set<Owner>)
    requires b in m.batches && Numbered(m.tensors, m.batches, m.log, m.next)
    ensures Numbered(m.tensors, m.batches[b := m.batches[b].(owners := owners)], m.log, m.next)
  {
  }

  lemma DropBatchKeeps(m: Memory, c: Context, b: nat, o: Owner)
    requires b in m.batches && o in m.batches[b].owners
    requires Consistent(m, c, BatchOwner(b, o)) && !HoldsBatch(m.tensors, c, b, o)
    ensures m.batches[b].instance in m.instances
    ensures Consistent(DropBatch(m, b, o), c, Nothing)
  {
    hide BatchesOwned;
    hide InstancesOwned;
    hide LibraryOwned;
    hide HoldsBatch;
    hide HoldsInstance;
    hide Numbered;
    hide Safe;
    hide Allowed;
    hide InstancesLogged;
    hide BatchesLogged;
    hide ViewsBacked;
    hide DropInstance;
    var batch := m.batches[b];
    OwnerLoose(m.batches, m.instances, c, b);
    if batch.owners - {o} == {} {
      assert batch.owners == {o};
      BatchGone(m.tensors, m.batches, c, b, o);
      ViewsStay(m.tensors, m.batches, m.batches - {b}, c);
      var gone := m.(batches := m.batches - {b});
      if batch.held {
        LibraryThere(m, c, batch.instance);
        ReleaseAllowed(m, b);
        ReleaseLogged(m, b);
        InstancesUntouched(m.instances, m.library, m.log, Released(b));
        SafeAppend(m.log, Released(b));
        DropInstanceKeeps(Log(gone, Released(b)), c, batch.instance, OfBatch(b));
      } else {
        NothingToRelease(m, b);
        DropInstanceKeeps(gone, c, batch.instance, OfBatch(b));
      }
    } else {
      BatchKept(m.tensors, m.batches, c, b, o);
      ViewsStay(m.tensors, m.batches, m.batches[b := batch.(owners := batch.owners - {o})], c);
      OwnersAside(m.batches, m.instances, c, b, batch.owners - {o}, m.log);
      OwnersNumbered(m, b, batch.owners - {o});
    }
  }

  // ---- tensors ----

  /** A new tensor, which keeps the batch it comes from. */
  function AddTensor(m: Memory, view: View, owner: Option<nat>): Memory
    requires owner.Some? ==> owner.value in m.batches
  {
    var t := m.next;
    var added := m.(tensors := m.tensors[t := Tensor(view, owner)], next := t + 1);
    if owner.None? then added
    else
      var batch := m.batches[owner.value];
      added.(batches := m.batches[owner.value := batch.(owners := batch.owners + {OfTensor(t)})])
  }

  /** Gives up whatever batch the tensor keeps. */
  function LetGo(m: Memory, t: nat, tensors: Tensors): Memory
    requires t in m.tensors
    requires m.tensors[t].owner.Some? ==>
               m.tensors[t].owner.value in m.batches && m.batches[m.tensors[t].owner.value].instance in m.instances
  {
    var after := m.(tensors := tensors);
    if m.tensors[t].owner.None? then after else DropBatch(after, m.tensors[t].owner.value, OfTensor(t))
  }

  lemma TensorAdded(tensors: Tensors, batches: Batches, c: Context, t: nat, view: View, b: nat)
    requires BatchesOwned(tensors, batches, c, None) && t !in tensors && b in batches
    ensures BatchesOwned(tensors[t := Tensor(view, Some(b))],
                         batches[b := batches[b].(owners := batches[b].owners + {OfTensor(t)})], c, None)
  {
    var after := tensors[t := Tensor(view, Some(b))];
    var owned := batches[b := batches[b].(owners := batches[b].owners + {OfTensor(t)})];
    forall d, o | d in owned && o in owned[d].owners ensures HoldsBatch(after, c, d, o) {
      if !(d == b && o == OfTensor(t)) {
        assert o in batches[d].owners && HoldsBatch(tensors, c, d, o);
      }
    }
  }

  lemma PlainTensorAdded(tensors: Tensors, batches: Batches, c: Context, t: nat, view: View)
    requires BatchesOwned(tensors, batches, c, None) && t !in tensors
    ensures BatchesOwned(tensors[t := Tensor(view, None)], batches, c, None)
  {
    var after := tensors[t := Tensor(view, None)];
    forall d, o | d in batches && o in batches[d].owners ensures HoldsBatch(after, c, d, o) {
      assert HoldsBatch(tensors, c, d, o);
    }
  }

  lemma TensorNumbered(m: Memory, tensor: Tensor, batches: Batches)
    requires Numbered(m.tensors, m.batches, m.log, m.next) && ViewsBacked(m.tensors, m.batches)
    requires batches.Keys == m.batches.Keys && forall b :: b in batches ==> batches[b].held == m.batches[b].held
    requires tensor.view.Own? ||
             (tensor.owner.Some? && tensor.owner.value in batches && batches[tensor.owner.value].held)
    ensures m.next !in m.tensors
    ensures Numbered(m.tensors[m.next := tensor], batches, m.log, m.next + 1)
    ensures ViewsBacked(m.tensors[m.next := tensor], batches)
  {
  }

  lemma AddTensorKeeps(m: Memory, c: Context, view: View, owner: Option<nat>)
    requires Consistent(m, c, Nothing)
    requires owner.Some? ==> owner.value in m.batches
    requires view.Own? || (owner.Some? && m.batches[owner.value].held)
    ensures Consistent(AddTensor(m, view, owner), c, Nothing)
  {
    hide BatchesOwned;
    hide InstancesOwned;
    hide LibraryOwned;
    hide Numbered;
    hide InstancesLogged;
    hide BatchesLogged;
    hide ViewsBacked;
    hide Safe;
    TensorNumbered(m, Tensor(view, owner), AddTensor(m, view, owner).batches);
    if owner.Some? {
      var b := owner.value;
      TensorAdded(m.tensors, m.batches, c, m.next, view, b);
      OwnersAside(m.batches, m.instances, c, b, m.batches[b].owners + {OfTensor(m.next)}, m.log);
    } else {
      PlainTensorAdded(m.tensors, m.batches, c, m.next, view);
    }
  }

  lemma TensorLetsGo(tensors: Tensors, after: Tensors, batches: Batches, c: Context, t: nat, b: nat)
    requires BatchesOwned(tensors, batches, c, None)
    requires t in tensors && tensors[t].owner == Some(b) && (t in after ==> after[t].owner == None)
    requires forall u :: u != t ==> (u in after <==> u in tensors) && (u in after ==> after[u] == tensors[u])
    ensures b in batches && OfTensor(t) in batches[b].owners
    ensures BatchesOwned(after, batches, c, Some((b, OfTensor(t)))) && !HoldsBatch(after, c, b, OfTensor(t))
  {
    forall d, o | d in batches && o in batches[d].owners
      ensures HoldsBatch(after, c, d, o) || (d == b && o == OfTensor(t))
    {
      assert HoldsBatch(tensors, c, d, o);
    }
  }

  /** A tensor that goes, or is rewritten as one that owns its bytes. */
  ghost predicate Replaces(m: Memory, t: nat, after: Tensors) {
    && t in m.tensors && (t in after ==> after[t].owner == None && after[t].view.Own?)
    && (forall u :: u != t ==> (u in after <==> u in m.tensors) && (u in after ==> after[u] == m.tensors[u]))
  }

  lemma KeptOwners(tensors: Tensors, after: Tensors, batches: Batches, c: Context, t: nat)
    requires BatchesOwned(tensors, batches, c, None)
    requires t in tensors && tensors[t].owner == None && (t in after ==> after[t].owner == None)
    requires forall u :: u != t ==> (u in after <==> u in tensors) && (u in after ==> after[u] == tensors[u])
    ensures BatchesOwned(after, batches, c, None)
  {
    forall d, o | d in batches && o in batches[d].owners ensures HoldsBatch(after, c, d, o) {
      assert HoldsBatch(tensors, c, d, o);
    }
  }

  lemma OwnerThere(m: Memory, c: Context, t: nat)
    requires Consistent(m, c, Nothing) && t in m.tensors && m.tensors[t].owner.Some?
    ensures m.tensors[t].owner.value in m.batches && m.batches[m.tensors[t].owner.value].instance in m.instances
  {
    hide Safe;
    hide LibraryOwned;
    hide Numbered;
    hide InstancesLogged;
    hide BatchesLogged;
    hide ViewsBacked;
  }

  lemma LetGoKeeps(m: Memory, c: Context, t: nat, after: Tensors)
    requires Consistent(m, c, Nothing) && Replaces(m, t, after)
    ensures m.tensors[t].owner.Some? ==>
              m.tensors[t].owner.value in m.batches && m.batches[m.tensors[t].owner.value].instance in m.instances
    ensures Consistent(LetGo(m, t, after), c, Nothing) && LetGo(m, t, after).tensors == after
  {
    hide BatchesOwned;
    hide InstancesOwned;
    hide LibraryOwned;
    hide HoldsBatch;
    hide Safe;
    hide InstancesLogged;
    hide BatchesLogged;
    hide DropBatch;
    assert Numbered(after, m.batches, m.log, m.next) && ViewsBacked(after, m.batches);
    if m.tensors[t].owner.Some? {
      var b := m.tensors[t].owner.value;
      OwnerThere(m, c, t);
      TensorLetsGo(m.tensors, after, m.batches, c, t, b);
      DropBatchKeeps(m.(tensors := after), c, b, OfTensor(t));
      DropsNoTensor(m.(tensors := after), b, OfTensor(t));
    } else {
      KeptOwners(m.tensors, after, m.batches, c, t);
    }
  }

  lemma DropsNoTensor(m: Memory, b: nat, o: Owner)
    requires b in m.batches && m.batches[b].instance in m.instances
    ensures DropBatch(m, b, o).tensors == m.tensors
  {
  }

  lemma OwnerHeld(m: Memory, c: Context, t: nat)
    requires Consistent(m, c, Nothing) && t in m.tensors
    ensures m.tensors[t].owner.Some? ==> m.tensors[t].owner.value in m.batches
    ensures !m.tensors[t].view.Own? ==> m.tensors[t].owner.Some? && m.batches[m.tensors[t].owner.value].held
  {
  }

  /** New bytes in a tensor that owns its bytes. */
  function Rewrite(m: Memory, t: nat, bytes: seq<int>): Memory
    requires t in m.tensors
  {
    m.(tensors := m.tensors[t := m.tensors[t].(view := Own(bytes))])
  }

  lemma RewriteKeeps(m: Memory, c: Context, t: nat, bytes: seq<int>)
    requires Consistent(m, c, Nothing) && t in m.tensors
    ensures Consistent(Rewrite(m, t, bytes), c, Nothing)
  {
    hide InstancesOwned;
    hide LibraryOwned;
    hide Safe;
    hide InstancesLogged;
    hide BatchesLogged;
    var after := Rewrite(m, t, bytes).tensors;
    forall b, o | b in m.batches && o in m.batches[b].owners ensures HoldsBatch(after, c, b, o) {
      assert HoldsBatch(m.tensors, c, b, o);
    }
  }

  // ---- calls into the plugin ----

  lemma ReadAllowed(m: Memory, t: nat)
    requires ViewsBacked(m.tensors, m.batches) && t in m.tensors && !m.tensors[t].view.Own?
    requires m.batches[m.tensors[t].owner.value].instance in m.instances && m.library != {}
    requires InstancesLogged(m.instances, m.library, m.log) && BatchesLogged(m.batches, m.log)
    ensures m.tensors[t].owner.Some? && Allowed(m.log, Read(m.tensors[t].owner.value))
  {
    assert Live(m.log, m.tensors[t].owner.value);
  }

  lemma ReadKeeps(m: Memory, c: Context, t: nat)
    requires Consistent(m, c, Nothing) && t in m.tensors && !m.tensors[t].view.Own?
    ensures m.tensors[t].owner.Some? && Consistent(Log(m, Read(m.tensors[t].owner.value)), c, Nothing)
  {
    hide BatchesOwned;
    hide InstancesOwned;
    hide LibraryOwned;
    hide Numbered;
    hide InstancesLogged;
    hide BatchesLogged;
    hide ViewsBacked;
    hide Allowed;
    hide Safe;
    OwnerHeld(m, c, t);
    OwnerThere(m, c, t);
    var b := m.tensors[t].owner.value;
    LibraryThere(m, c, m.batches[b].instance);
    ReadAllowed(m, t);
    SafeAppend(m.log, Read(b));
    BatchesUntouched(m, Read(b));
    InstancesUntouched(m.instances, m.library, m.log, Read(b));
  }

  lemma CallAllowed(m: Memory, i: nat)
    requires i in m.instances && m.library != {} && InstancesLogged(m.instances, m.library, m.log)
    ensures Allowed(m.log, Called(i))
  {
  }

  lemma CallKeeps(m: Memory, c: Context, i: nat)
    requires Consistent(m, c, Nothing) && i in m.instances
    ensures Consistent(Log(m, Called(i)), c, Nothing)
  {
    hide BatchesOwned;
    hide InstancesOwned;
    hide LibraryOwned;
    hide Numbered;
    hide InstancesLogged;
    hide BatchesLogged;
    hide ViewsBacked;
    hide Allowed;
    hide Safe;
    LibraryThere(m, c, i);
    CallAllowed(m, i);
    SafeAppend(m.log, Called(i));
    BatchesUntouched(m, Called(i));
    InstancesUntouched(m.instances, m.library, m.log, Called(i));
  }

  // ---- what the plugin hands out ----

  /** An instance the plugin created although it reported failure. */
  function RefusedInstance(m: Memory): Memory {
    var i := m.next;
    Log(Log(Log(m.(next := i + 1), Created(i)), Called(i)), Destroyed(i))
  }

  /** An instance with the shared pointer whose deleter keeps the library. */
  function AddInstance(m: Memory): Memory {
    var i := m.next;
    Log(m.(next := i + 1, instances := m.instances[i := {Backend}], library := m.library + {OfInstance(i)}), Created(i))
  }

  /** A batch handed out with a failing status, which the host does not take over. */
  function RefusedBatch(m: Memory, i: nat, status: int): Memory {
    Log(m.(next := m.next + 1), Produced(m.next, i, status))
  }

  /** A batch that is released before anything shares it. */
  function GuardedBatch(m: Memory, i: nat): Memory {
    Log(RefusedBatch(m, i, 0), Released(m.next))
  }

  /** A batch under shared ownership of a local pointer, which keeps the instance. */
  function AddBatch(m: Memory, i: nat, held: bool): Memory
    requires i in m.instances
  {
    var b := m.next;
    var handed := if held then RefusedBatch(m, i, 0) else m.(next := b + 1);
    handed.(batches := m.batches[b := SharedBatch(i, held, {Local})],
            instances := m.instances[i := m.instances[i] + {OfBatch(b)}])
  }

  lemma FreshEvents(m: Memory, c: Context)
    requires Consistent(m, c, Nothing)
    ensures m.next !in m.tensors && m.next !in m.batches && m.next !in m.instances
    ensures Created(m.next) !in m.log && Destroyed(m.next) !in m.log
    ensures forall i, status :: Produced(m.next, i, status) !in m.log
  {
    hide BatchesOwned;
    hide InstancesOwned;
    hide LibraryOwned;
    hide Safe;
    hide BatchesLogged;
  }

  lemma RefusalLogged(instances: Instances, library: set<Owner>, log: seq<Event>, i: nat)
    requires InstancesLogged(instances, library, log) && library != {} && i !in instances && Created(i) !in log
    ensures Allowed(log, Created(i)) && Allowed(log + [Created(i)], Called(i))
    ensures Allowed(log + [Created(i)] + [Called(i)], Destroyed(i))
    ensures InstancesLogged(instances, library, log + [Created(i)] + [Called(i)] + [Destroyed(i)])
  {
    LogMembers(log, Created(i));
    LogMembers(log + [Created(i)], Called(i));
    LogMembers(log + [Created(i)] + [Called(i)], Destroyed(i));
  }

  lemma RefusedInstanceKeeps(m: Memory, c: Context)
    requires Consistent(m, c, Nothing) && m.library != {}
    ensures Consistent(RefusedInstance(m), c, Nothing)
  {
    hide BatchesOwned;
    hide InstancesOwned;
    hide LibraryOwned;
    hide Numbered;
    hide InstancesLogged;
    hide BatchesLogged;
    hide ViewsBacked;
    hide Allowed;
    hide Safe;
    var i := m.next;
    var created := Log(m.(next := i + 1), Created(i));
    FreshEvents(m, c);
    RefusalLogged(m.instances, m.library, m.log, i);
    CreationAside(m, i);
    BatchesUntouched(created, Called(i));
    BatchesUntouched(Log(created, Called(i)), Destroyed(i));
    SafeAppend(m.log, Created(i));
    SafeAppend(created.log, Called(i));
    SafeAppend(created.log + [Called(i)], Destroyed(i));
  }

  lemma InstanceAdded(batches: Batches, instances: Instances, library: set<Owner>, c: Context, i: nat)
    requires InstancesOwned(batches, instances, c, None) && LibraryOwned(instances, library, c, None)
    requires i !in instances && c.instance == None && c.alive
    ensures InstancesOwned(batches, instances[i := {Backend}], c.(instance := Some(i)), None)
    ensures LibraryOwned(instances[i := {Backend}], library + {OfInstance(i)}, c.(instance := Some(i)), None)
  {
    var after := instances[i := {Backend}];
    forall j, o | j in after && o in after[j] ensures HoldsInstance(batches, c.(instance := Some(i)), j, o) {
      if j != i {
        assert HoldsInstance(batches, c, j, o);
      }
    }
  }

  lemma CreationLogged(instances: Instances, library: set<Owner>, log: seq<Event>, i: nat)
    requires InstancesLogged(instances, library, log) && library != {} && i !in instances && Created(i) !in log
    ensures Allowed(log, Created(i))
    ensures InstancesLogged(instances[i := {Backend}], library + {OfInstance(i)}, log + [Created(i)])
  {
    LogMembers(log, Created(i));
  }

  lemma CreationAside(m: Memory, i: nat)
    requires i == m.next && Numbered(m.tensors, m.batches, m.log, m.next) && BatchesLogged(m.batches, m.log)
    ensures Numbered(m.tensors, m.batches, m.log + [Created(i)], i + 1)
    ensures BatchesLogged(m.batches, m.log + [Created(i)])
  {
    LogMembers(m.log, Created(i));
  }

  lemma AddInstanceKeeps(m: Memory, c: Context)
    requires Consistent(m, c, Nothing) && c.instance == None && c.alive
    ensures Consistent(AddInstance(m), c.(instance := Some(m.next)), Nothing)
  {
    hide BatchesOwned;
    hide InstancesOwned;
    hide LibraryOwned;
    hide Numbered;
    hide InstancesLogged;
    hide BatchesLogged;
    hide ViewsBacked;
    hide Allowed;
    hide Safe;
    var i := m.next;
    FreshEvents(m, c);
    LibraryLoaded(m, c);
    InstanceAdded(m.batches, m.instances, m.library, c, i);
    BatchesContext(m.tensors, m.batches, c, c.(instance := Some(i)));
    CreationLogged(m.instances, m.library, m.log, i);
    CreationAside(m, i);
    SafeAppend(m.log, Created(i));
  }

  /** Who owns batches depends on the local pointer only. */
  lemma BatchesContext(tensors: Tensors, batches: Batches, c: Context, d: Context)
    requires BatchesOwned(tensors, batches, c, None) && c.local == d.local
    ensures BatchesOwned(tensors, batches, d, None)
  {
    forall b, o | b in batches && o in batches[b].owners ensures HoldsBatch(tensors, d, b, o) {
      assert HoldsBatch(tensors, c, b, o);
    }
  }

  /** Who owns instances depends on the backend's pointer to its instance only. */
  lemma InstancesContext(batches: Batches, instances: Instances, c: Context, d: Context)
    requires InstancesOwned(batches, instances, c, None) && c.instance == d.instance
    ensures InstancesOwned(batches, instances, d, None)
  {
    forall i, o | i in instances && o in instances[i] ensures HoldsInstance(batches, d, i, o) {
      assert HoldsInstance(batches, c, i, o);
    }
  }

  /** Who owns the library depends on whether the backend is there. */
  lemma LibraryContext(instances: Instances, library: set<Owner>, c: Context, d: Context)
    requires LibraryOwned(instances, library, c, None) && c.alive == d.alive
    requires d.instance == c.instance || d.instance == None
    ensures LibraryOwned(instances, library, d, None)
  {
    forall o | o in library ensures HoldsLibrary(instances, d, o) {
      assert HoldsLibrary(instances, c, o);
    }
  }

  /** Only what was handed out is released. */
  lemma ReleasedWasProduced(log: seq<Event>, b: nat)
    requires Safe(log) && Released(b) in log
    ensures exists i :: Produced(b, i, 0) in log
  {
    var k :| 0 <= k < |log| && log[k] == Released(b);
    assert Allowed(log[..k], log[k]);
    var i :| Produced(b, i, 0) in log[..k];
    assert Produced(b, i, 0) in log;
  }

  /** A new batch leaves the log safe and the instances as they are. */
  lemma HandedOut(m: Memory, c: Context, i: nat, status: int)
    requires Consistent(m, c, Nothing) && i in m.instances
    ensures var log := m.log + [Produced(m.next, i, status)];
              && Safe(log) && Released(m.next) !in log && InstancesLogged(m.instances, m.library, log)
              && Numbered(m.tensors, m.batches, log, m.next + 1) && m.library != {}
  {
    hide BatchesOwned;
    hide InstancesOwned;
    hide BatchesLogged;
    hide Safe;
    hide ViewsBacked;
    FreshEvents(m, c);
    LogMembers(m.log, Produced(m.next, i, status));
    if Released(m.next) in m.log {
      ReleasedWasProduced(m.log, m.next);
    }
    assert OfInstance(i) in m.library;
    SafeAppend(m.log, Produced(m.next, i, status));
  }

  lemma RefusedBatchKeeps(m: Memory, c: Context, i: nat, status: int)
    requires Consistent(m, c, Nothing) && i in m.instances && status != 0
    ensures Consistent(RefusedBatch(m, i, status), c, Nothing)
  {
    hide BatchesOwned;
    hide InstancesOwned;
    hide LibraryOwned;
    hide InstancesLogged;
    hide Safe;
    hide ViewsBacked;
    HandedOut(m, c, i, status);
    LogMembers(m.log, Produced(m.next, i, status));
  }

  lemma GuardedBatchKeeps(m: Memory, c: Context, i: nat)
    requires Consistent(m, c, Nothing) && i in m.instances
    ensures Consistent(GuardedBatch(m, i), c, Nothing)
  {
    hide BatchesOwned;
    hide InstancesOwned;
    hide LibraryOwned;
    hide Safe;
    hide ViewsBacked;
    var b, log1 := m.next, m.log + [Produced(m.next, i, 0)];
    FreshEvents(m, c);
    HandedOut(m, c, i, 0);
    GuardReleases(m, log1, b, i);
    SafeAppend(log1, Released(b));
  }

  lemma GuardReleases(m: Memory, log1: seq<Event>, b: nat, i: nat)
    requires log1 == m.log + [Produced(b, i, 0)] && b !in m.batches && b == m.next
    requires forall j, status :: Produced(b, j, status) !in m.log
    requires InstancesLogged(m.instances, m.library, log1) && BatchesLogged(m.batches, m.log) && i in m.instances
    requires Numbered(m.tensors, m.batches, log1, b + 1) && Released(b) !in log1 && m.library != {}
    ensures Allowed(log1, Released(b)) && BatchesLogged(m.batches, log1 + [Released(b)])
    ensures InstancesLogged(m.instances, m.library, log1 + [Released(b)])
    ensures Numbered(m.tensors, m.batches, log1 + [Released(b)], b + 1)
  {
    LogMembers(m.log, Produced(b, i, 0));
    LogMembers(log1, Released(b));
    forall j, status | Produced(b, j, status) in log1 ensures j == i {
    }
    assert Produced(b, i, 0) in log1 && Live(log1, b);
  }

  lemma BatchAdded(tensors: Tensors, batches: Batches, c: Context, b: nat, batch: SharedBatch)
    requires BatchesOwned(tensors, batches, c, None) && b !in batches && c.local == None && batch.owners == {Local}
    ensures BatchesOwned(tensors, batches[b := batch], c.(local := Some(b)), None)
  {
    var after := batches[b := batch];
    forall a, o | a in after && o in after[a].owners ensures HoldsBatch(tensors, c.(local := Some(b)), a, o) {
      if a != b {
        assert HoldsBatch(tensors, c, a, o);
      }
    }
  }

  lemma BatchKeepsInstance(batches: Batches, instances: Instances, c: Context, b: nat, batch: SharedBatch)
    requires InstancesOwned(batches, instances, c, None) && b !in batches && batch.instance in instances
    ensures var i := batch.instance;
              InstancesOwned(batches[b := batch], instances[i := instances[i] + {OfBatch(b)}],
                             c.(local := Some(b)), None)
  {
    var i, after, d := batch.instance, batches[b := batch], c.(local := Some(b));
    var shared := instances[i := instances[i] + {OfBatch(b)}];
    forall j, o | j in shared && o in shared[j] ensures HoldsInstance(after, d, j, o) {
      if !(j == i && o == OfBatch(b)) {
        assert o in instances[j] && HoldsInstance(batches, c, j, o);
      }
    }
    forall a | a in after ensures after[a].instance in shared && OfBatch(a) in shared[after[a].instance] {
      assert a != b ==> OfBatch(a) in instances[batches[a].instance];
    }
  }

  lemma BatchEntered(m: Memory, b: nat, i: nat, held: bool, log: seq<Event>)
    requires b !in m.batches && i in m.instances && BatchesLogged(m.batches, m.log)
    requires log == if held then m.log + [Produced(b, i, 0)] else m.log
    requires forall j, status :: Produced(b, j, status) !in m.log
    requires Released(b) !in log
    ensures BatchesLogged(m.batches[b := SharedBatch(i, held, {Local})], log)
  {
    LogMembers(m.log, Produced(b, i, 0));
  }

  lemma InstanceOwnersAside(m: Memory, c: Context, i: nat, owners: set<Owner>, log: seq<Event>)
    requires i in m.instances && LibraryOwned(m.instances, m.library, c, None)
    requires InstancesLogged(m.instances, m.library, log)
    ensures LibraryOwned(m.instances[i := owners], m.library, c, None)
    ensures InstancesLogged(m.instances[i := owners], m.library, log)
  {
    var after := m.instances[i := owners];
    forall o | o in m.library ensures HoldsLibrary(after, c, o) {
      assert HoldsLibrary(m.instances, c, o);
    }
  }

  lemma BatchNumbered(m: Memory, b: nat, batch: SharedBatch, log: seq<Event>)
    requires b == m.next && ViewsBacked(m.tensors, m.batches) && b !in m.batches
    requires Numbered(m.tensors, m.batches, log, b + 1)
    ensures Numbered(m.tensors, m.batches[b := batch], log, b + 1) && ViewsBacked(m.tensors, m.batches[b := batch])
  {
  }

  lemma NextNumber(m: Memory)
    requires Numbered(m.tensors, m.batches, m.log, m.next)
    ensures Numbered(m.tensors, m.batches, m.log, m.next + 1)
  {
  }

  lemma AddBatchKeeps(m: Memory, c: Context, i: nat, held: bool)
    requires Consistent(m, c, Nothing) && i in m.instances && c.local == None
    ensures Consistent(AddBatch(m, i, held), c.(local := Some(m.next)), Nothing)
  {
    hide BatchesOwned;
    hide InstancesOwned;
    hide LibraryOwned;
    hide Numbered;
    hide InstancesLogged;
    hide BatchesLogged;
    hide ViewsBacked;
    hide Safe;
    var b, log := m.next, if held then m.log + [Produced(m.next, i, 0)] else m.log;
    FreshEvents(m, c);
    HandedOut(m, c, i, 0);
    LogMembers(m.log, Produced(b, i, 0));
    NextNumber(m);
    BatchAdded(m.tensors, m.batches, c, b, SharedBatch(i, held, {Local}));
    BatchKeepsInstance(m.batches, m.instances, c, b, SharedBatch(i, held, {Local}));
    BatchEntered(m, b, i, held, log);
    BatchNumbered(m, b, SharedBatch(i, held, {Local}), log);
    InstanceOwnersAside(m, c, i, m.instances[i] + {OfBatch(b)}, log);
    LibraryContext(m.instances[i := m.instances[i] + {OfBatch(b)}], m.library, c, c.(local := Some(b)));
  }

  // ---- the backend object ----

  lemma LibraryLoaded(m: Memory, c: Context)
    requires Consistent(m, c, Nothing) && c.alive
    ensures m.library != {}
  {
  }

  lemma InstanceThere(m: Memory, c: Context)
    requires Consistent(m, c, Nothing) && c.instance.Some?
    ensures c.instance.value in m.instances && Backend in m.instances[c.instance.value]
  {
  }

  lemma InstanceLoose(batches: Batches, instances: Instances, c: Context)
    requires InstancesOwned(batches, instances, c, None) && c.instance.Some?
    ensures InstancesOwned(batches, instances, c.(instance := None), Some((c.instance.value, Backend)))
  {
    var d := c.(instance := None);
    forall i, o | i in instances && o in instances[i]
      ensures HoldsInstance(batches, d, i, o) || (i == c.instance.value && o == Backend)
    {
      assert HoldsInstance(batches, c, i, o);
    }
  }

  /** The backend resets its pointer to the instance. */
  lemma BackendLetsGo(m: Memory, c: Context)
    requires Consistent(m, c, Nothing) && c.instance.Some?
    ensures c.instance.value in m.instances
    ensures Consistent(DropInstance(m, c.instance.value, Backend), c.(instance := None), Nothing)
    ensures DropInstance(m, c.instance.value, Backend).tensors == m.tensors
  {
    hide BatchesOwned;
    hide InstancesOwned;
    hide LibraryOwned;
    hide Numbered;
    hide InstancesLogged;
    hide BatchesLogged;
    hide ViewsBacked;
    hide Safe;
    var d := c.(instance := None);
    InstanceThere(m, c);
    InstanceLoose(m.batches, m.instances, c);
    BatchesContext(m.tensors, m.batches, c, d);
    LibraryContext(m.instances, m.library, c, d);
    DropInstanceKeeps(m, d, c.instance.value, Backend);
  }

  lemma LibraryLoose(instances: Instances, library: set<Owner>, c: Context)
    requires LibraryOwned(instances, library, c, None) && c.instance == None
    ensures LibraryOwned(instances, library, c.(alive := false), Some(Backend))
  {
    forall o | o in library ensures HoldsLibrary(instances, c.(alive := false), o) || o == Backend {
      assert HoldsLibrary(instances, c, o);
    }
  }

  /** The backend object goes, and with it its pointer to the library. */
  lemma BackendGone(m: Memory, c: Context)
    requires Consistent(m, c, Nothing) && c.instance == None && c.alive
    ensures Consistent(DropLibrary(m, Backend), c.(alive := false), Nothing)
    ensures DropLibrary(m, Backend).tensors == m.tensors
  {
    hide BatchesOwned;
    hide InstancesOwned;
    hide LibraryOwned;
    hide Numbered;
    hide InstancesLogged;
    hide BatchesLogged;
    hide ViewsBacked;
    hide Safe;
    var d := c.(alive := false);
    LibraryLoadedBy(m, c);
    LibraryLoose(m.instances, m.library, c);
    BatchesContext(m.tensors, m.batches, c, d);
    InstancesContext(m.batches, m.instances, c, d);
    DropLibraryKeeps(m, d, Backend);
  }

  lemma LibraryLoadedBy(m: Memory, c: Context)
    requires Consistent(m, c, Nothing) && c.alive
    ensures Backend in m.library
  {
  }

  /** The local pointer to a batch goes out of scope. */
  lemma LocalGone(m: Memory, c: Context)
    requires Consistent(m, c, Nothing) && c.local.Some?
    ensures c.local.value in m.batches && m.batches[c.local.value].instance in m.instances
    ensures Consistent(DropBatch(m, c.local.value, Local), c.(local := None), Nothing)
    ensures DropBatch(m, c.local.value, Local).tensors == m.tensors
  {
    hide Safe;
    hide Numbered;
    hide InstancesLogged;
    hide BatchesLogged;
    hide ViewsBacked;
    var b, d := c.local.value, c.(local := None);
    LibraryContext(m.instances, m.library, c, d);
    LocalOwner(m.tensors, m.batches, c);
    InstancesContext(m.batches, m.instances, c, d);
    hide BatchesOwned;
    hide InstancesOwned;
    hide LibraryOwned;
    DropBatchKeeps(m, d, b, Local);
    DropsNoTensor(m, b, Local);
  }

  lemma LocalOwner(tensors: Tensors, batches: Batches, c: Context)
    requires BatchesOwned(tensors, batches, c, None) && c.local.Some?
    ensures c.local.value in batches && Local in batches[c.local.value].owners
    ensures BatchesOwned(tensors, batches, c.(local := None), Some((c.local.value, Local)))
  {
    forall b, o | b in batches && o in batches[b].owners
      ensures HoldsBatch(tensors, c.(local := None), b, o) || (b == c.local.value && o == Local)
    {
      assert HoldsBatch(tensors, c, b, o);
    }
  }

  /** Dropping an owner of a batch changes no other property of the batches that stay. */
  lemma DropBatchSame(m: Memory, b: nat, o: Owner)
    requires b in m.batches && m.batches[b].instance in m.instances
    ensures forall d :: d in DropBatch(m, b, o).batches ==>
                          d in m.batches && DropBatch(m, b, o).batches[d].held == m.batches[d].held
  {
  }

  /** The batch a local pointer keeps stays what it is while tensors let go. */
  lemma LocalStays(m: Memory, c: Context, t: nat, after: Tensors)
    requires Consistent(m, c, Nothing) && c.local.Some? && Replaces(m, t, after)
    ensures m.tensors[t].owner.Some? ==>
              m.tensors[t].owner.value in m.batches && m.batches[m.tensors[t].owner.value].instance in m.instances
    ensures c.local.value in m.batches && c.local.value in LetGo(m, t, after).batches
    ensures LetGo(m, t, after).batches[c.local.value].held == m.batches[c.local.value].held
  {
    hide DropBatch;
    LetGoKeeps(m, c, t, after);
    LocalThere(m, c);
    LocalThere(LetGo(m, t, after), c);
    if m.tensors[t].owner.Some? {
      DropBatchSame(m.(tensors := after), m.tensors[t].owner.value, OfTensor(t));
    }
  }

  lemma LocalThere(m: Memory, c: Context)
    requires Consistent(m, c, Nothing) && c.local.Some?
    ensures c.local.value in m.batches
  {
  }

  lemma LogIsSafe(m: Memory, c: Context)
    requires Consistent(m, c, Nothing)
    ensures Safe(m.log)
  {
  }

  // ---- when everything is let go ----

  lemma NoBatchLeft(batches: Batches, c: Context)
    requires BatchesOwned(map[], batches, c, None) && c.local == None
    ensures batches == map[]
  {
    assert forall b, o :: b in batches ==> o !in batches[b].owners;
  }

  lemma NoInstanceLeft(instances: Instances, c: Context)
    requires InstancesOwned(map[], instances, c, None) && c.instance == None
    ensures instances == map[]
  {
    assert forall i, o :: i in instances ==> o !in instances[i];
  }

  lemma LibraryNotLeft(library: set<Owner>, c: Context)
    requires LibraryOwned(map[], library, c, None) && !c.alive
    ensures library == {}
  {
    assert forall o :: o in library ==> HoldsLibrary(map[], c, o);
  }

  /** Nothing is left when no tensor and no backend is: all that was handed out with success has been given back. */
  lemma NothingLeft(m: Memory, c: Context)
    requires Consistent(m, c, Nothing) && m.tensors == map[] && !c.alive && c.local == None
    ensures m.batches == map[] && m.instances == map[] && m.library == {}
    ensures forall b, i, status :: Produced(b, i, status) in m.log ==> (Released(b) in m.log <==> status == 0)
    ensures forall i :: Created(i) in m.log ==> Destroyed(i) in m.log
    ensures Unloaded in m.log
  {
    hide Safe;
    hide Numbered;
    hide ViewsBacked;
    hide BatchesOwned;
    hide InstancesOwned;
    NoBatchLeft(m.batches, c);
    NoInstanceLeft(m.instances, c);
    LibraryNotLeft(m.library, c);
  }

  // ---- exactly what is given back, and when ----

  /** Between calls a batch is released if and only if it was handed out with success and no tensor keeps it. */
  lemma ReleasedExactly(m: Memory, c: Context, b: nat, i: nat, status: int)
    requires Consistent(m, c, Nothing) && c.local == None && Produced(b, i, status) in m.log
    ensures Released(b) in m.log <==> status == 0 && forall t :: t in m.tensors ==> m.tensors[t].owner != Some(b)
  {
    hide InstancesOwned;
    hide LibraryOwned;
    hide Numbered;
    hide Safe;
    if b in m.batches {
      var o :| o in m.batches[b].owners;
      assert HoldsBatch(m.tensors, c, b, o);
    }
  }

  /** An instance is destroyed if and only if the backend lets go of it and no tensor keeps a batch of it. */
  lemma DestroyedExactly(m: Memory, c: Context, i: nat)
    requires Consistent(m, c, Nothing) && c.local == None && Created(i) in m.log
    ensures Destroyed(i) in m.log <==>
              && c.instance != Some(i)
              && forall t :: t in m.tensors && m.tensors[t].owner.Some? ==>
                   m.tensors[t].owner.value in m.batches && m.batches[m.tensors[t].owner.value].instance != i
  {
    hide LibraryOwned;
    hide Numbered;
    hide Safe;
    if i in m.instances {
      var o :| o in m.instances[i];
      assert HoldsInstance(m.batches, c, i, o);
      if o.OfBatch? {
        var p :| p in m.batches[o.batch].owners;
        assert HoldsBatch(m.tensors, c, o.batch, p);
      }
    }
  }

  /** The library is unloaded if and only if the backend is dropped and no tensor keeps a batch. */
  lemma UnloadedExactly(m: Memory, c: Context)
    requires Consistent(m, c, Nothing) && c.local == None
    ensures Unloaded in m.log <==> !c.alive && forall t :: t in m.tensors ==> m.tensors[t].owner == None
  {
    hide Numbered;
    hide Safe;
    hide BatchesLogged;
    if m.library != {} {
      var o :| o in m.library;
      assert HoldsLibrary(m.instances, c, o);
      if o.OfInstance? {
        var p :| p in m.instances[o.instance];
        assert HoldsInstance(m.batches, c, o.instance, p);
        if p.OfBatch? {
          var q :| q in m.batches[p.batch].owners;
          assert HoldsBatch(m.tensors, c, p.batch, q);
        }
      }
    }
  }

  // ---- what the log gains ----

  predicate GivesBack(e: Event) {
    e.Released? || e.Destroyed? || e.Unloaded?
  }

  /** What the plugin was asked for and handed out, in order: the log without what it was given back. */
  function Asked(log: seq<Event>): seq<Event> {
    if |log| == 0 then []
    else
      var e := log[|log| - 1];
      Asked(log[..|log| - 1]) + (if GivesBack(e) then [] else [e])
  }

  lemma {:induction false} AskedMembers(log: seq<Event>, e: Event)
    requires !GivesBack(e)
    ensures e in log <==> e in Asked(log)
  {
    if |log| > 0 {
      AskedMembers(log[..|log| - 1], e);
      assert log == log[..|log| - 1] + [log[|log| - 1]];
    }
  }

  /** The log only grows, and besides things given back it grows by `asked`. */
  ghost predicate Grows(before: seq<Event>, after: seq<Event>, asked: seq<Event>) {
    before <= after && Asked(after) == Asked(before) + asked
  }

  lemma GrowsNot(log: seq<Event>)
    ensures Grows(log, log, [])
  {
  }

  lemma GrowsBy(log: seq<Event>, e: Event)
    ensures Grows(log, log + [e], if GivesBack(e) then [] else [e])
  {
    assert (log + [e])[..|log|] == log;
  }

  lemma GrowsTwice(a: seq<Event>, b: seq<Event>, c: seq<Event>, x: seq<Event>, y: seq<Event>)
    requires Grows(a, b, x) && Grows(b, c, y)
    ensures Grows(a, c, x + y)
  {
    assert Asked(a) + x + y == Asked(a) + (x + y);
  }

  lemma DropLibraryGrows(m: Memory, o: Owner)
    ensures Grows(m.log, DropLibrary(m, o).log, [])
  {
    GrowsNot(m.log);
    GrowsBy(m.log, Unloaded);
  }

  lemma DropInstanceGrows(m: Memory, i: nat, o: Owner)
    requires i in m.instances
    ensures Grows(m.log, DropInstance(m, i, o).log, [])
  {
    hide Grows;
    hide DropLibrary;
    GrowsNot(m.log);
    if m.instances[i] - {o} == {} {
      var gone := Log(m.(instances := m.instances - {i}), Destroyed(i));
      GrowsBy(m.log, Destroyed(i));
      DropLibraryGrows(gone, OfInstance(i));
      GrowsTwice(m.log, gone.log, DropLibrary(gone, OfInstance(i)).log, [], []);
    }
  }

  lemma DropBatchGrows(m: Memory, b: nat, o: Owner)
    requires b in m.batches && m.batches[b].instance in m.instances
    ensures Grows(m.log, DropBatch(m, b, o).log, [])
  {
    hide Grows;
    hide DropInstance;
    GrowsNot(m.log);
    var batch := m.batches[b];
    if batch.owners - {o} == {} {
      var gone := m.(batches := m.batches - {b});
      var after := if batch.held then Log(gone, Released(b)) else gone;
      GrowsBy(m.log, Released(b));
      DropInstanceGrows(after, batch.instance, OfBatch(b));
      GrowsTwice(m.log, after.log, DropInstance(after, batch.instance, OfBatch(b)).log, [], []);
    }
  }

  lemma LetGoGrows(m: Memory, t: nat, tensors: Tensors)
    requires t in m.tensors
    requires m.tensors[t].owner.Some? ==>
               m.tensors[t].owner.value in m.batches && m.batches[m.tensors[t].owner.value].instance in m.instances
    ensures Grows(m.log, LetGo(m, t, tensors).log, [])
  {
    hide Grows;
    hide DropBatch;
    GrowsNot(m.log);
    if m.tensors[t].owner.Some? {
      DropBatchGrows(m.(tensors := tensors), m.tensors[t].owner.value, OfTensor(t));
    }
  }
}
