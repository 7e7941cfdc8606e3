/**
 The conflation unit as the manager runs it: elements updated in place, metadata objects in a
 store shared by all elements, units queueing themselves. Every method is proved to perform
 the corresponding transition of module Conflation.
 */
module ConflationUnits {
  import opened Conflation
  import opened DeltaMerge
  import opened Options
  import opened Versions

  /** The metadata objects of one unit, named by index. */
  class MetadataStore {
    var metas: seq<Metadata>
    var transports: seq<Transport>

    constructor ()
      ensures metas == [] && transports == []
    {
      metas, transports := [], [];
    }

    ghost function Value(): Store
      reads this
    {
      Store(metas, transports)
    }
  }

  /** One bundle type: what is pending, its metadata, and for deltas what is needed to recover. */
  class ConflationElement {
    const isDelta: bool
    const priority: nat
    const dependency: Option<Dependency>
    const store: MetadataStore
    var bundle: Option<Bundle>
    var meta: Option<nat>
    var dispatched: Option<Bundle>
    var lowestPending: Option<nat>
    var lastReceived: Option<nat>
    var lineHead: Option<Version>
    var isInProcess: bool
    var lastProcessed: Version

    constructor (isDelta: bool, priority: nat, dependency: Option<Dependency>, store: MetadataStore)
      ensures this.priority == priority && this.store == store && this.dependency == dependency
      ensures this.isDelta == isDelta
      ensures Value() ==
              Element(if isDelta then DeltaInfo(None, None, None, None, None, None) else CompleteInfo(None, None),
                                 dependency, false, NO_VERSION)
    {
      this.isDelta, this.priority, this.dependency, this.store := isDelta, priority, dependency, store;
      bundle, meta := None, None;
      dispatched, lowestPending, lastReceived, lineHead := None, None, None, None;
      isInProcess, lastProcessed := false, NO_VERSION;
    }

    ghost function Info(): Info
      reads this
    {
      if isDelta then DeltaInfo(bundle, meta, dispatched, lowestPending, lastReceived, lineHead)
      else CompleteInfo(bundle, meta)
    }

    ghost function Value(): Element
      reads this
    {
      Element(Info(), dependency, isInProcess, lastProcessed)
    }

    ghost predicate Valid()
      reads this, store
    {
      Info().Valid(store.Value(), priority)
    }

    /** Stores an arrived bundle; metadata already given to a worker is replaced, not overwritten. */
    method Update(b: Bundle, transport: nat) returns (ok: bool)
      requires Valid() && transport < |store.transports|
      modifies this, store
      ensures isInProcess == old(isInProcess) && lastProcessed == old(lastProcessed)
      ensures var spec := old(UpdateInfo(Info(), store.Value(), priority, b, transport, !isInProcess));
              && ok == spec.Some?
              && (Info(), store.Value()) == if ok then spec.value else old((Info(), store.Value()))
    {
      if isDelta && !b.DeltaBundle? {
        return false;
      }
      if isDelta {
        UpdateDelta(b.delta, transport);
      } else {
        bundle := Some(b);
        if meta.None? || isInProcess {
          meta := Some(|store.metas|);
          store.metas := store.metas + [Metadata(priority, b.Version(), transport)];
        } else {
          var m := meta.value;
          store.metas := store.metas[m := store.metas[m].(version := b.Version())];
          store.metas := store.metas[m := store.metas[m].(transport := transport)];
        }
      }
      return true;
    }

    method UpdateDelta(d: Delta, transport: nat)
      requires isDelta && Valid() && transport < |store.transports|
      modifies this, store
      ensures isInProcess == old(isInProcess) && lastProcessed == old(lastProcessed)
      ensures (Info(), store.Value()) ==
              old(UpdateDeltaInfo(Info(), store.Value(), priority, d, transport, !isInProcess))
    {
      var startsLine := bundle.None? || d.base.NewerThan(bundle.value.delta.base);
      // the new bundle is the source of truth and inherits what was pending
      bundle := Some(DeltaBundle(Merged(d, bundle)));
      if meta.None? {
        meta := Some(|store.metas|);
        store.metas := store.metas + [Metadata(priority, d.version, transport)];
      } else if isInProcess {
        // same information, new object: the earliest contributor's transport metadata is preserved
        var preserved := store.metas[meta.value].transport;
        meta := Some(|store.metas|);
        store.metas := store.metas + [Metadata(priority, d.version, preserved)];
      } else {
        store.metas := store.metas[meta.value := store.metas[meta.value].(version := d.version)];
      }
      lastReceived := Some(transport);
      if startsLine {
        lineHead := Some(d.version);
        store.metas := store.metas[meta.value := store.metas[meta.value].(transport := transport)];
      }
    }

    /** Hands out bundle and metadata; a delta element keeps its pack for recovery and starts a new one. */
    method GetBundleForProcessing() returns (b: Bundle, m: nat)
      requires Valid() && bundle.Some?
      modifies this, store
      ensures b == old(bundle.value) && m == old(meta.value)
      ensures isInProcess == old(isInProcess) && lastProcessed == old(lastProcessed)
      ensures (Info(), store.Value()) == old(DispatchInfo(Info(), store.Value(), priority))
    {
      b, m := bundle.value, meta.value;
      if isDelta {
        dispatched := bundle;
        lowestPending := Some(store.metas[m].transport);
        store.metas := store.metas[m := store.metas[m].(transport := lastReceived.value)];
        bundle := None;
      }
    }

    /** The failed pack's content is merged back, not as source of truth, and its metadata restored. */
    method HandleFailure(failed: Metadata)
      requires Valid() && meta.Some?
      modifies this, store
      ensures isInProcess == old(isInProcess) && lastProcessed == old(lastProcessed)
      ensures (Info(), store.Value()) == old(FailInfo(Info(), store.Value(), priority, failed))
    {
      if !isDelta {
        return;
      }
      var pack, lowest := dispatched, lowestPending;
      dispatched, lowestPending := None, None;
      if lineHead.value.NewerThan(failed.version) {
        return;
      }
      if bundle.None? {
        bundle := pack;
      } else {
        bundle := Some(DeltaBundle(Merged(bundle.value.delta, pack)));
      }
      if lowest.Some? {
        store.metas := store.metas[meta.value := store.metas[meta.value].(transport := lowest.value)];
      }
    }

    /** Processing ended: recover the bundle, or remember its version and release it. */
    method Finish(m: nat, success: bool)
      requires Valid() && meta.Some? && m < |store.metas|
      modifies this, store
      ensures (Value(), store.Value()) == old(Finished(Value(), store.Value(), priority, m, success))
    {
      var failedOrProcessed := store.metas[m];
      isInProcess := false;
      if !success {
        HandleFailure(failedOrProcessed);
      } else {
        if failedOrProcessed.version.NewerThan(lastProcessed) {
          lastProcessed := failedOrProcessed.version;
        }
        MarkAsProcessed(m);
      }
    }

    method MarkAsProcessed(m: nat)
      requires Valid() && meta.Some? && m < |store.metas|
      modifies this, store
      ensures isInProcess == old(isInProcess) && lastProcessed == old(lastProcessed)
      ensures (Info(), store.Value()) == old(SucceedInfo(Info(), store.Value(), priority, m))
    {
      var t := store.metas[m].transport;
      store.transports := store.transports[t := store.transports[t].(processed := true)];
      if isDelta {
        dispatched, lowestPending := None, None;
      } else if store.metas[m].version == store.metas[meta.value].version {
        bundle := None; // otherwise a newer bundle stays pending
      }
    }
  }

  /** The units that have something to process, first come first served. */
  class ConflationReadyQueue {
    var queue: seq<ConflationUnit>

    constructor ()
      ensures queue == []
    {
      queue := [];
    }

    method Enqueue(unit: ConflationUnit)
      modifies this
      ensures queue == old(queue) + [unit]
    {
      queue := queue + [unit];
    }

    /** What BlockingDequeue returns once the queue is not empty. */
    method Dequeue() returns (unit: ConflationUnit)
      requires queue != []
      modifies this
      ensures [unit] + queue == old(queue)
    {
      unit, queue := queue[0], queue[1..];
    }
  }

  class ConflationUnit {
    const elements: seq<ConflationElement>
    const store: MetadataStore
    const readyQueue: ConflationReadyQueue
    const requireInitialChecks: bool
    var isInReadyQueue: bool

    ghost function Value(): Unit
      reads this, store, elements
    {
      Unit(seq(|elements|, i requires 0 <= i < |elements| reads elements => elements[i].Value()), store.Value(),
           requireInitialChecks, isInReadyQueue)
    }

    ghost predicate Valid()
      reads this, store, elements
    {
      && (forall i :: 0 <= i < |elements| ==> elements[i].store == store && elements[i].priority == i)
      && (forall i, j :: 0 <= i < j < |elements| ==> elements[i] != elements[j])
      && Value().Valid()
    }

    constructor (elements: seq<ConflationElement>, store: MetadataStore, readyQueue: ConflationReadyQueue,
                 requireInitialChecks: bool)
      requires forall i :: 0 <= i < |elements| ==>
        && elements[i].store == store && elements[i].priority == i && elements[i].Valid()
        && (elements[i].dependency.Some? ==> elements[i].dependency.value.index < i)
      requires forall i, j :: 0 <= i < j < |elements| ==> elements[i] != elements[j]
      requires store.Value().Valid()
      ensures Valid() && this.elements == elements && this.store == store && this.readyQueue == readyQueue
      ensures this.requireInitialChecks == requireInitialChecks && !isInReadyQueue
    {
      this.elements, this.store, this.readyQueue := elements, store, readyQueue;
      this.requireInitialChecks := requireInitialChecks;
      isInReadyQueue := false;
    }

    /** A new bundle; old ones, and ones older than what is pending, are dropped. */
    method Insert(i: nat, b: Bundle, partition: int, offset: int)
      requires Valid() && i < |elements|
      modifies this, store, elements, readyQueue
      ensures Valid() && Value() == old(Conflation.Insert(Value(), i, b, partition, offset))
      ensures readyQueue.queue ==
              if !old(isInReadyQueue) && isInReadyQueue then old(readyQueue.queue) + [this] else old(readyQueue.queue)
    {
      hide Settle, Stored;
      var element := elements[i];
      if !b.Version().NewerThan(element.lastProcessed) {
        return;
      }
      if element.bundle.Some? && !b.Version().NewerThan(element.bundle.value.Version()) {
        return;
      }
      if element.isDelta && !b.DeltaBundle? {
        return; // the update fails
      }
      StoreBundle(i, b, partition, offset);
      AddToReadyQueueIfNeeded();
    }

    /** An accepted bundle goes to its element, with the transport metadata it came with. */
    method StoreBundle(i: nat, b: Bundle, partition: int, offset: int)
      requires Valid() && i < |elements| && (elements[i].isDelta ==> b.DeltaBundle?)
      modifies store, elements
      ensures Valid() && Value() == old(Stored(Value(), i, b, partition, offset))
    {
      hide UpdateDeltaInfo, Merged, UpdateInfo;
      ghost var before := Value();
      store.transports := store.transports + [Transport(partition, offset, false)];
      assert before.elements[i] == elements[i].Value();
      var ok := elements[i].Update(b, |store.transports| - 1);
      ghost var stored := Stored(before, i, b, partition, offset);
      assert forall j :: 0 <= j < |elements| && j != i ==> elements[j].Value() == before.elements[j];
      assert Value().elements == stored.elements && Value().store == stored.store;
      assert Value() == stored;
    }

    /** The highest-priority ready bundle, or nothing, in which case the unit stays flagged as queued. */
    method GetNext() returns (next: Option<(Bundle, nat)>)
      requires Valid()
      modifies this, store, elements
      ensures Valid()
      ensures var ready := old(NextReady(Value(), 0));
              && (next.Some? <==> ready.Some?)
              && Value() == (if ready.Some? then old(Dispatch(Value(), ready.value)) else old(Value()))
              && (ready.Some? ==>
                    next.value == old((elements[ready.value].bundle.value, elements[ready.value].meta.value)))
    {
      var priority := GetNextReadyBundlePriority();
      if priority == -1 {
        return None;
      }
      ghost var before := Value();
      var element := elements[priority];
      isInReadyQueue := false;
      element.isInProcess := true;
      var b, m := element.GetBundleForProcessing();
      assert Value().elements == Dispatch(before, priority).elements;
      return Some((b, m));
    }

    /** A worker's result for the bundle whose metadata is `m`. */
    method ReportResult(m: nat, success: bool)
      requires Valid() && m < |store.metas| && store.metas[m].priority < |elements|
      requires elements[store.metas[m].priority].meta.Some?
      modifies this, store, elements, readyQueue
      ensures Valid() && Value() == old(Conflation.Report(Value(), m, success))
      ensures readyQueue.queue ==
              if !old(isInReadyQueue) && isInReadyQueue then old(readyQueue.queue) + [this] else old(readyQueue.queue)
    {
      ghost var before := Value();
      var i := store.metas[m].priority;
      assert before.elements[i] == elements[i].Value();
      elements[i].Finish(m, success);
      ghost var after := Reported(before, m, success);
      assert forall j :: 0 <= j < |elements| && j != i ==> elements[j].Value() == before.elements[j];
      assert Value().elements == after.elements && Value().store == after.store;
      assert Value() == after;
      AddToReadyQueueIfNeeded();
    }

    method IsInProcess() returns (r: bool)
      requires Valid()
      ensures r == AnyInProcess(Value())
    {
      for i := 0 to |elements|
        invariant forall j :: 0 <= j < i ==> !elements[j].isInProcess
      {
        if elements[i].isInProcess {
          assert Value().elements[i].inProcess;
          return true;
        }
      }
      return false;
    }

    method AddToReadyQueueIfNeeded()
      requires Valid()
      modifies this`isInReadyQueue, readyQueue
      ensures Valid() && Value() == old(Settle(Value()))
      ensures readyQueue.queue ==
              if !old(isInReadyQueue) && isInReadyQueue then old(readyQueue.queue) + [this] else old(readyQueue.queue)
    {
      var inProcess := IsInProcess();
      if isInReadyQueue || inProcess {
        return;
      }
      var priority := GetNextReadyBundlePriority();
      if priority != -1 {
        assert Ready(Value(), priority);
        ghost var before := Value();
        readyQueue.Enqueue(this);
        isInReadyQueue := true;
        assert Value().elements == before.elements;
      }
    }

    /** The index of the first ready element, or -1. */
    method GetNextReadyBundlePriority() returns (priority: int)
      requires Valid()
      ensures priority == (var r := NextReady(Value(), 0); if r.Some? then r.value else -1)
    {
      hide ChainInProcess, DependencyHolds;
      for i := 0 to |elements|
        invariant NextReady(Value(), 0) == NextReady(Value(), i)
      {
        if elements[i].bundle.Some? {
          var busy := IsCurrentOrAnyDependencyInProcess(i);
          if !busy {
            var holds := CheckDependency(i);
            if holds {
              return i;
            }
          }
        }
      }
      return -1;
    }

    method IsCurrentOrAnyDependencyInProcess(i: nat) returns (r: bool)
      requires Valid() && i < |elements|
      ensures r == ChainInProcess(Value(), i)
      decreases i
    {
      var element := elements[i];
      assert Value().elements[i] == element.Value();
      if element.isInProcess {
        return true;
      }
      if element.dependency.None? {
        return false;
      }
      r := IsCurrentOrAnyDependencyInProcess(element.dependency.value.index);
    }

    method CheckDependency(i: nat) returns (r: bool)
      requires Valid() && i < |elements| && elements[i].bundle.Some?
      ensures r == DependencyHolds(Value(), i, elements[i].bundle.value)
    {
      var element := elements[i];
      assert Value().elements[i] == element.Value();
      if element.dependency.None? {
        return true;
      }
      var required := element.bundle.value.Dependency();
      if required.None? {
        return false; // declared a dependency but cannot tell its version
      }
      var processed := elements[element.dependency.value.index].lastProcessed;
      if !requireInitialChecks && processed == NO_VERSION {
        return true;
      }
      if element.dependency.value.exactMatch {
        return required.value == processed;
      }
      return !required.value.NewerThan(processed);
    }

    /** The transport metadata to commit or hold back, element by element. */
    method GetBundlesMetadata() returns (r: seq<Transport>)
      requires Valid()
      ensures forall t :: t in r <==> Offers(Value(), |elements|, t)
    {
      r := [];
      for i := 0 to |elements|
        invariant forall t :: t in r <==> Offers(Value(), i, t)
      {
        assert Value().elements[i] == elements[i].Value();
        if elements[i].meta.Some? {
          r := r + [store.transports[store.metas[elements[i].meta.value].transport]];
        }
      }
    }
  }

  /** One of the first `n` elements offers this transport metadata for committing. */
  ghost predicate Offers(u: Unit, n: nat, t: Transport)
    requires u.Valid() && n <= |u.elements|
  {
    exists i :: 0 <= i < n && u.elements[i].info.meta.Some?
      && t == u.store.transports[u.store.metas[u.elements[i].info.meta.value].transport]
  }
}
