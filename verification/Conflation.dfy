/**
 The conflation unit of one leaf hub, as a value and its transitions.

 A unit keeps one element per bundle type, ordered by priority. Metadata objects are shared
 between a unit and the workers that process its bundles, and some updates overwrite them in
 place; to keep that visible they live in a store and are named by their index in it.
 */
module Conflation {
  import opened DeltaMerge
  import opened Options
  import opened Versions

  datatype Bundle =
    | StateBundle(stateVersion: Version, stateDependency: Option<Version>)
    | DeltaBundle(delta: Delta)
  {
    function Version(): Version {
      if StateBundle? then stateVersion else delta.version
    }

    /** The version required of the dependency; None for a bundle that cannot tell. */
    function Dependency(): Option<Version> {
      if StateBundle? then stateDependency else Some(delta.base)
    }
  }

  /** Where a message came from and whether its bundle has been processed. */
  datatype Transport = Transport(partition: int, offset: int, processed: bool)

  datatype Metadata = Metadata(priority: nat, version: Version, transport: nat)

  datatype Store = Store(metas: seq<Metadata>, transports: seq<Transport>) {
    ghost predicate Valid() {
      forall m :: 0 <= m < |metas| ==> metas[m].transport < |transports|
    }

    /** Entries are never removed, so indices stay meaningful. */
    ghost predicate Extends(before: Store) {
      && Valid() && |before.metas| <= |metas| && |before.transports| <= |transports|
      && forall m :: 0 <= m < |before.metas| ==> metas[m].priority == before.metas[m].priority
    }

    function Add(m: Metadata): Store {
      this.(metas := metas + [m])
    }

    function SetVersion(m: nat, version: Version): Store
      requires m < |metas|
    {
      this.(metas := metas[m := metas[m].(version := version)])
    }

    function SetTransport(m: nat, transport: nat): Store
      requires m < |metas|
    {
      this.(metas := metas[m := metas[m].(transport := transport)])
    }

    function Receive(partition: int, offset: int): Store {
      this.(transports := transports + [Transport(partition, offset, false)])
    }

    function MarkAsProcessed(t: nat): Store
      requires t < |transports|
    {
      this.(transports := transports[t := transports[t].(processed := true)])
    }
  }

  datatype Info =
    | CompleteInfo(bundle: Option<Bundle>, meta: Option<nat>)
    | DeltaInfo(bundle: Option<Bundle>, meta: Option<nat>,
                dispatched: Option<Bundle>, lowestPending: Option<nat>,
                lastReceived: Option<nat>, lineHead: Option<Version>)
  {
    ghost predicate Valid(store: Store, priority: nat) {
      && store.Valid()
      && (bundle.Some? ==> meta.Some?)
      && (meta.Some? ==> meta.value < |store.metas| && store.metas[meta.value].priority == priority)
      && (DeltaInfo? ==>
            && (bundle.Some? ==> bundle.value.DeltaBundle?)
            && (dispatched.Some? ==> dispatched.value.DeltaBundle?)
            && (lowestPending.Some? ==> lowestPending.value < |store.transports|)
            && (meta.Some? ==> lastReceived.Some? && lineHead.Some?)
            && (lastReceived.Some? ==> lastReceived.value < |store.transports|))
    }
  }

  /** A dependency on the element with a smaller priority index. */
  datatype Dependency = Dependency(index: nat, exactMatch: bool)

  datatype Element = Element(info: Info, dependency: Option<Dependency>, inProcess: bool, lastProcessed: Version)

  datatype Unit = Unit(elements: seq<Element>, store: Store, requireInitialChecks: bool, isInReadyQueue: bool) {

    /** Dependencies point to smaller indices, so chains end. */
    ghost predicate Valid() {
      && store.Valid()
      && forall i :: 0 <= i < |elements| ==>
        && elements[i].info.Valid(store, i)
        && (elements[i].dependency.Some? ==> elements[i].dependency.value.index < i)
    }
  }

  // ---------------------------------------------------------------- bundle infos

  function Merged(newer: Delta, older: Option<Bundle>): Delta {
    if older.Some? && older.value.DeltaBundle? then Inherit(newer, Some(older.value.delta)) else newer
  }

  /** Stores an arrived bundle; an element in process gets new metadata instead of overwritten one. */
  function UpdateInfo(info: Info, store: Store, priority: nat, b: Bundle, transport: nat, overwrite: bool)
    : (r: Option<(Info, Store)>)
    requires info.Valid(store, priority) && transport < |store.transports|
    ensures r.Some? ==> r.value.0.Valid(r.value.1, priority) && r.value.1.Extends(store) && r.value.0.meta.Some?
    ensures r.Some? ==> (r.value.0.CompleteInfo? <==> info.CompleteInfo?)
    ensures r.None? <==> info.DeltaInfo? && !b.DeltaBundle?
  {
    if info.CompleteInfo? then
      if info.meta.None? || !overwrite then
        Some((CompleteInfo(Some(b), Some(|store.metas|)), store.Add(Metadata(priority, b.Version(), transport))))
      else
        Some((CompleteInfo(Some(b), info.meta),
              store.SetVersion(info.meta.value, b.Version()).SetTransport(info.meta.value, transport)))
    else if !b.DeltaBundle? then
      None
    else
      Some(UpdateDeltaInfo(info, store, priority, b.delta, transport, overwrite))
  }

  function UpdateDeltaInfo(info: Info, store: Store, priority: nat, d: Delta, transport: nat, overwrite: bool)
    : (r: (Info, Store))
    requires info.DeltaInfo? && info.Valid(store, priority) && transport < |store.transports|
    ensures r.0.Valid(r.1, priority) && r.1.Extends(store) && r.0.meta.Some?
    ensures r.0.CompleteInfo? <==> info.CompleteInfo?
  {
    var startsLine := info.bundle.None? || d.base.NewerThan(info.bundle.value.delta.base);
    var m := if info.meta.None? || !overwrite then |store.metas| else info.meta.value;
    var versioned :=
      if info.meta.None? then store.Add(Metadata(priority, d.version, transport))
      else if !overwrite then store.Add(Metadata(priority, d.version, store.metas[info.meta.value].transport))
      else store.SetVersion(m, d.version);
    (DeltaInfo(Some(DeltaBundle(Merged(d, info.bundle))), Some(m), info.dispatched, info.lowestPending,
               Some(transport), if startsLine then Some(d.version) else info.lineHead),
     if startsLine then versioned.SetTransport(m, transport) else versioned)
  }

  /** Hands out the metadata; a delta element starts a new pack and keeps the old one for recovery. */
  function DispatchInfo(info: Info, store: Store, priority: nat): (r: (Info, Store))
    requires info.Valid(store, priority) && info.bundle.Some?
    ensures r.0.Valid(r.1, priority) && r.1.Extends(store) && r.0.meta.Some?
    ensures r.0.CompleteInfo? <==> info.CompleteInfo?
  {
    if info.CompleteInfo? then (info, store)
    else
      (info.(dispatched := info.bundle, lowestPending := Some(store.metas[info.meta.value].transport), bundle := None),
       store.SetTransport(info.meta.value, info.lastReceived.value))
  }

  /** A failed delta pack becomes pending again unless a newer pack was started meanwhile. */
  function FailInfo(info: Info, store: Store, priority: nat, failed: Metadata): (r: (Info, Store))
    requires info.Valid(store, priority) && info.meta.Some?
    ensures r.0.Valid(r.1, priority) && r.1.Extends(store) && r.0.meta.Some?
    ensures r.0.CompleteInfo? <==> info.CompleteInfo?
  {
    if info.CompleteInfo? then (info, store)
    else
      var released := info.(dispatched := None, lowestPending := None);
      if info.lineHead.value.NewerThan(failed.version) then
        (released, store)
      else
        (released.(bundle := if info.bundle.None? then info.dispatched
                             else Some(DeltaBundle(Merged(info.bundle.value.delta, info.dispatched)))),
         if info.lowestPending.Some? then store.SetTransport(info.meta.value, info.lowestPending.value) else store)
  }

  /** Marks the transport metadata; a complete bundle is released unless a newer one replaced it. */
  function SucceedInfo(info: Info, store: Store, priority: nat, m: nat): (r: (Info, Store))
    requires info.Valid(store, priority) && info.meta.Some? && m < |store.metas|
    ensures r.0.Valid(r.1, priority) && r.1.Extends(store) && r.0.meta.Some?
    ensures r.0.CompleteInfo? <==> info.CompleteInfo?
  {
    var marked := store.MarkAsProcessed(store.metas[m].transport);
    if info.CompleteInfo? then
      (if store.metas[m].version == store.metas[info.meta.value].version then CompleteInfo(None, info.meta) else info,
       marked)
    else
      (info.(dispatched := None, lowestPending := None), marked)
  }

  // ---------------------------------------------------------------- readiness

  predicate ChainInProcess(u: Unit, i: nat)
    requires u.Valid() && i < |u.elements|
    decreases i
  {
    || u.elements[i].inProcess
    || (u.elements[i].dependency.Some? && ChainInProcess(u, u.elements[i].dependency.value.index))
  }

  /** Whether a bundle naming `required` may follow a dependency processed up to `processed`. */
  predicate Satisfies(requireInitialChecks: bool, d: Dependency, required: Option<Version>, processed: Version) {
    && required.Some?
    && ((!requireInitialChecks && processed == NO_VERSION)
        || if d.exactMatch then required.value == processed else !required.value.NewerThan(processed))
  }

  predicate DependencyHolds(u: Unit, i: nat, b: Bundle)
    requires u.Valid() && i < |u.elements|
  {
    var d := u.elements[i].dependency;
    d.None? || Satisfies(u.requireInitialChecks, d.value, b.Dependency(), u.elements[d.value.index].lastProcessed)
  }

  predicate Ready(u: Unit, i: nat)
    requires u.Valid() && i < |u.elements|
  {
    var b := u.elements[i].info.bundle;
    b.Some? && !ChainInProcess(u, i) && DependencyHolds(u, i, b.value)
  }

  predicate AnyInProcess(u: Unit) {
    exists i :: 0 <= i < |u.elements| && u.elements[i].inProcess
  }

  ghost predicate AnyReady(u: Unit)
    requires u.Valid()
  {
    exists i :: 0 <= i < |u.elements| && Ready(u, i)
  }

  /** The first ready element at or after `from`, in priority order. */
  function NextReady(u: Unit, from: nat): (r: Option<nat>)
    requires u.Valid() && from <= |u.elements|
    ensures r.Some? ==> from <= r.value < |u.elements| && Ready(u, r.value)
    ensures r.Some? ==> forall i :: from <= i < r.value ==> !Ready(u, i)
    ensures r.None? ==> forall i :: from <= i < |u.elements| ==> !Ready(u, i)
    decreases |u.elements| - from
  {
    if from == |u.elements| then None
    else if Ready(u, from) then Some(from)
    else NextReady(u, from + 1)
  }

  // ---------------------------------------------------------------- transitions

  /** What no transition changes: the registered elements and the shape of the store. */
  ghost predicate Evolves(before: Unit, after: Unit) {
    && |after.elements| == |before.elements|
    && after.store.Extends(before.store)
    && after.requireInitialChecks == before.requireInitialChecks
    && forall i :: 0 <= i < |before.elements| ==>
      && after.elements[i].dependency == before.elements[i].dependency
      && (after.elements[i].info.CompleteInfo? <==> before.elements[i].info.CompleteInfo?)
      && (before.elements[i].info.meta.Some? ==> after.elements[i].info.meta.Some?)
  }

  function SetElement(u: Unit, i: nat, e: Element, store: Store): (r: Unit)
    requires u.Valid() && i < |u.elements| && e.dependency == u.elements[i].dependency
    requires e.info.Valid(store, i) && store.Extends(u.store)
    requires e.info.CompleteInfo? <==> u.elements[i].info.CompleteInfo?
    requires u.elements[i].info.meta.Some? ==> e.info.meta.Some?
    ensures r.Valid() && Evolves(u, r)
  {
    u.(elements := u.elements[i := e], store := store)
  }

  /** The unit flags itself as queued when it is idle and has something to process. */
  ghost function Settle(u: Unit): Unit
    requires u.Valid()
  {
    if !u.isInReadyQueue && !AnyInProcess(u) && AnyReady(u) then u.(isInReadyQueue := true) else u
  }

  ghost predicate Accepts(u: Unit, i: nat, b: Bundle)
    requires i < |u.elements|
  {
    var e := u.elements[i];
    && b.Version().NewerThan(e.lastProcessed)
    && (e.info.bundle.Some? ==> b.Version().NewerThan(e.info.bundle.value.Version()))
    && (e.info.DeltaInfo? ==> b.DeltaBundle?)
  }

  /** The element and store after an accepted bundle, before the unit settles. */
  function Stored(u: Unit, i: nat, b: Bundle, partition: int, offset: int): (r: Unit)
    requires u.Valid() && i < |u.elements| && (u.elements[i].info.DeltaInfo? ==> b.DeltaBundle?)
    ensures r.Valid() && Evolves(u, r)
  {
    var e := u.elements[i];
    var t := |u.store.transports|;
    var store := u.store.Receive(partition, offset);
    var updated := UpdateInfo(e.info, store, i, b, t, !e.inProcess).value;
    SetElement(u, i, e.(info := updated.0), updated.1)
  }

  ghost function Insert(u: Unit, i: nat, b: Bundle, partition: int, offset: int): (r: Unit)
    requires u.Valid() && i < |u.elements|
    ensures r.Valid() && Evolves(u, r)
  {
    if Accepts(u, i, b) then Settle(Stored(u, i, b, partition, offset)) else u
  }

  /** Dispatches the bundle of element `i`: the element is in process, the unit no longer queued. */
  function Dispatch(u: Unit, i: nat): (r: Unit)
    requires u.Valid() && i < |u.elements| && u.elements[i].info.bundle.Some?
    ensures r.Valid() && Evolves(u, r)
  {
    var e := u.elements[i];
    var d := DispatchInfo(e.info, u.store, i);
    SetElement(u, i, e.(info := d.0, inProcess := true), d.1).(isInReadyQueue := false)
  }

  /** The element's part of the report on a bundle. */
  function Finished(e: Element, store: Store, priority: nat, m: nat, success: bool): (Element, Store)
    requires e.info.Valid(store, priority) && e.info.meta.Some? && m < |store.metas|
  {
    var meta := store.metas[m];
    if !success then
      var f := FailInfo(e.info, store, priority, meta);
      (e.(inProcess := false, info := f.0), f.1)
    else
      var s := SucceedInfo(e.info, store, priority, m);
      (e.(inProcess := false, info := s.0,
          lastProcessed := if meta.version.NewerThan(e.lastProcessed) then meta.version else e.lastProcessed), s.1)
  }

  /** The element's state after a worker's report, before the unit settles. */
  function Reported(u: Unit, m: nat, success: bool): (r: Unit)
    requires u.Valid() && m < |u.store.metas| && u.store.metas[m].priority < |u.elements|
    requires u.elements[u.store.metas[m].priority].info.meta.Some?
    ensures r.Valid() && Evolves(u, r)
  {
    var i := u.store.metas[m].priority;
    var finished := Finished(u.elements[i], u.store, i, m, success);
    SetElement(u, i, finished.0, finished.1)
  }

  ghost function Report(u: Unit, m: nat, success: bool): (r: Unit)
    requires u.Valid() && m < |u.store.metas| && u.store.metas[m].priority < |u.elements|
    requires u.elements[u.store.metas[m].priority].info.meta.Some?
    ensures r.Valid() && Evolves(u, r)
  {
    Settle(Reported(u, m, success))
  }
}
