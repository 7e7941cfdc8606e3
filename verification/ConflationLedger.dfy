/** Which transport metadata belongs to which accepted bundle, over every run of a conflation unit. */
module ConflationLedger {
  import opened Conflation
  import opened ConflationRuns
  import opened Options
  import opened Versions

  predicate IsComplete(u: Unit, i: nat) {
    i < |u.elements| && u.elements[i].info.CompleteInfo?
  }

  /** Arrival `x` is the newest accepted one of its bundle type. */
  ghost predicate IsLatest(accepted: seq<Arrival>, x: nat) {
    x < |accepted| && forall y :: x < y < |accepted| ==> accepted[y].priority != accepted[x].priority
  }

  ghost predicate WrittenVersion(written: seq<Flight>, priority: nat, version: Version) {
    exists w :: w in written && w.priority == priority && w.bundle.Version() == version
  }

  /** Every arrival brought one transport entry, and metadata points to arrivals of its own type. */
  ghost predicate Booked(s: State)
    requires Valid(s)
  {
    var accepted, store := s.accepted, s.unit.store;
    && |store.transports| == |accepted|
    && (forall x :: 0 <= x < |accepted| ==> accepted[x].transport == x && accepted[x].priority < |s.unit.elements|)
    && (forall m :: 0 <= m < |store.metas| ==>
          && accepted[store.metas[m].transport].priority == store.metas[m].priority
          && (IsComplete(s.unit, store.metas[m].priority) ==>
                accepted[store.metas[m].transport].bundle.Version() == store.metas[m].version))
    && (forall i :: 0 <= i < |s.unit.elements| && s.unit.elements[i].info.DeltaInfo? ==>
          var info := s.unit.elements[i].info;
          && (info.lastReceived.Some? ==> accepted[info.lastReceived.value].priority == i)
          && (info.lowestPending.Some? ==> accepted[info.lowestPending.value].priority == i))
  }

  /** A complete-state element offers the newest accepted bundle's transport entry for committing. */
  ghost predicate OffersLatest(s: State)
    requires Valid(s) && Booked(s)
  {
    && (forall i: nat :: IsComplete(s.unit, i) && s.unit.elements[i].info.meta.Some? ==>
          var x := s.unit.store.metas[s.unit.elements[i].info.meta.value].transport;
          IsLatest(s.accepted, x))
    && (forall x :: 0 <= x < |s.accepted| && IsComplete(s.unit, s.accepted[x].priority) ==>
          s.unit.elements[s.accepted[x].priority].info.meta.Some?)
  }

  /** Transport entries marked as processed belong to bundles that were written. */
  ghost predicate MarkedWereWritten(s: State)
    requires Valid(s) && Booked(s)
  {
    forall x ::
      0 <= x < |s.accepted| && IsComplete(s.unit, s.accepted[x].priority) && s.unit.store.transports[x].processed ==>
      WrittenVersion(s.written, s.accepted[x].priority, s.accepted[x].bundle.Version())
  }

  ghost predicate Ledger(s: State) {
    Safe(s) && Booked(s) && OffersLatest(s) && MarkedWereWritten(s)
  }

  /** An accepted bundle's entry is the only new one, and only its element's metadata may point to it. */
  ghost predicate Stores(u: Unit, r: Unit, i: nat, b: Bundle, partition: int, offset: int)
    requires u.Valid() && r.Valid()
  {
    var info, t := if i < |u.elements| then u.elements[i].info else CompleteInfo(None, None), |u.store.transports|;
    && i < |u.elements| && Evolves(u, r)
    && r.store.transports == u.store.transports + [Transport(partition, offset, false)]
    && (forall m :: 0 <= m < |r.store.metas| ==>
          || (m < |u.store.metas| && r.store.metas[m] == u.store.metas[m])
          || (r.store.metas[m].priority == i && r.store.metas[m].version == b.Version()
              && (r.store.metas[m].transport == t
                  || (info.DeltaInfo? && info.meta.Some?
                      && r.store.metas[m].transport == u.store.metas[info.meta.value].transport))))
    && (forall j :: 0 <= j < |u.elements| && j != i ==> r.elements[j] == u.elements[j])
    && r.elements[i].info.meta.Some?
    && (info.CompleteInfo? ==> r.store.metas[r.elements[i].info.meta.value].transport == t)
    && (info.DeltaInfo? ==>
          r.elements[i].info.lastReceived == Some(t) && r.elements[i].info.lowestPending == info.lowestPending)
  }

  lemma StoredStores(u: Unit, i: nat, b: Bundle, partition: int, offset: int)
    requires u.Valid() && i < |u.elements| && Accepts(u, i, b)
    ensures Stores(u, Stored(u, i, b, partition, offset), i, b, partition, offset)
  {
  }

  lemma ArriveKeepsBooks(s: State, i: nat, b: Bundle, partition: int, offset: int)
    requires Ledger(s) && i < |s.unit.elements|
    ensures Ledger(Next(s, Arrive(i, b, partition, offset)))
  {
    ArriveIsSafe(s, i, b, partition, offset);
    if Accepts(s.unit, i, b) {
      StoredStores(s.unit, i, b, partition, offset);
      StoredTouches(s.unit, i, b, partition, offset);
      var r, stored := Next(s, Arrive(i, b, partition, offset)), Stored(s.unit, i, b, partition, offset);
      hide Safe, Stored, Accepts;
      assert r.unit.elements == stored.elements && r.unit.store == stored.store;
      ArriveBooked(s, r, i, b, partition, offset);
      ArriveOffersLatest(s, r, i, b, partition, offset);
    }
  }

  ghost predicate Arrives(s: State, r: State, i: nat, b: Bundle, partition: int, offset: int)
    requires Valid(s) && Valid(r)
  {
    && Stores(s.unit, r.unit, i, b, partition, offset)
    && r.accepted == s.accepted + [Arrival(i, b, |s.unit.store.transports|)] && r.written == s.written
  }

  lemma ArriveBooked(s: State, r: State, i: nat, b: Bundle, partition: int, offset: int)
    requires Valid(s) && Valid(r) && Booked(s) && Arrives(s, r, i, b, partition, offset)
    ensures Booked(r)
  {
  }

  lemma ArriveOffersLatest(s: State, r: State, i: nat, b: Bundle, partition: int, offset: int)
    requires Valid(s) && Valid(r) && Booked(s) && Booked(r) && OffersLatest(s) && Arrives(s, r, i, b, partition, offset)
    ensures OffersLatest(r)
  {
    forall j: nat | IsComplete(r.unit, j) && r.unit.elements[j].info.meta.Some?
      ensures IsLatest(r.accepted, r.unit.store.metas[r.unit.elements[j].info.meta.value].transport)
    {
      if j != i {
        assert IsComplete(s.unit, j) && s.unit.elements[j].info.meta.Some?;
      }
    }
    forall x | 0 <= x < |r.accepted| && IsComplete(r.unit, r.accepted[x].priority)
      ensures r.unit.elements[r.accepted[x].priority].info.meta.Some?
    {
      if x < |s.accepted| {
        assert IsComplete(s.unit, s.accepted[x].priority);
      }
    }
  }

  /** A dispatch books nothing; a delta's metadata may be moved to the entry received last. */
  ghost predicate Dispatches(u: Unit, r: Unit, i: nat)
    requires u.Valid() && r.Valid() && i < |u.elements|
  {
    var info := u.elements[i].info;
    && Evolves(u, r) && info.meta.Some?
    && r.store.transports == u.store.transports && |r.store.metas| == |u.store.metas|
    && (forall m :: 0 <= m < |u.store.metas| ==>
          && r.store.metas[m].version == u.store.metas[m].version
          && (r.store.metas[m].transport == u.store.metas[m].transport
              || (u.store.metas[m].priority == i && info.DeltaInfo?
                  && info.lastReceived == Some(r.store.metas[m].transport))))
    && (forall j :: 0 <= j < |u.elements| && j != i ==> r.elements[j] == u.elements[j])
    && r.elements[i].info.meta == info.meta
    && (info.DeltaInfo? ==>
          && r.elements[i].info.lastReceived == info.lastReceived
          && r.elements[i].info.lowestPending == Some(u.store.metas[info.meta.value].transport))
  }

  lemma DispatchDispatches(u: Unit, i: nat)
    requires u.Valid() && i < |u.elements| && u.elements[i].info.bundle.Some?
    ensures Dispatches(u, Dispatch(u, i), i)
  {
  }

  lemma GetNextKeepsBooks(s: State)
    requires Ledger(s) && s.tickets > 0
    ensures Ledger(Next(s, GetNext))
  {
    GetNextIsSafe(s);
    var next := NextReady(s.unit, 0);
    if next.Some? {
      DispatchDispatches(s.unit, next.value);
      var r := Next(s, GetNext);
      hide Safe, Dispatch, Ready;
      DispatchBooked(s, r, next.value);
    }
  }

  lemma DispatchBooked(s: State, r: State, i: nat)
    requires Valid(s) && Valid(r) && i < |s.unit.elements| && Dispatches(s.unit, r.unit, i)
    requires r.accepted == s.accepted && r.written == s.written
    requires Booked(s) && OffersLatest(s) && MarkedWereWritten(s)
    ensures Booked(r) && OffersLatest(r) && MarkedWereWritten(r)
  {
    forall j: nat | IsComplete(r.unit, j) && r.unit.elements[j].info.meta.Some?
      ensures IsLatest(r.accepted, r.unit.store.metas[r.unit.elements[j].info.meta.value].transport)
    {
      assert IsComplete(s.unit, j) && s.unit.elements[j].info.meta.Some?;
    }
  }

  lemma ReportKeepsBooks(s: State, k: nat, success: bool)
    requires Ledger(s) && k < |s.flights|
    ensures Ledger(Next(s, Report(k, success)))
  {
    ReportIsSafe(s, k, success);
    var f := s.flights[k];
    assert f in s.flights && k == 0;
    assert FlightHolds(s.unit, f) && PendingNamed(s.unit, f.priority);
    ReportedTouches(s.unit, f, success);
    var r := Next(s, Report(k, success));
    ReportedMarks(s.unit, f, success);
    hide Safe, PendingNamed, FlightHolds, Reported;
    ReportBooked(s, r, f, success);
    ReportOffersLatest(s, r, f, success);
  }

  /** A report marks the flight's own entry or none, and only a delta's metadata may point elsewhere. */
  ghost predicate Marks(u: Unit, r: Unit, f: Flight, success: bool)
    requires u.Valid() && r.Valid() && FlightValid(u, f)
  {
    var info := u.elements[f.priority].info;
    && Evolves(u, r)
    && r.store.transports == (if success then u.store.MarkAsProcessed(u.store.metas[f.meta].transport).transports
                              else u.store.transports)
    && |r.store.metas| == |u.store.metas|
    && (forall m :: 0 <= m < |u.store.metas| ==>
          && r.store.metas[m].version == u.store.metas[m].version
          && (r.store.metas[m].transport == u.store.metas[m].transport
              || (u.store.metas[m].priority == f.priority && info.DeltaInfo?
                  && info.lowestPending == Some(r.store.metas[m].transport))))
    && (forall i :: 0 <= i < |u.elements| && i != f.priority ==> r.elements[i] == u.elements[i])
    && r.elements[f.priority].info.meta == info.meta
    && (info.DeltaInfo? ==>
          && r.elements[f.priority].info.lastReceived == info.lastReceived
          && r.elements[f.priority].info.lowestPending == None)
  }

  lemma ReportedMarks(u: Unit, f: Flight, success: bool)
    requires u.Valid() && FlightValid(u, f)
    ensures Marks(u, Reported(u, f.meta, success), f, success)
  {
  }

  ghost predicate Reports(s: State, r: State, f: Flight, success: bool)
    requires Valid(s) && Valid(r) && FlightValid(s.unit, f)
  {
    && Marks(s.unit, r.unit, f, success) && r.accepted == s.accepted
    && r.written == (if success then s.written + [f] else s.written)
  }

  lemma ReportBooked(s: State, r: State, f: Flight, success: bool)
    requires Valid(s) && Valid(r) && FlightValid(s.unit, f) && Booked(s) && Reports(s, r, f, success)
    ensures Booked(r)
  {
  }

  lemma ReportOffersLatest(s: State, r: State, f: Flight, success: bool)
    requires Valid(s) && Valid(r) && FlightValid(s.unit, f) && Booked(s) && Booked(r) && Reports(s, r, f, success)
    requires OffersLatest(s) && MarkedWereWritten(s) && s.unit.store.metas[f.meta].version == f.bundle.Version()
    ensures OffersLatest(r) && MarkedWereWritten(r)
  {
    forall i: nat | IsComplete(r.unit, i) && r.unit.elements[i].info.meta.Some?
      ensures IsLatest(r.accepted, r.unit.store.metas[r.unit.elements[i].info.meta.value].transport)
    {
      assert IsComplete(s.unit, i) && s.unit.elements[i].info.meta.Some?;
    }
    assert forall w :: w in s.written ==> w in r.written;
    if success {
      assert f in r.written;
      assert WrittenVersion(r.written, f.priority, f.bundle.Version());
    }
    forall x |
      0 <= x < |r.accepted| && IsComplete(r.unit, r.accepted[x].priority) && r.unit.store.transports[x].processed
      ensures WrittenVersion(r.written, r.accepted[x].priority, r.accepted[x].bundle.Version())
    {
      if s.unit.store.transports[x].processed {
        assert WrittenVersion(s.written, s.accepted[x].priority, s.accepted[x].bundle.Version());
      } else {
        assert x == s.unit.store.metas[f.meta].transport;
      }
    }
  }
}
