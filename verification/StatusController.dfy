/**
 The hybrid sync manager and the controller that feeds the policy bundles and sends them.
 Every method is proved to perform the corresponding step of module AgentRuns.
 */
module StatusController {
  import opened AgentBundles
  import opened AgentDeltaBundle
  import opened AgentRuns
  import opened AgentState
  import opened Compliance
  import opened Maps
  import opened Options
  import opened Versions

  /** Switches between sending the complete and the delta bundle. */
  class HybridSyncManager {
    const switchFactor: nat
    const deltaBundle: DeltaComplianceStatusBundle
    var activeSyncMode: Mode
    var sentDeltaCount: nat

    constructor (switchFactor: nat, deltaBundle: DeltaComplianceStatusBundle)
      ensures this.switchFactor == switchFactor && this.deltaBundle == deltaBundle
      ensures Value() == Hybrid(CompleteState, 0)
    {
      this.switchFactor, this.deltaBundle := switchFactor, deltaBundle;
      activeSyncMode, sentDeltaCount := CompleteState, 0;
    }

    ghost function Value(): Hybrid
      reads this
    {
      Hybrid(activeSyncMode, sentDeltaCount)
    }

    /** The delta bundle on a new line. */
    ghost function Synced(): Changes
      reads deltaBundle, deltaBundle.records.Values, deltaBundle.clustersPerPolicy, deltaBundle.baseBundle
    {
      SyncState(Reset(deltaBundle.Value()), ByPolicy(deltaBundle.clustersPerPolicy.objects),
                deltaBundle.baseBundle.generation)
    }

    method SwitchToDeltaStateMode()
      requires deltaBundle.Valid() && deltaBundle.clustersPerPolicy.Valid()
      modifies this, deltaBundle
      ensures deltaBundle.Valid() && fresh(deltaBundle.records.Values)
      ensures Value() == Hybrid(DeltaState, 0) && deltaBundle.Value() == old(Synced())
    {
      hide ByPolicy, WellFormed, StatusesOfSets;
      activeSyncMode := DeltaState;
      sentDeltaCount := 0;
      deltaBundle.Reset();
      deltaBundle.SyncState();
    }

    method SwitchToCompleteStateMode()
      modifies this
      ensures Value() == Hybrid(CompleteState, old(sentDeltaCount))
    {
      activeSyncMode := CompleteState;
    }

    method HandleTransportationAttempt()
      requires deltaBundle.Valid() && deltaBundle.clustersPerPolicy.Valid()
      modifies this, deltaBundle
      ensures deltaBundle.Valid() && fresh(deltaBundle.records.Values - old(deltaBundle.records.Values))
      ensures old(activeSyncMode) == CompleteState ==>
              Value() == Hybrid(DeltaState, 0) && deltaBundle.Value() == old(Synced())
      ensures old(activeSyncMode) == DeltaState ==>
        if old(sentDeltaCount) + 1 == switchFactor
        then Value() == Hybrid(CompleteState, switchFactor) && deltaBundle.Value() == old(deltaBundle.Value())
        else && Value() == Hybrid(DeltaState, old(sentDeltaCount) + 1)
             && deltaBundle.Value() == Reset(old(deltaBundle.Value()))
    {
      hide ByPolicy, WellFormed, StatusesOfSets;
      if activeSyncMode == CompleteState {
        SwitchToDeltaStateMode();
        return;
      }
      sentDeltaCount := sentDeltaCount + 1;
      if sentDeltaCount == switchFactor {
        SwitchToCompleteStateMode();
        return;
      }
      deltaBundle.Reset();
    }

    method HandleTransportationSuccess()
      requires deltaBundle.Valid() && deltaBundle.clustersPerPolicy.Valid()
      modifies this, deltaBundle
      ensures deltaBundle.Valid() && fresh(deltaBundle.records.Values - old(deltaBundle.records.Values))
      ensures old(activeSyncMode) == CompleteState ==>
              Value() == Hybrid(DeltaState, 0) && deltaBundle.Value() == old(Synced())
      ensures old(activeSyncMode) == DeltaState ==>
              Value() == old(Value()) && deltaBundle.Value() == old(deltaBundle.Value())
    {
      if activeSyncMode == DeltaState {
        return;
      }
      SwitchToDeltaStateMode();
    }

    method HandleTransportationFailure()
      modifies this
      ensures Value() ==
              if old(activeSyncMode) == CompleteState then old(Value()) else Hybrid(CompleteState, old(sentDeltaCount))
    {
      if activeSyncMode == CompleteState {
        return;
      }
      SwitchToCompleteStateMode();
    }
  }

  /** The controller of the policies' status bundles. */
  class PolicyStatusController {
    const incarnation: nat
    const full: ClustersPerPolicyBundle
    const complete: ComplianceStatusBundle
    const delta: DeltaComplianceStatusBundle
    const manager: HybridSyncManager
    var lastSentFull: nat
    var lastSentComplete: nat
    var lastSentDelta: nat

    ghost function Value(): Agent
      reads this, full, complete, delta, delta.records.Values, manager
    {
      Agent(incarnation, manager.switchFactor, full.Value(), complete.Value(), delta.Value(), manager.Value(),
            lastSentFull, lastSentComplete, lastSentDelta)
    }

    ghost predicate Valid()
      reads this, full, complete, delta, delta.records.Values
    {
      && full.Valid() && complete.Valid() && delta.Valid()
      && delta.baseBundle == complete && delta.clustersPerPolicy == full && manager.deltaBundle == delta
    }

    constructor (incarnation: nat, switchFactor: nat)
      ensures Valid() && Value().incarnation == incarnation && Value().factor == switchFactor
      ensures switchFactor > 0 ==> Initial(Value())
    {
      this.incarnation := incarnation;
      var f := new ClustersPerPolicyBundle();
      var c := new ComplianceStatusBundle();
      var d := new DeltaComplianceStatusBundle(c, f);
      full, complete, delta := f, c, d;
      manager := new HybridSyncManager(switchFactor, d);
      lastSentFull, lastSentComplete, lastSentDelta := 0, 0, 0;
    }

    /** Updates the bundles in their order, so the delta finds the full bundle updated. */
    method UpdateObject(policy: Policy)
      requires Valid() && policy.Valid()
      modifies full, complete, delta, delta.records.Values
      ensures Valid() && fresh(delta.records.Values - old(delta.records.Values))
      ensures Value() == if policy.originId.None? then old(Value())
                         else Next(old(Value()), Update(policy.originId.value, policy.Statuses()))
    {
      hide ClustersPerPolicyBundle.Valid, ComplianceStatusBundle.Valid, DeltaComplianceStatusBundle.Valid;
      hide ByPolicy, WellFormed, StatusesOfSets, StatusMap, Injective, AsPolicies, UpdateComplete, UpdateChanges;
      full.UpdateObject(policy);
      complete.UpdateObject(policy);
      delta.UpdateObject(policy);
    }

    method DeleteObject(policy: Policy)
      requires Valid()
      modifies full, complete, delta
      ensures Valid() && delta.records.Values <= old(delta.records.Values)
      ensures Value() ==
              if policy.originId.None? then old(Value()) else Next(old(Value()), Delete(policy.originId.value))
    {
      hide ClustersPerPolicyBundle.Valid, ComplianceStatusBundle.Valid, DeltaComplianceStatusBundle.Valid;
      hide ByPolicy, WellFormed, StatusesOfSets, Injective, AsPolicies, DeleteFull, DeleteComplete, DeleteChanges;
      full.DeleteObject(policy);
      complete.DeleteObject(policy);
      delta.DeleteObject(policy);
    }

    /** The full bundle is sent in either mode, when it has changed. */
    method SendFull() returns (sent: seq<Message>)
      requires Valid()
      modifies this`lastSentFull
      ensures Valid()
      ensures Value() == Next(old(Value()), SyncFull) && sent == Sent(old(Value()), SyncFull)
    {
      hide ClustersPerPolicyBundle.Valid, ComplianceStatusBundle.Valid, DeltaComplianceStatusBundle.Valid;
      hide ByPolicy, WellFormed, StatusesOfSets, Injective, AsPolicies;
      sent := [];
      if full.generation > lastSentFull {
        sent := [FullMessage(Version(incarnation, full.generation), ByPolicy(full.objects))];
        lastSentFull := full.generation;
      }
    }

    /** The complete bundle is sent in its mode; the transport takes the message or fails at once. */
    method SendComplete(handedOver: bool) returns (sent: seq<Message>)
      requires Valid()
      modifies this`lastSentComplete, manager, delta
      ensures Valid() && fresh(delta.records.Values - old(delta.records.Values))
      ensures Value() == Next(old(Value()), SyncComplete(handedOver))
      ensures sent == Sent(old(Value()), SyncComplete(handedOver))
    {
      hide ClustersPerPolicyBundle.Valid, ComplianceStatusBundle.Valid, DeltaComplianceStatusBundle.Valid;
      hide ByPolicy, WellFormed, StatusesOfSets, Injective, AsPolicies, Reset, SyncState;
      sent := [];
      if manager.activeSyncMode != CompleteState || complete.generation <= lastSentComplete {
        return;
      }
      if handedOver {
        sent := [CompleteMessage(Version(incarnation, complete.generation), Version(incarnation, full.generation),
                                 ByPolicy(AsPolicies(complete.objects)))];
        manager.HandleTransportationAttempt();
      } else {
        manager.HandleTransportationFailure();
      }
      lastSentComplete := complete.generation;
    }

    method SendDelta(handedOver: bool) returns (sent: seq<Message>)
      requires Valid()
      modifies this`lastSentDelta, manager, delta
      ensures Valid() && fresh(delta.records.Values - old(delta.records.Values))
      ensures Value() == Next(old(Value()), SyncDelta(handedOver)) && sent == Sent(old(Value()), SyncDelta(handedOver))
    {
      hide ClustersPerPolicyBundle.Valid, ComplianceStatusBundle.Valid, DeltaComplianceStatusBundle.Valid;
      hide ByPolicy, WellFormed, StatusesOfSets, Injective, AsPolicies, Reset, SyncState, Flatten;
      sent := [];
      if manager.activeSyncMode != DeltaState || delta.generation <= lastSentDelta {
        return;
      }
      var generation := delta.generation;
      if handedOver {
        sent := [DeltaMessage(DeltaMerge.Delta(Version(incarnation, generation), Version(incarnation, delta.base),
                                               Flatten(ByPolicy(delta.objects))))];
        manager.HandleTransportationAttempt();
      } else {
        manager.HandleTransportationFailure();
      }
      lastSentDelta := generation;
    }

    /** One round over the bundles, in their order. */
    method SyncBundles(completeHandedOver: bool, deltaHandedOver: bool) returns (sent: seq<Message>)
      requires Valid()
      modifies this, manager, delta
      ensures Valid() && fresh(delta.records.Values - old(delta.records.Values))
      ensures var steps := [SyncFull, SyncComplete(completeHandedOver), SyncDelta(deltaHandedOver)];
              Value() == Run(old(Value()), steps) && sent == AllSent(old(Value()), steps)
    {
      hide Run, AllSent, Next, Sent, Value, Valid;
      ghost var before := Value();
      var first := SendFull();
      var second := SendComplete(completeHandedOver);
      var third := SendDelta(deltaHandedOver);
      sent := first + second + third;
      ThreeSteps(before, SyncFull, SyncComplete(completeHandedOver), SyncDelta(deltaHandedOver));
    }

    /** A late report of the transport on a message sent before. */
    method DeliverySucceeded()
      requires Valid()
      modifies manager, delta
      ensures Valid() && fresh(delta.records.Values - old(delta.records.Values))
      ensures Value() == Next(old(Value()), DeliverySuccess)
    {
      hide ClustersPerPolicyBundle.Valid, ComplianceStatusBundle.Valid, DeltaComplianceStatusBundle.Valid;
      hide ByPolicy, WellFormed, StatusesOfSets, Injective, AsPolicies, Reset, SyncState;
      manager.HandleTransportationSuccess();
    }

    method DeliveryFailed()
      requires Valid()
      modifies manager
      ensures Valid() && Value() == Next(old(Value()), DeliveryFailure)
    {
      manager.HandleTransportationFailure();
    }
  }

  lemma ThreeSteps(a: Agent, s1: Step, s2: Step, s3: Step)
    ensures Run(a, [s1, s2, s3]) == Next(Next(Next(a, s1), s2), s3)
    ensures AllSent(a, [s1, s2, s3]) == Sent(a, s1) + Sent(Next(a, s1), s2) + Sent(Next(Next(a, s1), s2), s3)
  {
    hide Run, AllSent, Next, Sent;
    var one, two := [s1], [s1, s2];
    assert one == [] + [s1] && two == one + [s2] && [s1, s2, s3] == two + [s3];
    RunNothing(a);
    RunSnoc(a, [], s1);
    RunSnoc(a, one, s2);
    RunSnoc(a, two, s3);
  }
}
