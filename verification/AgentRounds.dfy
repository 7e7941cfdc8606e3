/**
 Rounds of sending: the bundles are sent in the order of their collection, so that a complete bundle
 follows the full bundle that it is based on.
 */
module AgentRounds {
  import opened AgentRuns
  import opened AgentState
  import opened EndToEnd
  import opened Versions

  /** A round tells which of the two transports' answers it met; policies and reports come between rounds. */
  datatype Event = Policy(step: Step) | Reported(success: bool) | Round(complete: bool, delta: bool)

  function StepsOf(e: Event): seq<Step> {
    match e
    case Policy(step) => if step.Update? || step.Delete? then [step] else []
    case Reported(success) => [if success then DeliverySuccess else DeliveryFailure]
    case Round(complete, delta) => [SyncFull, SyncComplete(complete), SyncDelta(delta)]
  }

  function AllSteps(events: seq<Event>): seq<Step>
    decreases |events|
  {
    if events == [] then [] else AllSteps(events[..|events| - 1]) + StepsOf(events[|events| - 1])
  }

  predicate FullWasSent(messages: seq<Message>, version: Version) {
    exists m :: m in messages && m.FullMessage? && m.version == version
  }

  /** Every complete bundle follows a full one of the generation that it names. */
  predicate BasesFirst(messages: seq<Message>) {
    forall q :: 0 <= q < |messages| && messages[q].CompleteMessage? ==> FullWasSent(messages[..q], messages[q].base)
  }

  /** The full generation remembered as sent was sent, and without one there is nothing complete. */
  ghost predicate Settled(a: Agent, messages: seq<Message>) {
    && (a.sentFull > 0 ==> FullWasSent(messages, Version(a.incarnation, a.sentFull)))
    && a.sentFull <= a.full.generation
    && (a.complete.generation > 0 || a.full.view != map[] ==> a.full.generation > 0)
    && BasesFirst(messages)
  }

  lemma MoreMessages(messages: seq<Message>, more: seq<Message>, version: Version)
    requires FullWasSent(messages, version)
    ensures FullWasSent(messages + more, version)
  {
    var m :| m in messages && m.FullMessage? && m.version == version;
    assert m in messages + more;
  }

  lemma OneMessageMore(messages: seq<Message>, m: Message)
    requires BasesFirst(messages) && (m.CompleteMessage? ==> FullWasSent(messages, m.base))
    ensures BasesFirst(messages + [m])
  {
    var all := messages + [m];
    forall q | 0 <= q < |all| && all[q].CompleteMessage?
      ensures FullWasSent(all[..q], all[q].base)
    {
      if q < |messages| {
        assert all[..q] == messages[..q];
      } else {
        assert all[..q] == messages;
      }
    }
  }

  lemma StepCounts(a: Agent, step: Step)
    requires a.sentFull <= a.full.generation
    requires a.complete.generation > 0 || a.full.view != map[] ==> a.full.generation > 0
    ensures var n := Next(a, step);
            && n.sentFull <= n.full.generation
            && (n.complete.generation > 0 || n.full.view != map[] ==> n.full.generation > 0)
            && n.incarnation == a.incarnation
  {
    if step.Update? {
      assert step.policy in a.full.view ==> a.full.view != map[];
    }
    hide Changed, NotCompliant;
  }

  /** What a step sends, and when it remembers a full generation. */
  lemma StepSends(a: Agent, step: Step)
    ensures var n, sent := Next(a, step), Sent(a, step);
            && |sent| <= 1
            && (n.sentFull != a.sentFull ==> sent != [] && sent[0].FullMessage?
                                             && sent[0].version == Version(a.incarnation, n.sentFull))
            && (sent != [] && sent[0].CompleteMessage? ==>
                  && step == SyncComplete(true) && a.complete.generation > 0
                  && sent[0].base == Version(a.incarnation, a.full.generation))
  {
  }

  /** Any step but a complete bundle ahead of its full one. A full bundle is sent once the transport is given it. */
  lemma StepSettles(a: Agent, step: Step, messages: seq<Message>)
    requires Settled(a, messages) && (step.SyncComplete? ==> a.sentFull == a.full.generation)
    ensures Settled(Next(a, step), messages + Sent(a, step))
  {
    hide FullWasSent, BasesFirst, Next, Sent;
    var n, sent := Next(a, step), Sent(a, step);
    StepCounts(a, step);
    StepSends(a, step);
    if sent == [] {
      assert messages + sent == messages;
    } else {
      assert sent == [sent[0]];
      OneMessageMore(messages, sent[0]);
    }
    if n.sentFull == a.sentFull {
      if n.sentFull > 0 {
        MoreMessages(messages, sent, Version(a.incarnation, a.sentFull));
      }
    } else {
      LastWasSent(messages, sent);
    }
  }

  lemma LastWasSent(messages: seq<Message>, sent: seq<Message>)
    requires sent != [] && sent[0].FullMessage?
    ensures FullWasSent(messages + sent, sent[0].version)
  {
    assert sent[0] in messages + sent;
  }

  /** A round sends the full bundle first. */
  lemma RoundSettles(a: Agent, messages: seq<Message>, complete: bool, delta: bool)
    requires Settled(a, messages)
    ensures var steps := [SyncFull, SyncComplete(complete), SyncDelta(delta)];
            Settled(Run(a, steps), messages + AllSent(a, steps))
  {
    hide Settled, Next, Sent, Run, AllSent;
    var s1 := Next(a, SyncFull);
    FullIsRemembered(a, messages);
    StepSettles(a, SyncFull, messages);
    var sent1 := messages + Sent(a, SyncFull);
    StepSettles(s1, SyncComplete(complete), sent1);
    var s2 := Next(s1, SyncComplete(complete));
    var sent2 := sent1 + Sent(s1, SyncComplete(complete));
    StepSettles(s2, SyncDelta(delta), sent2);
    RunNothing(a);
    RunSnoc(a, [], SyncFull);
    RunSnoc(a, [SyncFull], SyncComplete(complete));
    RunSnoc(a, [SyncFull, SyncComplete(complete)], SyncDelta(delta));
    assert [] + [SyncFull] == [SyncFull] && [SyncFull] + [SyncComplete(complete)] == [SyncFull, SyncComplete(complete)];
    assert [SyncFull, SyncComplete(complete)] + [SyncDelta(delta)] ==
           [SyncFull, SyncComplete(complete), SyncDelta(delta)];
    assert messages + AllSent(a, [SyncFull, SyncComplete(complete), SyncDelta(delta)]) ==
           sent2 + Sent(s2, SyncDelta(delta));
  }

  lemma FullIsRemembered(a: Agent, messages: seq<Message>)
    requires Settled(a, messages)
    ensures Next(a, SyncFull).sentFull == Next(a, SyncFull).full.generation
  {
  }

  lemma EventSettles(a: Agent, messages: seq<Message>, e: Event)
    requires Settled(a, messages)
    ensures Settled(Run(a, StepsOf(e)), messages + AllSent(a, StepsOf(e)))
  {
    hide Settled, Run, AllSent, Next, Sent;
    if e.Round? {
      RoundSettles(a, messages, e.complete, e.delta);
    } else {
      var steps := StepsOf(e);
      RunNothing(a);
      if steps == [] {
        assert messages + [] == messages;
      } else {
        assert steps == [] + [steps[0]];
        RunSnoc(a, [], steps[0]);
        StepSettles(a, steps[0], messages);
        assert [] + Sent(a, steps[0]) == Sent(a, steps[0]);
      }
    }
  }

  lemma {:induction false} EveryRunSettles(start: Agent, events: seq<Event>)
    requires Initial(start)
    ensures Settled(Run(start, AllSteps(events)), AllSent(start, AllSteps(events)))
    decreases |events|
  {
    hide Settled, Run, AllSent;
    if events == [] {
      StartIsSettled(start);
      RunNothing(start);
    } else {
      var front, last := events[..|events| - 1], events[|events| - 1];
      EveryRunSettles(start, front);
      EventSettles(Run(start, AllSteps(front)), AllSent(start, AllSteps(front)), last);
      RunConcat(start, AllSteps(front), StepsOf(last));
    }
  }

  lemma StartIsSettled(start: Agent)
    requires Initial(start)
    ensures Settled(start, [])
  {
  }

  /**
   Over every run of rounds, with policies updated and deleted and reports arriving between them: each
   complete bundle is sent after the full bundle of the generation that it is based on.
   */
  lemma CompleteBundlesFollowTheirBases(start: Agent, events: seq<Event>)
    requires Initial(start)
    ensures BasesFirst(AllSent(start, AllSteps(events)))
  {
    hide Run, AllSent, BasesFirst;
    EveryRunSettles(start, events);
  }
}
