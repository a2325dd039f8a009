/** Every section but the last ones of `Grant` and `BeginProfileManagement` only takes away. */
module DaemonShrinks {
  import opened Common
  import opened DaemonState
  import opened DaemonSections
  import opened DaemonSectionLemmas
  import opened DaemonMachine
  import opened DaemonInvariant

  lemma EndAllShrinks(s: State<nat>, es: seq<Ending>, at: int)
    ensures Shrinks(s, EndAll(s, es, at))
  {
    EndAllRemoves(s, es, at);
  }

  lemma ShrinksOn(s: State<nat>, s1: State<nat>, s2: State<nat>)
    requires Shrinks(s, s1) && Shrinks(s1, s2)
    ensures Shrinks(s, s2)
  {
  }

  lemma SweptShrinks(s: State<nat>, s': State<nat>, now: int, at: int)
    requires Swept(s, s', now, at)
    ensures Shrinks(s, s')
  {
    var es :| SweepPlan(s, es, now, at) && s' == EndAll(s, es, at);
    EndAllShrinks(s, es, at);
  }

  lemma TickerShrinks(w: World, now: int, w': World)
    requires TickerStep(w, now, w')
    ensures Shrinks(w.svc, w'.svc) && w' == Guarded(w, w'.svc)
  {
    var es :| SweepPlan(w.svc, es, now, w.clock) && w' == Guarded(w, SessionsSwept(EndAll(w.svc, es, w.clock), now));
    EndAllShrinks(w.svc, es, w.clock);
    ShrinksOn(w.svc, EndAll(w.svc, es, w.clock), w'.svc);
  }

  lemma RevokesAfterSweepShrinks(s: State<nat>, s': State<nat>, token: Token, id: string,
                                 consumerDetail: string, leaseDetail: string, at: int, answer: bool)
    requires RevokesAfterSweep(s, s', token, id, consumerDetail, leaseDetail, at, answer)
    ensures Shrinks(s, s')
  {
    if token in s.consumers && id == "" {
      var es :| ConsumerPlan(s, es, token, consumerDetail, at) && s' == EndAll(s, es, at);
      EndAllShrinks(s, es, at);
    }
  }

  lemma RevokesShrinks(s: State<nat>, s': State<nat>, token: Token, id: string, now: int, at: int, answer: bool)
    requires Revokes(s, s', token, id, now, at, answer)
    ensures Shrinks(s, s')
  {
    var es :| SweepPlan(s, es, now, at) &&
              RevokesAfterSweep(EndAll(s, es, at), s', token, id, ENDED_BY_HOLDER, REVOKED_BY_HOLDER, at, answer);
    EndAllShrinks(s, es, at);
    RevokesAfterSweepShrinks(EndAll(s, es, at), s', token, id, ENDED_BY_HOLDER, REVOKED_BY_HOLDER, at, answer);
    ShrinksOn(s, EndAll(s, es, at), s');
  }

  lemma AdminRevokesShrinks(s: State<nat>, s': State<nat>, consumerId: string, id: string, now: int, at: int,
                            answer: bool)
    requires AdminRevokes(s, s', consumerId, id, now, at, answer)
    ensures Shrinks(s, s')
  {
    var es :| SweepPlan(s, es, now, at) && AdminRevokesAfterSweep(EndAll(s, es, at), s', consumerId, id, at, answer);
    var s1 := EndAll(s, es, at);
    EndAllShrinks(s, es, at);
    if t :| t in s1.consumers && s1.consumers[t].meta.id == consumerId &&
            RevokesAfterSweep(s1, s', t, id, ENDED_BY_APP, REVOKED_BY_APP, at, answer) {
      RevokesAfterSweepShrinks(s1, s', t, id, ENDED_BY_APP, REVOKED_BY_APP, at, answer);
    }
    ShrinksOn(s, s1, s');
  }

  lemma UpdateShrinks(s: State<nat>, s': State<nat>, name: string, at: int)
    requires UpdateCommits(s, s', name, at)
    ensures Shrinks(s, s')
    ensures NoLeaseOf(s'.consumers, name)
  {
    var es :| ProfilePlan(s, es, name, PROFILE_CHANGED, at) && s' == Record(EndAll(s, es, at), UpdatedNote(name), at);
    ProfileGone(s, es, name, PROFILE_CHANGED, at);
    EndAllShrinks(s, es, at);
    ShrinksOn(s, EndAll(s, es, at), s');
  }

  lemma DeleteShrinks(s: State<nat>, s': State<nat>, name: string, at: int)
    requires DeleteClears(s, s', name, at)
    ensures Shrinks(s, s') && NoTrace(s', name)
  {
    var es :| ProfilePlan(s, es, name, PROFILE_DELETED, at) && s' == SessionsWithout(EndAll(s, es, at), name);
    ProfileGone(s, es, name, PROFILE_DELETED, at);
    EndAllShrinks(s, es, at);
    ShrinksOn(s, EndAll(s, es, at), s');
  }

  /** After a profile's leases are cleared, no consumer has one. */
  lemma ProfileGone(s: State<nat>, es: seq<Ending>, name: string, detail: string, at: int)
    requires ProfilePlan(s, es, name, detail, at)
    ensures NoLeaseOf(EndAll(s, es, at).consumers, name)
  {
    var s' := EndAll(s, es, at);
    EndAllRemoves(s, es, at);
    forall t, id | Live(s'.consumers, t, id) ensures s'.consumers[t].leases[id].meta.profile != name {
      assert (t, id) !in ProfileLeases(s.consumers, name);
    }
  }
}
