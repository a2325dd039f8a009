/** Every step but closing keeps the books of DaemonJournal. */
module DaemonBooks {
  import opened Common
  import opened DaemonState
  import opened DaemonSections
  import opened DaemonSectionLemmas
  import opened DaemonJournal
  import opened DaemonDurations
  import opened DaemonMachine
  import opened DaemonInvariant
  import opened DaemonShrinks
  import opened DaemonPreservation

  /** From `s` to `s'` the books stay in order and the revision stamps the change. */
  ghost predicate Booked(loaded: seq<Event>, s: State<nat>, s': State<nat>) {
    Later(s, s') && (InOrder(loaded, s) ==> InOrder(loaded, s'))
  }

  lemma BookedOn(loaded: seq<Event>, s: State<nat>, s1: State<nat>, s2: State<nat>)
    requires Booked(loaded, s, s1) && Booked(loaded, s1, s2)
    ensures Booked(loaded, s, s2)
  {
    LaterOn(s, s1, s2);
  }

  lemma EndAllBooked(loaded: seq<Event>, s: State<nat>, es: seq<Ending>, at: int)
    requires Feasible(s, es, at)
    ensures Booked(loaded, s, EndAll(s, es, at))
  {
    EndAllLater(s, es, at);
    if InOrder(loaded, s) {
      EndAllKeeps(loaded, s, es, at);
    }
  }

  lemma RecordBooked(loaded: seq<Event>, s: State<nat>, note: Note, at: int)
    requires note.kind !in {ConsumerStarted, ConsumerEnded, Granted, Revoked, Expired}
    ensures Booked(loaded, s, Record(s, note, at))
  {
    if InOrder(loaded, s) {
      RecordChronicle(loaded, s, note, at);
      RecordCounts(s, note, at);
    }
  }

  lemma SweptBooked(loaded: seq<Event>, s: State<nat>, s': State<nat>, now: int, at: int)
    requires Swept(s, s', now, at)
    ensures Booked(loaded, s, s')
  {
    var es :| SweepPlan(s, es, now, at) && s' == EndAll(s, es, at);
    EndAllBooked(loaded, s, es, at);
  }

  lemma RevokesAfterSweepBooked(loaded: seq<Event>, s: State<nat>, s': State<nat>, token: Token, id: string,
                                consumerDetail: string, leaseDetail: string, at: int, answer: bool)
    requires RevokesAfterSweep(s, s', token, id, consumerDetail, leaseDetail, at, answer)
    ensures Booked(loaded, s, s')
  {
    if token in s.consumers && id == "" {
      var es :| ConsumerPlan(s, es, token, consumerDetail, at) && s' == EndAll(s, es, at);
      EndAllBooked(loaded, s, es, at);
    } else if token in s.consumers && id in s.consumers[token].leases {
      var c := s.consumers[token];
      var e := EndLease(token, id, LeaseNote(Revoked, c.meta.id, c.meta.title, c.leases[id].meta, leaseDetail));
      if InOrder(loaded, s) {
        EndKeeps(loaded, s, e, at);
      }
    }
  }

  lemma RevokesBooked(loaded: seq<Event>, w: World, a: Action, w': World)
    requires a.RevokeCall? || a.AdminRevokeCall?
    requires match a
             case RevokeCall(token, id) => exists answer :: Revokes(w.svc, w'.svc, token, id, w.clock, w.clock, answer)
             case AdminRevokeCall(cid, id) =>
               exists answer :: AdminRevokes(w.svc, w'.svc, cid, id, w.clock, w.clock, answer)
             case _ => false
    ensures Booked(loaded, w.svc, w'.svc)
  {
    var s, s', at := w.svc, w'.svc, w.clock;
    match a {
      case RevokeCall(token, id) =>
        var answer :| Revokes(s, s', token, id, at, at, answer);
        var es :| SweepPlan(s, es, at, at) &&
                  RevokesAfterSweep(EndAll(s, es, at), s', token, id, ENDED_BY_HOLDER, REVOKED_BY_HOLDER, at, answer);
        EndAllBooked(loaded, s, es, at);
        RevokesAfterSweepBooked(loaded, EndAll(s, es, at), s', token, id, ENDED_BY_HOLDER, REVOKED_BY_HOLDER, at,
                                answer);
        BookedOn(loaded, s, EndAll(s, es, at), s');
      case AdminRevokeCall(cid, id) =>
        var answer :| AdminRevokes(s, s', cid, id, at, at, answer);
        var es :| SweepPlan(s, es, at, at) && AdminRevokesAfterSweep(EndAll(s, es, at), s', cid, id, at, answer);
        var s1 := EndAll(s, es, at);
        EndAllBooked(loaded, s, es, at);
        if t :| t in s1.consumers && s1.consumers[t].meta.id == cid &&
                RevokesAfterSweep(s1, s', t, id, ENDED_BY_APP, REVOKED_BY_APP, at, answer) {
          RevokesAfterSweepBooked(loaded, s1, s', t, id, ENDED_BY_APP, REVOKED_BY_APP, at, answer);
        }
        BookedOn(loaded, s, s1, s');
      case _ =>
    }
  }

  lemma InstallBooked(derive: Bytes -> Option<PublicKey>, loaded: seq<Event>, w: World, c: nat, granted: bool,
                      w': World)
    requires Inv(derive, w) && InstallGrantStep(w, c, granted, w')
    ensures Booked(loaded, w.svc, w'.svc)
  {
    var k, at := w.calls[c], w.clock;
    var now := k.lease.grantedAt;
    var es :| SweepPlan(w.svc, es, now, at) &&
              InstallsAfterSweep(EndAll(w.svc, es, at), w'.svc, k.g, k.lease, k.buf, now, at, granted);
    var s1 := EndAll(w.svc, es, at);
    EndAllBooked(loaded, w.svc, es, at);
    EndAllShrinks(w.svc, es, at);
    assert CallOk(derive, w, k);
    if granted {
      AdmittedBooked(loaded, s1, w'.svc, k.g, k.lease, k.buf, now, at);
      BookedOn(loaded, w.svc, s1, w'.svc);
    }
  }

  lemma AdmittedBooked(loaded: seq<Event>, s1: State<nat>, s': State<nat>, g: Ticket, lease: Lease, buf: nat,
                       now: int, at: int)
    requires InstallsAfterSweep(s1, s', g, lease, buf, now, at, true)
    requires forall t :: !Live(s1.consumers, t, lease.id)
    ensures Booked(loaded, s1, s')
  {
    var s2 := Admit(s1, g, now, at).value;
    var fs :| InstallsOver(s2, fs, s', g, lease, buf, at);
    var s3 := EndAll(s2, fs, at);
    AdmitBooked(loaded, s1, g, now, at);
    AdmitLeases(s1, g, now, at);
    EndAllBooked(loaded, s2, fs, at);
    EndAllShrinks(s2, fs, at);
    assert !Live(s3.consumers, g.token, lease.id);
    InstallLater(loaded, s3, g, lease, buf, at);
    BookedOn(loaded, s1, s2, s3);
    BookedOn(loaded, s1, s3, s');
  }

  lemma AdmitBooked(loaded: seq<Event>, s: State<nat>, g: Ticket, now: int, at: int)
    requires Admit(s, g, now, at).Some?
    ensures Booked(loaded, s, Admit(s, g, now, at).value)
  {
    if InOrder(loaded, s) {
      AdmitKept(loaded, s, g, now, at);
    }
  }

  lemma InstallLater(loaded: seq<Event>, s: State<nat>, g: Ticket, lease: Lease, secret: nat, at: int)
    requires g.token in s.consumers && lease.id !in s.consumers[g.token].leases
    ensures Booked(loaded, s, Install(s, g, lease, secret, at))
  {
    if InOrder(loaded, s) {
      InstallKept(loaded, s, g, lease, secret, at);
    }
  }

  lemma ProfileBooked(loaded: seq<Event>, w: World, c: nat, w': World)
    requires c in w.calls && (w.calls[c].Writing? || w.calls[c].Deleting?)
    requires UpdateCommits(w.svc, w'.svc, w.calls[c].name, w.clock) ||
             DeleteClears(w.svc, w'.svc, w.calls[c].name, w.clock)
    ensures Booked(loaded, w.svc, w'.svc)
  {
    var name, at := w.calls[c].name, w.clock;
    if UpdateCommits(w.svc, w'.svc, name, at) {
      var note := UpdatedNote(name);
      var es :| ProfilePlan(w.svc, es, name, PROFILE_CHANGED, at) && w'.svc == Record(EndAll(w.svc, es, at), note, at);
      EndAllBooked(loaded, w.svc, es, at);
      RecordBooked(loaded, EndAll(w.svc, es, at), note, at);
      BookedOn(loaded, w.svc, EndAll(w.svc, es, at), w'.svc);
    } else {
      var es :| ProfilePlan(w.svc, es, name, PROFILE_DELETED, at) &&
                w'.svc == SessionsWithout(EndAll(w.svc, es, at), name);
      EndAllBooked(loaded, w.svc, es, at);
      SessionsBooked(loaded, EndAll(w.svc, es, at), w'.svc);
      BookedOn(loaded, w.svc, EndAll(w.svc, es, at), w'.svc);
    }
  }

  lemma SessionsBooked(loaded: seq<Event>, s: State<nat>, s': State<nat>)
    requires s' == s.(management := s'.management)
    ensures Booked(loaded, s, s')
  {
    if InOrder(loaded, s) {
      ChronicleOf(loaded, s, s');
    }
  }

  lemma TickerBooked(loaded: seq<Event>, w: World, now: int, w': World)
    requires TickerStep(w, now, w')
    ensures Booked(loaded, w.svc, w'.svc)
  {
    var es :| SweepPlan(w.svc, es, now, w.clock) && w' == Guarded(w, SessionsSwept(EndAll(w.svc, es, w.clock), now));
    EndAllBooked(loaded, w.svc, es, w.clock);
    SessionsBooked(loaded, EndAll(w.svc, es, w.clock), w'.svc);
    BookedOn(loaded, w.svc, EndAll(w.svc, es, w.clock), w'.svc);
  }

  lemma OpenBooked(loaded: seq<Event>, s: State<nat>, token: Token, session: Session<nat>, now: int, at: int)
    ensures Booked(loaded, s, SessionOpened(s, token, session, now, at))
  {
    var s1 := SessionsSwept(s, now);
    var s2 := s1.(management := s1.management[token := session]);
    SessionsBooked(loaded, s, s2);
    RecordBooked(loaded, s2, OpenedNote(session.profile), at);
    BookedOn(loaded, s, s2, SessionOpened(s, token, session, now, at));
  }

  /** Steps that change at most the sessions. */
  predicate Quiet(a: Action) {
    || a.Tick? || a.StartGrantNew? || a.LockGrant? || a.ReadGrant? || a.StampGrant? || a.FinishExec? || a.LockBegin?
    || a.ReadBegin? || a.EndManagement? || a.LockWrite? || a.Authorise? || a.Keep? || a.Save? || a.LockDelete?
    || a.ApproveDelete? || a.SaveDelete? || a.Fail?
  }

  lemma QuietBooked(derive: Bytes -> Option<PublicKey>, loaded: seq<Event>, w: World, a: Action, w': World)
    requires Step(derive, w, a, w') && Quiet(a)
    ensures Booked(loaded, w.svc, w'.svc)
  {
    assert w'.svc == w.svc.(management := w'.svc.management);
    SessionsBooked(loaded, w.svc, w'.svc);
  }

  lemma StepBooked(derive: Bytes -> Option<PublicKey>, loaded: seq<Event>, w: World, a: Action, w': World)
    requires Inv(derive, w) && Step(derive, w, a, w') && a != Shutdown
    ensures Booked(loaded, w.svc, w'.svc)
  {
    if Quiet(a) {
      QuietBooked(derive, loaded, w, a, w');
    } else if a.InstallGrant? {
      InstallBooked(derive, loaded, w, a.c, a.granted, w');
    } else if a.Ticker? || a.Look? || a.StartGrantKnown? || a.StartExec? {
      SweepBooked(derive, loaded, w, a, w');
    } else if a.RevokeCall? || a.AdminRevokeCall? {
      RevokesBooked(loaded, w, a, w');
    } else {
      CallBooked(derive, loaded, w, a, w');
    }
  }

  lemma SweepBooked(derive: Bytes -> Option<PublicKey>, loaded: seq<Event>, w: World, a: Action, w': World)
    requires Step(derive, w, a, w') && (a.Ticker? || a.Look? || a.StartGrantKnown? || a.StartExec?)
    ensures Booked(loaded, w.svc, w'.svc)
  {
    match a {
      case Ticker(now) => TickerBooked(loaded, w, now, w');
      case Look => SweptBooked(loaded, w.svc, w'.svc, w.clock, w.clock);
      case StartGrantKnown(c, token, now, name, reason, seconds) => SweptBooked(loaded, w.svc, w'.svc, now, w.clock);
      case StartExec(c, token, id, buf) => SweptBooked(loaded, w.svc, w'.svc, w.clock, w.clock);
    }
  }

  lemma CallBooked(derive: Bytes -> Option<PublicKey>, loaded: seq<Event>, w: World, a: Action, w': World)
    requires Step(derive, w, a, w') && (a.OpenBegin? || a.Finish? || a.ClearDelete? || a.FinishDelete?)
    ensures Booked(loaded, w.svc, w'.svc)
  {
    match a {
      case OpenBegin(c, token, stamp) =>
        var session := Session(w.calls[c].name, w.calls[c].buf, stamp + MANAGEMENT_TTL);
        assert OpenBeginStep(w, c, token, stamp, w');
        assert w'.svc == SessionOpened(w.svc, token, session, w.clock, w.clock);
        OpenBooked(loaded, w.svc, token, session, w.clock, w.clock);
      case Finish(c) => FinishBooked(loaded, w, c, w');
      case ClearDelete(c) => ProfileBooked(loaded, w, c, w');
      case FinishDelete(c) =>
        RecordBooked(loaded, w.svc, RemovedNote(w.calls[c].name), w.clock);
    }
  }

  lemma FinishBooked(loaded: seq<Event>, w: World, c: nat, w': World)
    requires c in w.calls && w.calls[c].Writing? && FinishStep(w, c, w')
    ensures Booked(loaded, w.svc, w'.svc)
  {
    var k := w.calls[c];
    if k.job == UpdateJob {
      ProfileBooked(loaded, w, c, w');
    } else {
      RecordBooked(loaded, w.svc, SavedNote(k.name, SavedDetail(k.job)), w.clock);
    }
  }
}
