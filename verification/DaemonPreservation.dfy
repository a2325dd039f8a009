/** Every step keeps the invariant. */
module DaemonPreservation {
  import opened Common
  import opened DaemonState
  import opened DaemonSections
  import opened DaemonSectionLemmas
  import opened DaemonDurations
  import opened DaemonMachine
  import opened DaemonInvariant
  import opened DaemonShrinks

  // ---------------------------------------------------------------- one call moves on

  /** The ticket `c` would carry is good, and its names are no other call's. */
  ghost predicate TicketFits(w: World, c: nat, ticket: Option<Ticket>) {
    ticket.Some? ==>
      && TicketOk(w, ticket.value)
      && forall d :: d != c && TicketAt(w, d).Some? && (ticket.value.isNew || TicketAt(w, d).value.isNew) ==>
           TicketAt(w, d).value.token != ticket.value.token && TicketAt(w, d).value.id != ticket.value.id
  }

  ghost predicate LockFits(w: World, c: nat, k: Call, mu: Option<nat>) {
    if Holding(k) then mu == Some(c) && (w.profileMu == None || w.profileMu == Some(c))
    else mu == w.profileMu && w.profileMu != Some(c)
  }

  ghost predicate Moved(w: World, c: nat, k: Call, mu: Option<nat>, w': World) {
    w.issued <= w'.issued && w' == w.(calls := w.calls[c := k], profileMu := mu, issued := w'.issued)
  }

  lemma TicketKept(w: World, c: nat, k: Call, mu: Option<nat>, w': World)
    requires TicketsInv(w) && (TicketOf(k) == None || TicketOf(k) == TicketAt(w, c))
    requires Moved(w, c, k, mu, w')
    ensures TicketFits(w', c, TicketOf(k))
  {
    forall d | d != c ensures TicketAt(w', d) == TicketAt(w, d) {}
  }

  lemma TicketsMove(w: World, c: nat, k: Call, mu: Option<nat>, w': World)
    requires TicketsInv(w) && Moved(w, c, k, mu, w') && TicketFits(w', c, TicketOf(k))
    ensures TicketsInv(w')
  {
    forall d | d != c ensures TicketAt(w', d) == TicketAt(w, d) {}
    forall d | TicketAt(w', d).Some? ensures TicketOk(w', TicketAt(w', d).value) {
      if d != c {
        assert TicketOk(w, TicketAt(w, d).value);
      }
    }
  }

  /** The call takes no buffer it did not have, and nothing others rely on changes. */
  lemma CallMoves(derive: Bytes -> Option<PublicKey>, w: World, c: nat, k: Call, mu: Option<nat>, w': World)
    requires Inv(derive, w) && Moved(w, c, k, mu, w')
    requires BufferOf(k) == Owned(w, InFlight(c)) && CallOk(derive, w', k)
    requires LockFits(w, c, k, mu) && TicketFits(w', c, TicketOf(k))
    ensures Inv(derive, w')
  {
    TicketsMove(w, c, k, mu, w');
    forall h ensures Owned(w', h) == Owned(w, h) {}
    forall d | d in w.calls && d != c ensures CallOk(derive, w', w.calls[d]) {
      assert CallOk(derive, w, w.calls[d]);
    }
  }

  /** The call is given a buffer that did not exist before. */
  lemma BufferArrives(derive: Bytes -> Option<PublicKey>, w: World, c: nat, k: Call, buf: nat, bytes: Bytes, w': World)
    requires Inv(derive, w) && buf !in w.mem && Owned(w, InFlight(c)) == None
    requires w' == w.(mem := w.mem[buf := bytes], calls := w.calls[c := k])
    requires BufferOf(k) == Some(buf) && CallOk(derive, w', k) && LockFits(w, c, k, w.profileMu)
    requires TicketOf(k) == None || TicketOf(k) == TicketAt(w, c)
    ensures Inv(derive, w')
  {
    ArrivalLedger(w, c, k, buf, bytes, w');
    ArrivalTickets(w, c, k, w');
    ArrivalCalls(derive, w, c, k, buf, bytes, w');
    ArrivalLeases(derive, w, buf, bytes, w');
  }

  lemma ArrivalLeases(derive: Bytes -> Option<PublicKey>, w: World, buf: nat, bytes: Bytes, w': World)
    requires LeasesInv(derive, w) && buf !in w.mem && w' == w.(mem := w.mem[buf := bytes], calls := w'.calls)
    ensures LeasesInv(derive, w')
  {
  }

  lemma ArrivalCalls(derive: Bytes -> Option<PublicKey>, w: World, c: nat, k: Call, buf: nat, bytes: Bytes, w': World)
    requires CallsInv(derive, w) && buf !in w.mem && CallOk(derive, w', k) && LockFits(w, c, k, w.profileMu)
    requires w' == w.(mem := w.mem[buf := bytes], calls := w.calls[c := k])
    ensures CallsInv(derive, w')
  {
    forall d | d in w.calls && d != c ensures CallOk(derive, w', w.calls[d]) {
      assert CallOk(derive, w, w.calls[d]);
    }
  }

  lemma ArrivalTickets(w: World, c: nat, k: Call, w': World)
    requires TicketsInv(w) && w' == w.(mem := w'.mem, calls := w.calls[c := k])
    requires TicketOf(k) == None || TicketOf(k) == TicketAt(w, c)
    ensures TicketsInv(w')
  {
    forall d | TicketAt(w', d).Some? ensures TicketAt(w', d) == TicketAt(w, d) && TicketOk(w', TicketAt(w', d).value) {
      assert TicketOk(w, TicketAt(w, d).value);
    }
  }

  lemma ArrivalLedger(w: World, c: nat, k: Call, buf: nat, bytes: Bytes, w': World)
    requires LedgerInv(w) && buf !in w.mem && Owned(w, InFlight(c)) == None && BufferOf(k) == Some(buf)
    requires w' == w.(mem := w.mem[buf := bytes], calls := w.calls[c := k])
    ensures LedgerInv(w')
  {
    forall h ensures Owned(w', h) == if h == InFlight(c) then Some(buf) else Owned(w, h) {}
    forall b | b in w'.mem && (forall h :: Owned(w', h) != Some(b)) ensures AllZero(w'.mem[b]) {
      assert Owned(w', InFlight(c)) == Some(buf);
      forall h ensures Owned(w, h) != Some(b) {
        assert Owned(w', h) != Some(b);
      }
    }
  }

  // ---------------------------------------------------------------- the steps of Grant

  lemma StartGrantNewKeeps(derive: Bytes -> Option<PublicKey>, w: World, c: nat, g: Ticket, name: string,
                           reason: string,
                           seconds: int, consumerSeconds: int, w': World)
    requires Inv(derive, w) && NewGrantStep(w, c, g, name, reason, seconds, consumerSeconds, w')
    ensures Inv(derive, w')
  {
    forall d | d != c && TicketAt(w', d).Some?
      ensures TicketAt(w', d) == TicketAt(w, d) && TicketOk(w, TicketAt(w, d).value)
    {
    }
    CallMoves(derive, w, c, GrantWaiting(g, name, reason, seconds), w.profileMu, w');
  }

  lemma StartGrantKnownKeeps(derive: Bytes -> Option<PublicKey>, w: World, c: nat, token: Token, now: int, name: string,
                             reason: string, seconds: int, w': World)
    requires Inv(derive, w) && KnownGrantStep(w, c, token, now, name, reason, seconds, w')
    ensures Inv(derive, w')
  {
    var answer :| GrantLooksUp(w.svc, w'.svc, token, now, w.clock, answer) &&
                  var w1 := Guarded(w, w'.svc);
                  w' == match answer
                        case NotFound => w1
                        case Found(id, title, expiresAt) =>
                          var g := Ticket(token, id, title, expiresAt, false);
                          w1.(calls := w1.calls[c := GrantWaiting(g, name, reason, seconds)]);
    var w1 := Guarded(w, w'.svc);
    SweptShrinks(w.svc, w'.svc, now, w.clock);
    GuardedKeeps(derive, w, w'.svc);
    if answer.Found? {
      var k := GrantWaiting(Ticket(token, answer.id, answer.title, answer.expiresAt, false), name, reason, seconds);
      forall d | d != c && TicketAt(w', d).Some?
        ensures TicketAt(w', d) == TicketAt(w1, d) && TicketOk(w1, TicketAt(w1, d).value)
      {
      }
      CallMoves(derive, w1, c, k, w1.profileMu, w');
    }
  }

  lemma LockGrantKeeps(derive: Bytes -> Option<PublicKey>, w: World, c: nat, w': World)
    requires Inv(derive, w) && LockGrantStep(w, c, w')
    ensures Inv(derive, w')
  {
    TicketKept(w, c, w'.calls[c], Some(c), w');
    CallMoves(derive, w, c, w'.calls[c], Some(c), w');
  }

  lemma ReadGrantKeeps(derive: Bytes -> Option<PublicKey>, w: World, c: nat, buf: nat, w': World)
    requires Inv(derive, w) && ReadGrantStep(w, c, buf, w')
    ensures Inv(derive, w')
  {
    assert CallOk(derive, w, w.calls[c]);
    BufferArrives(derive, w, c, w'.calls[c], buf, w.keychain[w.calls[c].name], w');
  }

  lemma StampGrantKeeps(derive: Bytes -> Option<PublicKey>, w: World, c: nat, leaseId: string, w': World)
    requires Inv(derive, w) && StampStep(derive, w, c, leaseId, w')
    ensures Inv(derive, w')
  {
    assert CallOk(derive, w, w.calls[c]);
    assert TicketOk(w, w.calls[c].g) by { assert TicketAt(w, c) == Some(w.calls[c].g); }
    TicketKept(w, c, w'.calls[c], w.profileMu, w');
    CallMoves(derive, w, c, w'.calls[c], w.profileMu, w');
  }

  // ---------------------------------------------------------------- the steps of the other calls

  lemma LockBeginKeeps(derive: Bytes -> Option<PublicKey>, w: World, c: nat, name: string, w': World)
    requires Inv(derive, w) && LockBeginStep(w, c, name, w')
    ensures Inv(derive, w')
  {
    CallMoves(derive, w, c, w'.calls[c], Some(c), w');
  }

  lemma ReadBeginKeeps(derive: Bytes -> Option<PublicKey>, w: World, c: nat, buf: nat, w': World)
    requires Inv(derive, w) && ReadBeginStep(w, c, buf, w')
    ensures Inv(derive, w')
  {
    assert CallOk(derive, w, w.calls[c]);
    BufferArrives(derive, w, c, w'.calls[c], buf, w.keychain[w.calls[c].name], w');
  }

  lemma StartExecKeeps(derive: Bytes -> Option<PublicKey>, w: World, c: nat, token: Token, id: string, buf: nat,
                       w': World)
    requires Inv(derive, w) && StartExecStep(w, c, token, id, buf, w')
    ensures Inv(derive, w')
  {
    var answer :| LooksUpLease(w.svc, w'.svc, token, id, w.clock, w.clock, answer) &&
                  var w1 := Guarded(w, w'.svc);
                  if answer.None? then w' == w1
                  else answer.value.secret in w1.mem &&
                       w' == w1.(mem := w1.mem[buf := w1.mem[answer.value.secret]],
                                 calls := w1.calls[c := Executing(buf)]);
    var w1 := Guarded(w, w'.svc);
    SweptShrinks(w.svc, w'.svc, w.clock, w.clock);
    GuardedKeeps(derive, w, w'.svc);
    if answer.Some? {
      BufferArrives(derive, w1, c, Executing(buf), buf, w1.mem[answer.value.secret], w');
    }
  }

  lemma LockWriteKeeps(derive: Bytes -> Option<PublicKey>, w: World, c: nat, job: Job, name: string, profile: Profile,
                       secret: Bytes, w': World)
    requires Inv(derive, w) && LockWriteStep(derive, w, c, job, name, profile, secret, w')
    ensures Inv(derive, w')
  {
    CallMoves(derive, w, c, w'.calls[c], Some(c), w');
  }

  lemma LockDeleteKeeps(derive: Bytes -> Option<PublicKey>, w: World, c: nat, name: string, w': World)
    requires Inv(derive, w) && LockDeleteStep(w, c, name, w')
    ensures Inv(derive, w')
  {
    CallMoves(derive, w, c, w'.calls[c], Some(c), w');
  }

  lemma AuthoriseKeeps(derive: Bytes -> Option<PublicKey>, w: World, c: nat, token: Token, w': World)
    requires Inv(derive, w) && AuthoriseStep(w, c, token, w')
    ensures Inv(derive, w')
  {
    var k := w.calls[c];
    var w1 := Guarded(w, SessionConsumed(w.svc, k.name, token, w.clock));
    GuardedKeeps(derive, w, w1.svc);
    if Authorises(w.svc, k.name, token, w.clock) {
      ReadyKeeps(derive, w1, c);
    } else {
      ReturnedKeeps(derive, w1, c);
    }
  }

  lemma ReadyKeeps(derive: Bytes -> Option<PublicKey>, w: World, c: nat)
    requires Inv(derive, w) && WritingAt(w, c, Unauthorised)
    ensures Inv(derive, w.(calls := w.calls[c := w.calls[c].(stage := Ready)]))
  {
    var k := w.calls[c];
    var w' := w.(calls := w.calls[c := k.(stage := Ready)]);
    assert CallOk(derive, w, k);
    CallMoves(derive, w, c, k.(stage := Ready), w.profileMu, w');
  }

  // ---------------------------------------------------------------- steps that write the keychain or the configuration

  /** While `c` holds the profile lock, what other calls rely on is beyond the configuration and the keychain. */
  lemma OthersFree(derive: Bytes -> Option<PublicKey>, w: World, c: nat)
    requires Inv(derive, w) && c in w.calls && Holding(w.calls[c])
    ensures forall d :: d in w.calls && d != c ==> !Holding(w.calls[d])
    ensures w.profileMu == Some(c)
  {
  }

  /** The holder of the profile lock moves on and changes the configuration, keychain or history with it. */
  lemma HolderWrites(derive: Bytes -> Option<PublicKey>, w: World, c: nat, k: Call, w': World)
    requires Inv(derive, w) && c in w.calls && Holding(w.calls[c]) && Holding(k)
    requires w' == w.(config := w'.config, keychain := w'.keychain, since := w'.since, calls := w.calls[c := k])
    requires BufferOf(k) == None && BufferOf(w.calls[c]) == None && TicketOf(k) == None
    requires CallOk(derive, w', k)
    requires forall name :: name in w'.keychain ==> name in w'.since && w'.keychain[name] in w'.since[name]
    requires forall t, id :: Live(w.svc.consumers, t, id) ==>
               var l := w.svc.consumers[t].leases[id]; SecretOk(derive, w'.config, w'.since, w.mem, l.meta, l.secret)
    requires SessionsInv(w')
    ensures Inv(derive, w')
  {
    OthersFree(derive, w, c);
    forall h ensures Owned(w', h) == Owned(w, h) {}
    assert LedgerInv(w');
    forall d | TicketAt(w', d).Some? ensures TicketAt(w', d) == TicketAt(w, d) && TicketOk(w', TicketAt(w', d).value) {
      assert TicketOk(w, TicketAt(w, d).value);
    }
    assert TicketsInv(w');
  }

  lemma KeepKeeps(derive: Bytes -> Option<PublicKey>, w: World, c: nat, w': World)
    requires Inv(derive, w) && KeepStep(w, c, w')
    ensures Inv(derive, w')
  {
    assert CallOk(derive, w, w.calls[c]);
    HolderWrites(derive, w, c, w'.calls[c], w');
  }

  lemma SaveKeeps(derive: Bytes -> Option<PublicKey>, w: World, c: nat, w': World)
    requires Inv(derive, w) && SaveStep(w, c, w')
    ensures Inv(derive, w')
  {
    var k := w.calls[c];
    assert CallOk(derive, w, k);
    forall t, id | Live(w.svc.consumers, t, id)
      ensures var l := w.svc.consumers[t].leases[id]; SecretOk(derive, w'.config, w'.since, w.mem, l.meta, l.secret)
    {
      var l := w.svc.consumers[t].leases[id];
      assert SecretOk(derive, w.config, w.since, w.mem, l.meta, l.secret);
    }
    HolderWrites(derive, w, c, w'.calls[c], w');
  }

  lemma ApproveDeleteKeeps(derive: Bytes -> Option<PublicKey>, w: World, c: nat, w': World)
    requires Inv(derive, w) && ApproveDeleteStep(w, c, w')
    ensures Inv(derive, w')
  {
    assert CallOk(derive, w, w.calls[c]);
    HolderWrites(derive, w, c, w'.calls[c], w');
  }

  lemma ClearDeleteKeeps(derive: Bytes -> Option<PublicKey>, w: World, c: nat, w': World)
    requires Inv(derive, w) && ClearDeleteStep(w, c, w')
    ensures Inv(derive, w')
  {
    var k := w.calls[c];
    var w1 := Guarded(w, w'.svc);
    DeleteShrinks(w.svc, w'.svc, k.name, w.clock);
    GuardedKeeps(derive, w, w'.svc);
    assert CallOk(derive, w1, k);
    forall t, id | Live(w1.svc.consumers, t, id)
      ensures var l := w1.svc.consumers[t].leases[id]; SecretOk(derive, w'.config, w'.since, w1.mem, l.meta, l.secret)
    {
      var l := w1.svc.consumers[t].leases[id];
      assert SecretOk(derive, w1.config, w1.since, w1.mem, l.meta, l.secret);
    }
    HolderWrites(derive, w1, c, w'.calls[c], w');
  }

  lemma SaveDeleteKeeps(derive: Bytes -> Option<PublicKey>, w: World, c: nat, w': World)
    requires Inv(derive, w) && SaveDeleteStep(w, c, w')
    ensures Inv(derive, w')
  {
    var k := w.calls[c];
    assert CallOk(derive, w, k);
    forall t, id | Live(w.svc.consumers, t, id)
      ensures var l := w.svc.consumers[t].leases[id]; SecretOk(derive, w'.config, w'.since, w.mem, l.meta, l.secret)
    {
      var l := w.svc.consumers[t].leases[id];
      assert SecretOk(derive, w.config, w.since, w.mem, l.meta, l.secret);
    }
    HolderWrites(derive, w, c, w'.calls[c], w');
  }

  // ---------------------------------------------------------------- steps that only journal

  lemma RecordedIsGuarded(w: World, note: Note)
    ensures w.(svc := Record(w.svc, note, w.clock)) == Guarded(w, Record(w.svc, note, w.clock))
    ensures Shrinks(w.svc, Record(w.svc, note, w.clock))
  {
    RecordHolds(w.svc, note, w.clock);
    assert Wiped(w.mem, w.svc, Record(w.svc, note, w.clock)) == w.mem;
  }

  lemma RecordedKeeps(derive: Bytes -> Option<PublicKey>, w: World, c: nat, note: Note)
    requires Inv(derive, w) && c in w.calls
    ensures Inv(derive, Returned(w.(svc := Record(w.svc, note, w.clock)), c))
  {
    RecordedIsGuarded(w, note);
    GuardedKeeps(derive, w, Record(w.svc, note, w.clock));
    ReturnedKeeps(derive, Guarded(w, Record(w.svc, note, w.clock)), c);
  }

  lemma FinishKeeps(derive: Bytes -> Option<PublicKey>, w: World, c: nat, w': World)
    requires Inv(derive, w) && FinishStep(w, c, w')
    ensures Inv(derive, w')
    ensures w.calls[c].job == UpdateJob ==> NoLeaseOf(w'.svc.consumers, w.calls[c].name)
    ensures forall d :: d in w'.calls ==> !Holding(w'.calls[d])
  {
    var k := w.calls[c];
    OthersFree(derive, w, c);
    if k.job == UpdateJob {
      UpdateShrinks(w.svc, w'.svc, k.name, w.clock);
      GuardedKeeps(derive, w, w'.svc);
      ReturnedKeeps(derive, Guarded(w, w'.svc), c);
      ForgetOldSecrets(derive, w, Returned(Guarded(w, w'.svc), c), c, k.name);
    } else {
      RecordedKeeps(derive, w, c, SavedNote(k.name, SavedDetail(k.job)));
    }
  }

  lemma FinishDeleteKeeps(derive: Bytes -> Option<PublicKey>, w: World, c: nat, w': World)
    requires Inv(derive, w) && FinishDeleteStep(w, c, w')
    ensures Inv(derive, w')
  {
    RecordedKeeps(derive, w, c, RemovedNote(w.calls[c].name));
  }

  /** With no lease of the profile left and no holder of the lock, the profile's past secrets are past. */
  lemma ForgetOldSecrets(derive: Bytes -> Option<PublicKey>, before: World, w: World, c: nat, name: string)
    requires Inv(derive, before) && c in before.calls && Holding(before.calls[c])
    requires Inv(derive, w) && w.calls == before.calls - {c} && NoLeaseOf(w.svc.consumers, name) && name in w.keychain
    ensures Inv(derive, w.(since := w.since[name := {w.keychain[name]}]))
  {
    var w' := w.(since := w.since[name := {w.keychain[name]}]);
    OthersFree(derive, before, c);
    forall h ensures Owned(w', h) == Owned(w, h) {}
    assert LedgerInv(w');
    TicketsStay(w, w');
    forall d | d in w.calls ensures CallOk(derive, w', w.calls[d]) {
      assert CallOk(derive, w, w.calls[d]) && !Holding(w.calls[d]);
    }
    ForgottenByLeases(derive, w, name, w');
  }

  lemma ForgottenByLeases(derive: Bytes -> Option<PublicKey>, w: World, name: string, w': World)
    requires LeasesInv(derive, w) && NoLeaseOf(w.svc.consumers, name)
    requires w' == w.(since := w'.since) && w'.since - {name} == w.since - {name}
    ensures LeasesInv(derive, w')
  {
    var cs := w.svc.consumers;
    forall t, id | Live(cs, t, id)
      ensures SecretOk(derive, w'.config, w'.since, w'.mem, cs[t].leases[id].meta, cs[t].leases[id].secret)
    {
      var held := cs[t].leases[id].meta.profile;
      assert held in w.since - {name} && (w'.since - {name})[held] == (w.since - {name})[held];
    }
  }

  lemma TicketsStay(w: World, w': World)
    requires TicketsInv(w) && w'.calls == w.calls && w'.svc == w.svc && w'.clock == w.clock && w.issued <= w'.issued
    ensures TicketsInv(w')
  {
    forall d | TicketAt(w', d).Some? ensures TicketAt(w', d) == TicketAt(w, d) && TicketOk(w', TicketAt(w', d).value) {
      assert TicketOk(w, TicketAt(w, d).value);
    }
  }

  // ---------------------------------------------------------------- the last step of Grant

  /** Once its consumer exists, a ticket is no longer new. */
  function Known(g: Ticket): Ticket {
    g.(isNew := false)
  }

  function WithConsumer(w: World, c: nat, s2: State<nat>): World
    requires c in w.calls && w.calls[c].GrantStamped?
  {
    w.(svc := s2, calls := w.calls[c := w.calls[c].(g := Known(w.calls[c].g))])
  }

  lemma AdmitLeases(s: State<nat>, g: Ticket, now: int, at: int)
    requires Admit(s, g, now, at).Some?
    ensures var s2 := Admit(s, g, now, at).value;
            (forall t, id :: Live(s2.consumers, t, id) <==> Live(s.consumers, t, id)) &&
            (forall t, id :: Live(s.consumers, t, id) ==> s2.consumers[t] == s.consumers[t]) &&
            (forall o :: Holds(s2, o) == Holds(s, o)) && s2.management == s.management
  {
    if g.isNew {
      AdmitNew(s, g, now, at);
    }
  }

  lemma AdmitTickets(derive: Bytes -> Option<PublicKey>, w: World, c: nat)
    requires Inv(derive, w) && c in w.calls && w.calls[c].GrantStamped? && w.calls[c].g.isNew
    requires Admit(w.svc, w.calls[c].g, w.calls[c].lease.grantedAt, w.clock).Some?
    ensures var w' := WithConsumer(w, c, Admit(w.svc, w.calls[c].g, w.calls[c].lease.grantedAt, w.clock).value);
            ConsumersInv(w') && TicketsInv(w')
  {
    var g := w.calls[c].g;
    var w' := WithConsumer(w, c, Admit(w.svc, g, w.calls[c].lease.grantedAt, w.clock).value);
    assert TicketAt(w, c) == Some(g) && TicketOk(w, g) && CallOk(derive, w, w.calls[c]);
    forall d | TicketAt(w', d).Some?
      ensures TicketOk(w', TicketAt(w', d).value) && (d != c ==> TicketAt(w', d) == TicketAt(w, d))
    {
      if d != c {
        assert TicketOk(w, TicketAt(w, d).value);
      }
    }
  }

  lemma AdmitKeeps(derive: Bytes -> Option<PublicKey>, w: World, c: nat)
    requires Inv(derive, w) && c in w.calls && w.calls[c].GrantStamped?
    requires Admit(w.svc, w.calls[c].g, w.calls[c].lease.grantedAt, w.clock).Some?
    ensures Inv(derive, WithConsumer(w, c, Admit(w.svc, w.calls[c].g, w.calls[c].lease.grantedAt, w.clock).value))
  {
    var g := w.calls[c].g;
    var s2 := Admit(w.svc, g, w.calls[c].lease.grantedAt, w.clock).value;
    var w' := WithConsumer(w, c, s2);
    AdmitLeases(w.svc, g, w.calls[c].lease.grantedAt, w.clock);
    if g.isNew {
      AdmitTickets(derive, w, c);
      forall h ensures Owned(w', h) == Owned(w, h) {}
      assert LedgerInv(w');
      AdmitCalls(derive, w, c, s2);
    } else {
      assert w' == w;
    }
  }

  lemma AdmitCalls(derive: Bytes -> Option<PublicKey>, w: World, c: nat, s2: State<nat>)
    requires CallsInv(derive, w) && c in w.calls && w.calls[c].GrantStamped?
    requires forall t, id :: Live(s2.consumers, t, id) <==> Live(w.svc.consumers, t, id)
    requires forall t, id :: Live(s2.consumers, t, id) ==> t in w.svc.consumers && s2.consumers[t] == w.svc.consumers[t]
    requires s2.management == w.svc.management
    ensures CallsInv(derive, WithConsumer(w, c, s2))
  {
    var w' := WithConsumer(w, c, s2);
    forall d | d in w.calls ensures CallOk(derive, w', w'.calls[d]) {
      assert CallOk(derive, w, w.calls[d]);
    }
  }

  /** The lease takes the buffer over from the call. */
  function Installed(w: World, c: nat): World
    requires c in w.calls && w.calls[c].GrantStamped? && w.calls[c].g.token in w.svc.consumers
  {
    HandedOver(w.(svc := Install(w.svc, w.calls[c].g, w.calls[c].lease, w.calls[c].buf, w.clock)), c)
  }

  ghost predicate ReadyToInstall(derive: Bytes -> Option<PublicKey>, w: World, c: nat) {
    && Inv(derive, w) && c in w.calls && w.calls[c].GrantStamped?
    && !w.calls[c].g.isNew && w.calls[c].g.token in w.svc.consumers
    && forall id :: Live(w.svc.consumers, w.calls[c].g.token, id) ==>
         w.svc.consumers[w.calls[c].g.token].leases[id].meta.profile != w.calls[c].lease.profile
  }

  lemma InstalledLedger(derive: Bytes -> Option<PublicKey>, w: World, c: nat)
    requires ReadyToInstall(derive, w, c)
    ensures LedgerInv(Installed(w, c))
  {
    var k, w' := w.calls[c], Installed(w, c);
    assert CallOk(derive, w, k);
    var owner := Stored(LeaseOwner(k.g.token, k.lease.id));
    InstallHolds(w.svc, k.g, k.lease, k.buf, w.clock);
    forall h
      ensures Owned(w', h) == if h == owner then Some(k.buf) else if h == InFlight(c) then None else Owned(w, h)
    {
    }
    BufferChangesHands(w, c, owner, k.buf, w');
  }

  /** A call's buffer becomes another owner's, and nothing else changes. */
  lemma BufferChangesHands(w: World, c: nat, owner: Holder, buf: nat, w': World)
    requires LedgerInv(w) && w'.mem == w.mem && Owned(w, InFlight(c)) == Some(buf) && Owned(w, owner) == None
    requires forall h ::
               Owned(w', h) == if h == owner then Some(buf) else if h == InFlight(c) then None else Owned(w, h)
    ensures LedgerInv(w')
  {
    forall b | b in w'.mem && (forall h :: Owned(w', h) != Some(b)) ensures AllZero(w'.mem[b]) {
      assert Owned(w', owner) == Some(buf);
      forall h ensures Owned(w, h) != Some(b) {
        assert Owned(w', h) != Some(b);
      }
    }
  }

  lemma InstalledLeases(derive: Bytes -> Option<PublicKey>, w: World, c: nat)
    requires ReadyToInstall(derive, w, c)
    ensures LeasesInv(derive, Installed(w, c))
  {
    var k, w' := w.calls[c], Installed(w, c);
    var cs, cs' := w.svc.consumers, w'.svc.consumers;
    assert CallOk(derive, w, k);
    assert TicketAt(w, c) == Some(k.g) && TicketOk(w, k.g);
    forall t, id | Live(cs', t, id)
      ensures SecretOk(derive, w'.config, w'.since, w'.mem, cs'[t].leases[id].meta, cs'[t].leases[id].secret)
      ensures LeaseFits(cs'[t].meta, id, cs'[t].leases[id].meta) && id in w'.issued
    {
      if t != k.g.token || id != k.lease.id {
        assert Live(cs, t, id) && cs'[t].leases[id] == cs[t].leases[id] && cs'[t].meta == cs[t].meta;
      }
    }
    forall t, i, j | Live(cs', t, i) && Live(cs', t, j) && i != j
      ensures cs'[t].leases[i].meta.profile != cs'[t].leases[j].meta.profile
    {
      if t == k.g.token && i == k.lease.id {
        assert Live(cs, t, j);
      } else if t == k.g.token && j == k.lease.id {
        assert Live(cs, t, i);
      } else {
        assert Live(cs, t, i) && Live(cs, t, j);
      }
    }
  }

  lemma InstalledKeeps(derive: Bytes -> Option<PublicKey>, w: World, c: nat)
    requires ReadyToInstall(derive, w, c)
    ensures Inv(derive, Installed(w, c))
  {
    var w' := Installed(w, c);
    OthersFree(derive, w, c);
    InstalledLedger(derive, w, c);
    InstalledLeases(derive, w, c);
    InstalledTickets(w, c);
    assert ConsumersInv(w');
  }

  lemma InstalledTickets(w: World, c: nat)
    requires TicketsInv(w) && c in w.calls && w.calls[c].GrantStamped? && w.calls[c].g.token in w.svc.consumers
    ensures TicketsInv(Installed(w, c))
  {
    var w' := Installed(w, c);
    forall d | TicketAt(w', d).Some? ensures TicketAt(w', d) == TicketAt(w, d) && TicketOk(w', TicketAt(w', d).value) {
      assert TicketOk(w, TicketAt(w, d).value);
    }
  }

  lemma WipedTwice(mem: map<nat, Bytes>, s: State<nat>, s1: State<nat>, s2: State<nat>, s3: State<nat>,
                   s4: State<nat>, owner: Owner)
    requires Shrinks(s, s1) && Shrinks(s2, s3)
    requires forall o :: Holds(s2, o) == Holds(s1, o)
    requires forall o :: o != owner ==> Holds(s4, o) == Holds(s3, o)
    requires Holds(s, owner) == None
    ensures Wiped(mem, s, s4) == Wiped(Wiped(mem, s, s1), s2, s3)
  {
    assert HoldsOnly(s1, s) && HoldsOnly(s3, s2);
    forall b | b in mem ensures Dropped(s, s4, b) <==> Dropped(s, s1, b) || Dropped(s2, s3, b) {
      DroppedTwice(s, s1, s2, s3, s4, owner, b);
    }
  }

  lemma DroppedTwice(s: State<nat>, s1: State<nat>, s2: State<nat>, s3: State<nat>, s4: State<nat>, owner: Owner,
                     b: nat)
    requires HoldsOnly(s1, s) && HoldsOnly(s3, s2)
    requires forall o :: Holds(s2, o) == Holds(s1, o)
    requires forall o :: o != owner ==> Holds(s4, o) == Holds(s3, o)
    requires Holds(s, owner) == None
    ensures Dropped(s, s4, b) <==> Dropped(s, s1, b) || Dropped(s2, s3, b)
  {
    if Dropped(s, s4, b) {
      var o :| Holds(s, o) == Some(b) && Holds(s4, o).None?;
      assert Holds(s3, o).None?;
    }
    if Dropped(s, s1, b) {
      var o :| Holds(s, o) == Some(b) && Holds(s1, o).None?;
      assert Holds(s4, o).None?;
    }
    if Dropped(s2, s3, b) {
      var o :| Holds(s2, o) == Some(b) && Holds(s3, o).None?;
      assert Holds(s, o) == Some(b);
    }
  }

  lemma InstallGrantKeeps(derive: Bytes -> Option<PublicKey>, w: World, c: nat, granted: bool, w': World)
    requires Inv(derive, w) && InstallGrantStep(w, c, granted, w')
    ensures Inv(derive, w')
  {
    var k := w.calls[c];
    var now := k.lease.grantedAt;
    var es :| SweepPlan(w.svc, es, now, w.clock) &&
              InstallsAfterSweep(EndAll(w.svc, es, w.clock), w'.svc, k.g, k.lease, k.buf, now, w.clock, granted);
    var s1 := EndAll(w.svc, es, w.clock);
    EndAllShrinks(w.svc, es, w.clock);
    GuardedKeeps(derive, w, s1);
    if granted {
      InstallAdmitted(derive, w, c, s1, w');
    } else {
      ReturnedKeeps(derive, Guarded(w, s1), c);
    }
  }

  /** The world in which the consumer is admitted and its old lease for the profile is ended. */
  ghost function MadeRoom(w: World, c: nat, s1: State<nat>, s2: State<nat>, es: seq<Ending>): World
    requires c in w.calls && w.calls[c].GrantStamped?
  {
    Guarded(WithConsumer(Guarded(w, s1), c, s2), EndAll(s2, es, w.clock))
  }

  lemma RoomIsReady(derive: Bytes -> Option<PublicKey>, w: World, c: nat, s1: State<nat>, s2: State<nat>,
                    es: seq<Ending>)
    requires c in w.calls && w.calls[c].GrantStamped? && Inv(derive, Guarded(w, s1))
    requires Admit(s1, w.calls[c].g, w.calls[c].lease.grantedAt, w.clock) == Some(s2)
    requires ReplacePlan(s2, es, w.calls[c].g.token, w.calls[c].g, w.calls[c].lease.profile, w.clock)
    requires w.calls[c].g.token in EndAll(s2, es, w.clock).consumers
    ensures ReadyToInstall(derive, MadeRoom(w, c, s1, s2, es), c)
  {
    AdmitKeeps(derive, Guarded(w, s1), c);
    EndAllShrinks(s2, es, w.clock);
    GuardedKeeps(derive, WithConsumer(Guarded(w, s1), c, s2), EndAll(s2, es, w.clock));
    ReplacedGone(s2, es, w.calls[c].g, w.calls[c].lease.profile, w.clock);
  }

  lemma InstallAdmitted(derive: Bytes -> Option<PublicKey>, w: World, c: nat, s1: State<nat>, w': World)
    requires c in w.calls && w.calls[c].GrantStamped? && CallOk(derive, w, w.calls[c]) && Shrinks(w.svc, s1)
    requires Inv(derive, Guarded(w, s1))
    requires w' == HandedOver(Guarded(w, w'.svc), c)
    requires InstallsAfterSweep(s1, w'.svc, w.calls[c].g, w.calls[c].lease, w.calls[c].buf, w.calls[c].lease.grantedAt,
                                w.clock, true)
    ensures Inv(derive, w')
  {
    var k := w.calls[c];
    var s2 := Admit(s1, k.g, k.lease.grantedAt, w.clock).value;
    var es :| InstallsOver(s2, es, w'.svc, k.g, k.lease, k.buf, w.clock);
    RoomIsReady(derive, w, c, s1, s2, es);
    InstalledKeeps(derive, MadeRoom(w, c, s1, s2, es), c);
    InstallMeets(w, c, s1, s2, es, w');
  }

  lemma InstallMeets(w: World, c: nat, s1: State<nat>, s2: State<nat>, es: seq<Ending>, w': World)
    requires c in w.calls && w.calls[c].GrantStamped? && Shrinks(w.svc, s1)
    requires w' == HandedOver(Guarded(w, w'.svc), c)
    requires Holds(w.svc, LeaseOwner(w.calls[c].g.token, w.calls[c].lease.id)) == None
    requires Admit(s1, w.calls[c].g, w.calls[c].lease.grantedAt, w.clock) == Some(s2)
    requires w.calls[c].g.token in EndAll(s2, es, w.clock).consumers
    requires w'.svc == Install(EndAll(s2, es, w.clock), w.calls[c].g, w.calls[c].lease, w.calls[c].buf, w.clock)
    ensures w' == Installed(MadeRoom(w, c, s1, s2, es), c)
  {
    var k, s3 := w.calls[c], EndAll(s2, es, w.clock);
    InstallMemory(w, c, s1, s2, s3, es);
    SameInstall(s3, k.g, k.lease, k.buf, w.clock);
    var w3 := MadeRoom(w, c, s1, s2, es);
    assert w'.svc == Installed(w3, c).svc;
    assert w'.calls == Installed(w3, c).calls;
  }

  lemma InstallMemory(w: World, c: nat, s1: State<nat>, s2: State<nat>, s3: State<nat>, es: seq<Ending>)
    requires c in w.calls && w.calls[c].GrantStamped? && Shrinks(w.svc, s1)
    requires Holds(w.svc, LeaseOwner(w.calls[c].g.token, w.calls[c].lease.id)) == None
    requires Admit(s1, w.calls[c].g, w.calls[c].lease.grantedAt, w.clock) == Some(s2)
    requires s3 == EndAll(s2, es, w.clock) && w.calls[c].g.token in s3.consumers
    ensures Wiped(w.mem, w.svc, Install(s3, w.calls[c].g, w.calls[c].lease, w.calls[c].buf, w.clock)) ==
            Wiped(Wiped(w.mem, w.svc, s1), s2, s3)
  {
    var k := w.calls[c];
    AdmitLeases(s1, k.g, k.lease.grantedAt, w.clock);
    EndAllShrinks(s2, es, w.clock);
    InstallHolds(s3, k.g, k.lease, k.buf, w.clock);
    WipedTwice(w.mem, w.svc, s1, s2, s3, Install(s3, k.g, k.lease, k.buf, w.clock),
               LeaseOwner(k.g.token, k.lease.id));
  }

  lemma SameInstall(s: State<nat>, g: Ticket, lease: Lease, buf: nat, at: int)
    requires g.token in s.consumers
    ensures Install(s, g, lease, buf, at) == Install(s, Known(g), lease, buf, at)
  {
  }

  /** Once the replaced leases are ended, the consumer has none for the profile. */
  lemma ReplacedGone(s: State<nat>, es: seq<Ending>, g: Ticket, profile: string, at: int)
    requires ReplacePlan(s, es, g.token, g, profile, at)
    ensures var s' := EndAll(s, es, at);
            forall id :: Live(s'.consumers, g.token, id) ==> s'.consumers[g.token].leases[id].meta.profile != profile
  {
    EndAllRemoves(s, es, at);
    var s' := EndAll(s, es, at);
    forall id | Live(s'.consumers, g.token, id) ensures s'.consumers[g.token].leases[id].meta.profile != profile {
      assert (g.token, id) !in LeaseKeys(es);
      assert (g.token, id) in LeasesOf(s.consumers, g.token);
    }
  }

  // ---------------------------------------------------------------- opening a management session

  lemma OpenBeginKeeps(derive: Bytes -> Option<PublicKey>, w: World, c: nat, token: Token, stamp: int, w': World)
    requires Inv(derive, w) && OpenBeginStep(w, c, token, stamp, w')
    ensures Inv(derive, w')
  {
    var k := w.calls[c];
    var session := Session(k.name, k.buf, stamp + MANAGEMENT_TTL);
    var w1 := Guarded(w, SessionsSwept(w.svc, w.clock));
    GuardedKeeps(derive, w, w1.svc);
    OpenedMemory(w, token, session);
    OpenedKeeps(derive, w1, c, token, session, w');
  }

  /** The session takes the buffer over from the call. */
  lemma OpenedKeeps(derive: Bytes -> Option<PublicKey>, w: World, c: nat, token: Token, session: Session<nat>,
                    w': World)
    requires Inv(derive, w) && c in w.calls && w.calls[c].BeginOpening? && token !in w.issued
    requires session.secret == w.calls[c].buf && session.profile == w.calls[c].name
    requires w'.svc.consumers == w.svc.consumers && w'.svc.management == w.svc.management[token := session]
    requires w' == HandedOver(w, c).(svc := w'.svc, issued := w.issued + {token})
    ensures Inv(derive, w')
  {
    OthersFree(derive, w, c);
    assert CallOk(derive, w, w.calls[c]);
    OpenedLedger(derive, w, c, token, session, w');
    OpenedTickets(w, c, token, w');
    assert LeasesInv(derive, w');
  }

  lemma OpenedTickets(w: World, c: nat, token: Token, w': World)
    requires TicketsInv(w) && c in w.calls && w.calls[c].BeginOpening?
    requires w'.svc.consumers == w.svc.consumers && w' == HandedOver(w, c).(svc := w'.svc, issued := w.issued + {token})
    ensures TicketsInv(w')
  {
    forall d | TicketAt(w', d).Some? ensures TicketAt(w', d) == TicketAt(w, d) && TicketOk(w', TicketAt(w', d).value) {
      assert TicketOk(w, TicketAt(w, d).value);
    }
  }

  lemma OpenedMemory(w: World, token: Token, session: Session<nat>)
    requires token !in w.svc.management
    ensures Wiped(w.mem, w.svc, SessionOpened(w.svc, token, session, w.clock, w.clock)) ==
            Wiped(w.mem, w.svc, SessionsSwept(w.svc, w.clock))
  {
    var s1, s2 := SessionsSwept(w.svc, w.clock), SessionOpened(w.svc, token, session, w.clock, w.clock);
    OpenHolds(w.svc, token, session, w.clock, w.clock);
    assert Holds(w.svc, SessionOwner(token)) == None;
    forall b | b in w.mem ensures Dropped(w.svc, s2, b) <==> Dropped(w.svc, s1, b) {
      if o :| Holds(w.svc, o) == Some(b) && Holds(s2, o).None? {
        assert Holds(s1, o).None?;
      }
      if o :| Holds(w.svc, o) == Some(b) && Holds(s1, o).None? {
        assert Holds(s2, o).None?;
      }
    }
  }

  lemma OpenedLedger(derive: Bytes -> Option<PublicKey>, w: World, c: nat, token: Token, session: Session<nat>,
                     w': World)
    requires Inv(derive, w) && c in w.calls && w.calls[c].BeginOpening? && token !in w.svc.management
    requires w'.mem == w.mem && w'.calls == w.calls - {c} && w'.svc.consumers == w.svc.consumers
    requires session.secret == w.calls[c].buf && w'.svc.management == w.svc.management[token := session]
    ensures LedgerInv(w')
  {
    var owner, buf := Stored(SessionOwner(token)), w.calls[c].buf;
    forall h ensures Owned(w', h) == if h == owner then Some(buf) else if h == InFlight(c) then None else Owned(w, h) {}
    BufferChangesHands(w, c, owner, buf, w');
  }

  // ---------------------------------------------------------------- every step

  lemma TickKeeps(derive: Bytes -> Option<PublicKey>, w: World, t: int)
    requires Inv(derive, w) && t >= w.clock
    ensures Inv(derive, w.(clock := t))
  {
    var w' := w.(clock := t);
    forall h ensures Owned(w', h) == Owned(w, h) {}
    forall d | d in w.calls ensures CallOk(derive, w', w.calls[d]) {
      assert CallOk(derive, w, w.calls[d]);
    }
    forall d | TicketAt(w', d).Some? ensures TicketAt(w', d) == TicketAt(w, d) && TicketOk(w', TicketAt(w', d).value) {
      assert TicketOk(w, TicketAt(w, d).value);
    }
  }

  /** A step that is one section that only takes away. */
  lemma SectionKeeps(derive: Bytes -> Option<PublicKey>, w: World, a: Action, w': World)
    requires Inv(derive, w) && Step(derive, w, a, w')
    requires a.Ticker? || a.Look? || a.RevokeCall? || a.AdminRevokeCall? || a.Shutdown?
    ensures Inv(derive, w')
  {
    match a {
      case Ticker(now) => TickerShrinks(w, now, w');
      case Look => SweptShrinks(w.svc, w'.svc, w.clock, w.clock);
      case RevokeCall(token, id) =>
        var answer :| Revokes(w.svc, w'.svc, token, id, w.clock, w.clock, answer);
        RevokesShrinks(w.svc, w'.svc, token, id, w.clock, w.clock, answer);
      case AdminRevokeCall(consumerId, id) =>
        var answer :| AdminRevokes(w.svc, w'.svc, consumerId, id, w.clock, w.clock, answer);
        AdminRevokesShrinks(w.svc, w'.svc, consumerId, id, w.clock, w.clock, answer);
      case Shutdown =>
    }
    GuardedKeeps(derive, w, w'.svc);
  }

  predicate OfGrant(a: Action) {
    || a.StartGrantNew? || a.StartGrantKnown? || a.LockGrant? || a.ReadGrant? || a.StampGrant? || a.InstallGrant?
    || a.StartExec?
  }

  predicate OfManagement(a: Action) {
    a.LockBegin? || a.ReadBegin? || a.OpenBegin? || a.EndManagement?
  }

  predicate OfWriting(a: Action) {
    a.LockWrite? || a.Authorise? || a.Keep? || a.Save? || a.Finish?
  }

  predicate OfDeletion(a: Action) {
    a.LockDelete? || a.ApproveDelete? || a.ClearDelete? || a.SaveDelete? || a.FinishDelete?
  }

  lemma GrantKeeps(derive: Bytes -> Option<PublicKey>, w: World, a: Action, w': World)
    requires Inv(derive, w) && Step(derive, w, a, w') && OfGrant(a)
    ensures Inv(derive, w')
  {
    match a {
      case StartGrantNew(c, g, name, reason, seconds, consumerSeconds) =>
        StartGrantNewKeeps(derive, w, c, g, name, reason, seconds, consumerSeconds, w');
      case StartGrantKnown(c, token, now, name, reason, seconds) =>
        StartGrantKnownKeeps(derive, w, c, token, now, name, reason, seconds, w');
      case LockGrant(c) => LockGrantKeeps(derive, w, c, w');
      case ReadGrant(c, buf) => ReadGrantKeeps(derive, w, c, buf, w');
      case StampGrant(c, leaseId) => StampGrantKeeps(derive, w, c, leaseId, w');
      case InstallGrant(c, granted) => InstallGrantKeeps(derive, w, c, granted, w');
      case StartExec(c, token, id, buf) => StartExecKeeps(derive, w, c, token, id, buf, w');
    }
  }

  lemma ManagementKeeps(derive: Bytes -> Option<PublicKey>, w: World, a: Action, w': World)
    requires Inv(derive, w) && Step(derive, w, a, w') && OfManagement(a)
    ensures Inv(derive, w')
  {
    if a.LockBegin? {
      LockBeginKeeps(derive, w, a.c, a.name, w');
    } else if a.ReadBegin? {
      ReadBeginKeeps(derive, w, a.c, a.buf, w');
    } else {
      SessionKeeps(derive, w, a, w');
    }
  }

  lemma SessionKeeps(derive: Bytes -> Option<PublicKey>, w: World, a: Action, w': World)
    requires Inv(derive, w) && Step(derive, w, a, w') && (a.OpenBegin? || a.EndManagement?)
    ensures Inv(derive, w')
  {
    if a.OpenBegin? {
      OpenBeginKeeps(derive, w, a.c, a.token, a.stamp, w');
    } else {
      GuardedKeeps(derive, w, w'.svc);
    }
  }

  lemma WritingKeeps(derive: Bytes -> Option<PublicKey>, w: World, a: Action, w': World)
    requires Inv(derive, w) && Step(derive, w, a, w') && OfWriting(a)
    ensures Inv(derive, w')
  {
    match a {
      case LockWrite(c, job, name, profile, secret) => LockWriteKeeps(derive, w, c, job, name, profile, secret, w');
      case Authorise(c, token) => AuthoriseKeeps(derive, w, c, token, w');
      case Keep(c) => KeepKeeps(derive, w, c, w');
      case Save(c) => SaveKeeps(derive, w, c, w');
      case Finish(c) => FinishKeeps(derive, w, c, w');
    }
  }

  lemma DeletionKeeps(derive: Bytes -> Option<PublicKey>, w: World, a: Action, w': World)
    requires Inv(derive, w) && Step(derive, w, a, w') && OfDeletion(a)
    ensures Inv(derive, w')
  {
    if a.LockDelete? {
      LockDeleteKeeps(derive, w, a.c, a.name, w');
    } else if a.ApproveDelete? {
      ApproveDeleteKeeps(derive, w, a.c, w');
    } else {
      DeletionGoesOn(derive, w, a, w');
    }
  }

  lemma DeletionGoesOn(derive: Bytes -> Option<PublicKey>, w: World, a: Action, w': World)
    requires Inv(derive, w) && Step(derive, w, a, w') && (a.ClearDelete? || a.SaveDelete? || a.FinishDelete?)
    ensures Inv(derive, w')
  {
    match a {
      case ClearDelete(c) => ClearDeleteKeeps(derive, w, c, w');
      case SaveDelete(c) => SaveDeleteKeeps(derive, w, c, w');
      case FinishDelete(c) => FinishDeleteKeeps(derive, w, c, w');
    }
  }

  lemma StepKeeps(derive: Bytes -> Option<PublicKey>, w: World, a: Action, w': World)
    requires Inv(derive, w) && Step(derive, w, a, w')
    ensures Inv(derive, w')
  {
    if OfGrant(a) {
      GrantKeeps(derive, w, a, w');
    } else if OfManagement(a) {
      ManagementKeeps(derive, w, a, w');
    } else if OfWriting(a) {
      WritingKeeps(derive, w, a, w');
    } else if OfDeletion(a) {
      DeletionKeeps(derive, w, a, w');
    } else if a.Tick? {
      TickKeeps(derive, w, a.t);
    } else if a.FinishExec? || a.Fail? {
      ReturnedKeeps(derive, w, a.c);
    } else {
      SectionKeeps(derive, w, a, w');
    }
  }

  lemma InitHolds(derive: Bytes -> Option<PublicKey>, w: World)
    requires Init(w)
    ensures Inv(derive, w)
  {
    forall h ensures Owned(w, h) == None {}
  }

  /** The invariant holds throughout every run. */
  lemma {:induction false} RunKeeps(derive: Bytes -> Option<PublicKey>, run: seq<World>, acts: seq<Action>, i: nat)
    requires Run(derive, run, acts) && i < |run|
    ensures Inv(derive, run[i])
  {
    if i == 0 {
      InitHolds(derive, run[0]);
    } else {
      RunKeeps(derive, run, acts, i - 1);
      assert StepAt(derive, run, acts, i - 1);
      StepKeeps(derive, run[i - 1], acts[i - 1], run[i]);
    }
  }
}
