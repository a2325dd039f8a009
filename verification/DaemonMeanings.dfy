/**
  What each critical section answers and does, said of the leases, consumers, sessions and journal before
  and after, and of nothing else: what has expired plays no part, whether it has been swept away or not.
*/
module DaemonMeanings {
  import opened Common
  import opened DaemonState
  import opened DaemonSections
  import opened DaemonSectionLemmas
  import opened LazyExpiry

  /** The consumer has not expired at `now`. */
  predicate Known(s: State<nat>, t: Token, now: int) {
    t in s.consumers && now < s.consumers[t].meta.expiresAt
  }

  /** Neither has the lease, or its consumer. */
  predicate Current(s: State<nat>, t: Token, id: string, now: int) {
    Known(s, t, now) && id in s.consumers[t].leases && now < s.consumers[t].leases[id].meta.expiresAt
  }

  /** The consumer is still there, and is who it was. */
  predicate Stays(s: State<nat>, s': State<nat>, t: Token) {
    t in s.consumers && t in s'.consumers && s'.consumers[t].meta == s.consumers[t].meta
  }

  /** The lease is still there, with its secret. */
  predicate LeaseStays(s: State<nat>, s': State<nat>, t: Token, id: string) {
    Live(s.consumers, t, id) && Live(s'.consumers, t, id) && s'.consumers[t].leases[id] == s.consumers[t].leases[id]
  }

  /** Just what is current stays, and sessions are not touched. */
  ghost predicate OnlyCurrentStay(s: State<nat>, s': State<nat>, now: int) {
    && (forall t :: t in s'.consumers <==> Known(s, t, now))
    && (forall t, id :: Live(s'.consumers, t, id) <==> Current(s, t, id, now))
    && (forall t :: t in s'.consumers ==> Stays(s, s', t))
    && (forall t, id :: Live(s'.consumers, t, id) ==> LeaseStays(s, s', t, id))
    && s'.management == s.management
  }

  // ---------------------------------------------------------------- sweeping and looking

  lemma SweepMeans(s: State<nat>, s': State<nat>, now: int, at: int)
    requires Swept(s, s', now, at)
    ensures OnlyCurrentStay(s, s', now)
  {
    SweptHolds(s, s', now, at);
  }

  /** A status is answered exactly to the token of a consumer that has not expired. */
  lemma StatusMeans(s: State<nat>, s': State<nat>, token: Token, now: int, at: int, answer: Option<PublicConsumer>)
    requires Reports(s, s', token, now, at, answer)
    ensures OnlyCurrentStay(s, s', now)
    ensures answer.Some? <==> token != "" && Known(s, token, now)
    ensures answer.Some? ==>
              && answer.value.meta == s.consumers[token].meta
              && (forall id :: id in answer.value.leases <==> Current(s, token, id, now))
              && (forall id :: id in answer.value.leases ==>
                    answer.value.leases[id] == s.consumers[token].leases[id].meta)
  {
    SweptHolds(s, s', now, at);
  }

  /** A grant finds its consumer under exactly the same condition. */
  lemma LookUpMeans(s: State<nat>, s': State<nat>, token: Token, now: int, at: int, answer: Lookup)
    requires GrantLooksUp(s, s', token, now, at, answer)
    ensures OnlyCurrentStay(s, s', now)
    ensures answer.Found? <==> token != "" && Known(s, token, now)
    ensures answer.Found? ==>
              var m := s.consumers[token].meta;
              answer.id == m.id && answer.title == m.title && answer.expiresAt == m.expiresAt
  {
    SweptHolds(s, s', now, at);
  }

  /** Execution is given a lease exactly when it is named, current and no SSH lease. */
  lemma ExecuteMeans(s: State<nat>, s': State<nat>, token: Token, id: string, now: int, at: int,
                     answer: Option<ActiveLease<nat>>)
    requires LooksUpLease(s, s', token, id, now, at, answer)
    ensures OnlyCurrentStay(s, s', now)
    ensures answer.Some? <==>
            token != "" && Current(s, token, id, now) && s.consumers[token].leases[id].meta.kind != Ssh
    ensures answer.Some? ==> answer.value == s.consumers[token].leases[id]
  {
    SweptHolds(s, s', now, at);
  }

  // ---------------------------------------------------------------- revoking

  /** One more event, of this note. */
  predicate OneMore(s: State<nat>, s': State<nat>, note: Note, at: int) {
    |s'.history| > 0 && s'.history[..|s'.history| - 1] == s.history &&
    s'.history[|s'.history| - 1].note == note && s'.history[|s'.history| - 1].at == at
  }

  /** Revoking one lease: it is gone and journalled as revoked, and all else that is current stays. */
  ghost predicate OneRevoked(s: State<nat>, s': State<nat>, token: Token, id: string, detail: string, now: int,
                             at: int)
  {
    && Current(s, token, id, now)
    && (forall t :: t in s'.consumers <==> Known(s, t, now))
    && (forall t, i :: Live(s'.consumers, t, i) <==> Current(s, t, i, now) && !(t == token && i == id))
    && (forall t :: t in s'.consumers ==> Stays(s, s', t))
    && (forall t, i :: Live(s'.consumers, t, i) ==> LeaseStays(s, s', t, i))
    && s'.management == s.management
    && var c := s.consumers[token];
       exists swept :: Swept(s, swept, now, at) &&
         OneMore(swept, s', Note(Revoked, c.leases[id].meta.profile, c.meta.id, c.meta.title, c.leases[id].meta.reason,
                                 detail), at)
  }

  /**
    Revoking a consumer: it is gone with all its leases, its end is journalled last, and all else that is
    current stays.
  */
  ghost predicate ConsumerRevoked(s: State<nat>, s': State<nat>, token: Token, detail: string, now: int, at: int) {
    && Known(s, token, now)
    && (forall t :: t in s'.consumers <==> Known(s, t, now) && t != token)
    && (forall t, i :: Live(s'.consumers, t, i) <==> Current(s, t, i, now) && t != token)
    && (forall t :: t in s'.consumers ==> Stays(s, s', t))
    && (forall t, i :: Live(s'.consumers, t, i) ==> LeaseStays(s, s', t, i))
    && s'.management == s.management
    && |s'.history| > 0
    && s'.history[|s'.history| - 1].note ==
       Note(ConsumerEnded, "", s.consumers[token].meta.id, s.consumers[token].meta.title, "", detail)
  }

  /** What a revocation answers and does, after the sweep. */
  ghost predicate RevocationMeans(s: State<nat>, s': State<nat>, token: Token, id: string, consumerDetail: string,
                                  leaseDetail: string, now: int, at: int, answer: bool)
  {
    if id == "" then
      && (answer <==> Known(s, token, now))
      && (if answer then ConsumerRevoked(s, s', token, consumerDetail, now, at) else OnlyCurrentStay(s, s', now))
    else
      && (answer <==> Current(s, token, id, now))
      && (if answer then OneRevoked(s, s', token, id, leaseDetail, now, at) else OnlyCurrentStay(s, s', now))
  }

  lemma RevocationAfterSweep(s: State<nat>, s1: State<nat>, s': State<nat>, token: Token, id: string,
                             consumerDetail: string, leaseDetail: string, now: int, at: int, answer: bool)
    requires Swept(s, s1, now, at)
    requires RevokesAfterSweep(s1, s', token, id, consumerDetail, leaseDetail, at, answer)
    ensures RevocationMeans(s, s', token, id, consumerDetail, leaseDetail, now, at, answer)
  {
    SweepMeans(s, s1, now, at);
    if token in s1.consumers && id == "" {
      WholeConsumer(s, s1, s', token, consumerDetail, now, at);
    } else if token in s1.consumers && id in s1.consumers[token].leases {
      OneLease(s, s1, s', token, id, leaseDetail, now, at);
    }
  }

  lemma OneLease(s: State<nat>, s1: State<nat>, s': State<nat>, token: Token, id: string, detail: string, now: int,
                 at: int)
    requires Swept(s, s1, now, at) && OnlyCurrentStay(s, s1, now)
    requires LeaseRevoked(s1, s', token, id, detail, at)
    ensures OneRevoked(s, s', token, id, detail, now, at)
  {
    var c := s.consumers[token];
    var note := Note(Revoked, c.leases[id].meta.profile, c.meta.id, c.meta.title, c.leases[id].meta.reason, detail);
    assert LeaseStays(s, s1, token, id) && Stays(s, s1, token);
    assert s'.history == s1.history + [s'.history[|s1.history|]];
    assert OneMore(s1, s', note, at);
    forall t, i ensures Live(s'.consumers, t, i) <==> Live(s1.consumers, t, i) && !(t == token && i == id) {}
    forall t, i | Live(s'.consumers, t, i) ensures LeaseStays(s, s', t, i) {
      assert LeaseStays(s, s1, t, i);
    }
    forall t | t in s'.consumers ensures Stays(s, s', t) {
      assert Stays(s, s1, t);
    }
  }

  lemma WholeConsumer(s: State<nat>, s1: State<nat>, s': State<nat>, token: Token, detail: string, now: int, at: int)
    requires OnlyCurrentStay(s, s1, now) && token in s1.consumers && ConsumerCleared(s1, s', token, detail, at)
    ensures ConsumerRevoked(s, s', token, detail, now, at)
  {
    var es :| ConsumerPlan(s1, es, token, detail, at) && s' == EndAll(s1, es, at);
    OnlyTheConsumerGoes(s1, es, token, detail, at);
    assert Stays(s, s1, token);
    forall t, i | Live(s'.consumers, t, i) ensures LeaseStays(s, s', t, i) {
      assert LeaseStays(s, s1, t, i);
    }
    forall t | t in s'.consumers ensures Stays(s, s', t) {
      assert Stays(s, s1, t);
    }
    ConsumerEndsLast(s1, es, token, detail, at);
  }

  lemma OnlyTheConsumerGoes(s1: State<nat>, es: seq<Ending>, token: Token, detail: string, at: int)
    requires ConsumerPlan(s1, es, token, detail, at)
    ensures var s' := EndAll(s1, es, at);
            && s'.management == s1.management
            && (forall t :: t in s'.consumers <==> t in s1.consumers && t != token)
            && (forall t, i :: Live(s'.consumers, t, i) <==> Live(s1.consumers, t, i) && t != token)
            && (forall t :: t in s'.consumers ==> Stays(s1, s', t))
            && (forall t, i :: Live(s'.consumers, t, i) ==> LeaseStays(s1, s', t, i))
  {
    EndAllRemoves(s1, es, at);
    forall t, i | Live(s1.consumers, t, i) && t != token ensures (t, i) !in LeaseKeys(es) {}
  }

  /** A plan that clears a consumer ends with the consumer's own end. */
  lemma ConsumerEndsLast(s: State<nat>, es: seq<Ending>, token: Token, detail: string, at: int)
    requires token in s.consumers && ConsumerPlan(s, es, token, detail, at)
    ensures var h := EndAll(s, es, at).history;
            var m := s.consumers[token].meta;
            |h| > 0 && h[|h| - 1].note == Note(ConsumerEnded, "", m.id, m.title, "", detail)
  {
    assert token in TokenKeys(es);
    LastEndsTheConsumer(s, es, token, at);
    var last := es[|es| - 1];
    assert last in es && last.token in TokenKeys(es);
    assert RevocationNote(s.consumers, last, detail);
  }

  /** After the consumer has ended none of its leases is there to end. */
  lemma LastEndsTheConsumer(s: State<nat>, es: seq<Ending>, token: Token, at: int)
    requires es != [] && Feasible(s, es, at) && token in TokenKeys(es)
    requires LeaseKeys(es) == LeasesOf(s.consumers, token)
    ensures es[|es| - 1].EndConsumer?
  {
    var init, last := es[..|es| - 1], es[|es| - 1];
    EndAllRemoves(s, init, at);
    assert last in es;
    assert forall e :: e in es && e.EndLease? ==> (e.token, e.id) in LeaseKeys(es);
    var e :| e in es && e.EndConsumer? && e.token == token;
    assert e in init || e == last;
    assert e in init ==> token in TokenKeys(init);
  }

  lemma RevokeMeans(s: State<nat>, s': State<nat>, token: Token, id: string, now: int, at: int, answer: bool)
    requires Revokes(s, s', token, id, now, at, answer)
    ensures RevocationMeans(s, s', token, id, "Consumer ended by its capability holder",
                            "Lease revoked by its consumer", now, at, answer)
  {
    var es :| SweepPlan(s, es, now, at) &&
              RevokesAfterSweep(EndAll(s, es, at), s', token, id, ENDED_BY_HOLDER, REVOKED_BY_HOLDER, at, answer);
    assert Swept(s, EndAll(s, es, at), now, at);
    RevocationAfterSweep(s, EndAll(s, es, at), s', token, id, ENDED_BY_HOLDER, REVOKED_BY_HOLDER, now, at, answer);
  }

  /** The app revokes in the same way, naming the consumer by its public identifier. */
  lemma AdminRevokeMeans(s: State<nat>, s': State<nat>, consumerId: string, id: string, now: int, at: int, answer: bool)
    requires AdminRevokes(s, s', consumerId, id, now, at, answer) && UniqueIds(s.consumers)
    ensures forall t :: Names(s, t, consumerId, now) ==>
              RevocationMeans(s, s', t, id, "Consumer ended from Key Session.app", "Lease revoked from Key Session.app",
                              now, at, answer)
    ensures (forall t :: !Names(s, t, consumerId, now)) ==> !answer && OnlyCurrentStay(s, s', now)
  {
    var es :| SweepPlan(s, es, now, at) && AdminRevokesAfterSweep(EndAll(s, es, at), s', consumerId, id, at, answer);
    var s1 := EndAll(s, es, at);
    assert Swept(s, s1, now, at);
    SweepMeans(s, s1, now, at);
    forall t ensures Names(s, t, consumerId, now) <==> t in s1.consumers && s1.consumers[t].meta.id == consumerId {
      assert t in s1.consumers ==> Stays(s, s1, t);
    }
    forall t | Names(s, t, consumerId, now)
      ensures RevocationMeans(s, s', t, id, "Consumer ended from Key Session.app", "Lease revoked from Key Session.app",
                              now, at, answer)
    {
      AdminAfterSweep(s, s1, s', consumerId, id, now, at, answer, t);
    }
  }

  /** An unexpired consumer has this public identifier. */
  predicate Names(s: State<nat>, t: Token, consumerId: string, now: int) {
    Known(s, t, now) && s.consumers[t].meta.id == consumerId
  }

  lemma AdminAfterSweep(s: State<nat>, s1: State<nat>, s': State<nat>, consumerId: string, id: string, now: int,
                        at: int,
                        answer: bool, t: Token)
    requires UniqueIds(s.consumers) && Swept(s, s1, now, at) && OnlyCurrentStay(s, s1, now)
    requires AdminRevokesAfterSweep(s1, s', consumerId, id, at, answer)
    requires t in s1.consumers && s1.consumers[t].meta.id == consumerId
    ensures RevocationMeans(s, s', t, id, ENDED_BY_APP, REVOKED_BY_APP, now, at, answer)
  {
    var u :| u in s1.consumers && s1.consumers[u].meta.id == consumerId &&
             RevokesAfterSweep(s1, s', u, id, ENDED_BY_APP, REVOKED_BY_APP, at, answer);
    assert Stays(s, s1, t) && Stays(s, s1, u);
    assert u == t;
    RevocationAfterSweep(s, s1, s', t, id, ENDED_BY_APP, REVOKED_BY_APP, now, at, answer);
  }

  // ---------------------------------------------------------------- granting

  /** What the consumer had of other profiles and that is current. */
  predicate Keeps(s: State<nat>, g: Ticket, lease: Lease, id: string, now: int) {
    !g.isNew && Current(s, g.token, id, now) && s.consumers[g.token].leases[id].meta.profile != lease.profile
  }

  /**
    The lease is installed, with its secret, for its consumer, in place of what it had of the profile; and
    journalled last.
  */
  ghost predicate LeaseInstalled(s: State<nat>, s': State<nat>, g: Ticket, lease: Lease, secret: nat, now: int) {
    && Live(s'.consumers, g.token, lease.id)
    && s'.consumers[g.token].leases[lease.id] == ActiveLease(lease, secret)
    && (g.isNew ==> s'.consumers[g.token].meta == ConsumerMeta(g.id, g.title, now, g.expiresAt))
    && (!g.isNew ==> Stays(s, s', g.token))
    && (forall id :: id != lease.id ==> (Live(s'.consumers, g.token, id) <==> Keeps(s, g, lease, id, now)))
    && (forall id :: id != lease.id && Live(s'.consumers, g.token, id) ==> LeaseStays(s, s', g.token, id))
    && |s'.history| > 0
    && s'.history[|s'.history| - 1].note ==
       Note(Granted, lease.profile, g.id, g.title, lease.reason, "Lease approved")
  }

  /** Everybody else keeps just what is current. */
  ghost predicate OthersCurrent(s: State<nat>, s': State<nat>, token: Token, now: int) {
    && (forall t :: t != token ==> (t in s'.consumers <==> Known(s, t, now)))
    && (forall t, id :: t != token ==> (Live(s'.consumers, t, id) <==> Current(s, t, id, now)))
    && (forall t :: t != token && t in s'.consumers ==> Stays(s, s', t))
    && (forall t, id :: t != token && Live(s'.consumers, t, id) ==> LeaseStays(s, s', t, id))
  }

  /**
    A grant is installed exactly when its consumer is new under a token that is nobody's, or is known and
    still the one that was looked up.
  */
  lemma InstallMeans(s: State<nat>, s': State<nat>, g: Ticket, lease: Lease, secret: nat, now: int, at: int,
                     granted: bool)
    requires GrantInstalls(s, s', g, lease, secret, now, at, granted)
    ensures granted <==>
            if g.isNew then !Known(s, g.token, now)
            else Known(s, g.token, now) && s.consumers[g.token].meta.id == g.id
    ensures if granted then LeaseInstalled(s, s', g, lease, secret, now) && OthersCurrent(s, s', g.token, now)
            else OnlyCurrentStay(s, s', now)
    ensures s'.management == s.management
  {
    var es :| SweepPlan(s, es, now, at) &&
              InstallsAfterSweep(EndAll(s, es, at), s', g, lease, secret, now, at, granted);
    var s1 := EndAll(s, es, at);
    assert Swept(s, s1, now, at);
    SweepMeans(s, s1, now, at);
    assert g.token in s1.consumers ==> Stays(s, s1, g.token);
    if granted {
      InstallAfterSweep(s1, s', g, lease, secret, now, at);
      InstalledOverSwept(s, s1, s', g, lease, secret, now);
    }
  }

  /** The same, when nothing expired is there. */
  ghost predicate InstalledOver(s1: State<nat>, s': State<nat>, g: Ticket, lease: Lease, secret: nat, now: int) {
    && g.token in s'.consumers
    && (forall t :: t != g.token ==> (t in s'.consumers <==> t in s1.consumers))
    && (forall t :: t != g.token && t in s'.consumers ==> s'.consumers[t] == s1.consumers[t])
    && (g.isNew ==> s'.consumers[g.token].meta == ConsumerMeta(g.id, g.title, now, g.expiresAt))
    && (!g.isNew ==> Stays(s1, s', g.token))
    && lease.id in s'.consumers[g.token].leases
    && s'.consumers[g.token].leases[lease.id] == ActiveLease(lease, secret)
    && (forall id :: id != lease.id ==>
          (id in s'.consumers[g.token].leases <==>
           !g.isNew && Live(s1.consumers, g.token, id) &&
           s1.consumers[g.token].leases[id].meta.profile != lease.profile))
    && (forall id :: id != lease.id && id in s'.consumers[g.token].leases ==> LeaseStays(s1, s', g.token, id))
    && s'.management == s1.management
    && |s'.history| > 0
    && s'.history[|s'.history| - 1].note ==
       Note(Granted, lease.profile, g.id, g.title, lease.reason, "Lease approved")
  }

  lemma InstallAfterSweep(s1: State<nat>, s': State<nat>, g: Ticket, lease: Lease, secret: nat, now: int, at: int)
    requires InstallsAfterSweep(s1, s', g, lease, secret, now, at, true)
    ensures InstalledOver(s1, s', g, lease, secret, now)
  {
    var s2 := Admit(s1, g, now, at).value;
    var fs :| InstallsOver(s2, fs, s', g, lease, secret, at);
    var s3 := EndAll(s2, fs, at);
    RoomIsMade(s2, fs, g, lease.profile, at);
    PutInto(s3, s', g, lease, secret, at);
    if g.isNew {
      InstalledForNew(s1, s2, s3, s', g, lease, secret, now, at);
    } else {
      InstalledForKnown(s1, s3, s', g, lease, secret, now);
    }
  }

  /** Only the consumer's leases of the profile are gone. */
  ghost predicate Room(s2: State<nat>, s3: State<nat>, token: Token, profile: string) {
    && s3.consumers.Keys == s2.consumers.Keys && s3.management == s2.management
    && (forall t :: t != token && t in s2.consumers ==> s3.consumers[t] == s2.consumers[t])
    && Stays(s2, s3, token)
    && (forall id :: Live(s3.consumers, token, id) <==>
          Live(s2.consumers, token, id) && s2.consumers[token].leases[id].meta.profile != profile)
    && (forall id :: Live(s3.consumers, token, id) ==> LeaseStays(s2, s3, token, id))
  }

  lemma RoomIsMade(s2: State<nat>, fs: seq<Ending>, g: Ticket, profile: string, at: int)
    requires ReplacePlan(s2, fs, g.token, g, profile, at) && g.token in EndAll(s2, fs, at).consumers
    ensures Room(s2, EndAll(s2, fs, at), g.token, profile)
  {
    var s3 := EndAll(s2, fs, at);
    EndAllRemoves(s2, fs, at);
    forall t, id | Live(s2.consumers, t, id)
      ensures (t, id) in LeaseKeys(fs) <==> t == g.token && s2.consumers[t].leases[id].meta.profile == profile
    {
    }
    forall t | t != g.token && t in s2.consumers ensures t in s3.consumers && s3.consumers[t] == s2.consumers[t] {
      assert s3.consumers[t].leases == s2.consumers[t].leases;
    }
  }

  /** The consumer has the lease besides; and that is journalled last. */
  ghost predicate Put(s3: State<nat>, s': State<nat>, g: Ticket, lease: Lease, secret: nat) {
    && g.token in s3.consumers && s'.consumers.Keys == s3.consumers.Keys && s'.management == s3.management
    && (forall t :: t != g.token && t in s3.consumers ==> s'.consumers[t] == s3.consumers[t])
    && s'.consumers[g.token].meta == s3.consumers[g.token].meta
    && s'.consumers[g.token].leases == s3.consumers[g.token].leases[lease.id := ActiveLease(lease, secret)]
    && |s'.history| > 0
    && s'.history[|s'.history| - 1].note == Note(Granted, lease.profile, g.id, g.title, lease.reason, "Lease approved")
  }

  lemma PutInto(s3: State<nat>, s': State<nat>, g: Ticket, lease: Lease, secret: nat, at: int)
    requires g.token in s3.consumers && s' == Install(s3, g, lease, secret, at)
    ensures Put(s3, s', g, lease, secret)
  {
  }

  lemma InstalledForKnown(s1: State<nat>, s3: State<nat>, s': State<nat>, g: Ticket, lease: Lease, secret: nat,
                          now: int)
    requires Room(s1, s3, g.token, lease.profile) && Put(s3, s', g, lease, secret) && !g.isNew
    ensures InstalledOver(s1, s', g, lease, secret, now)
  {
    forall id | id != lease.id && id in s'.consumers[g.token].leases ensures LeaseStays(s1, s', g.token, id) {
      assert Live(s3.consumers, g.token, id) && LeaseStays(s1, s3, g.token, id);
    }
    forall id | id != lease.id
      ensures id in s'.consumers[g.token].leases <==> Live(s3.consumers, g.token, id)
    {
    }
  }

  lemma InstalledForNew(s1: State<nat>, s2: State<nat>, s3: State<nat>, s': State<nat>, g: Ticket, lease: Lease,
                        secret: nat, now: int, at: int)
    requires g.isNew && Admit(s1, g, now, at) == Some(s2)
    requires Room(s2, s3, g.token, lease.profile) && Put(s3, s', g, lease, secret)
    ensures InstalledOver(s1, s', g, lease, secret, now)
  {
    assert s2.consumers[g.token].leases == map[];
    forall id ensures id in s'.consumers[g.token].leases <==> id == lease.id {
      assert !Live(s3.consumers, g.token, id);
    }
  }

  lemma InstalledOverSwept(s: State<nat>, s1: State<nat>, s': State<nat>, g: Ticket, lease: Lease, secret: nat,
                           now: int)
    requires OnlyCurrentStay(s, s1, now) && InstalledOver(s1, s', g, lease, secret, now)
    ensures LeaseInstalled(s, s', g, lease, secret, now) && OthersCurrent(s, s', g.token, now)
  {
    forall t, id | Live(s1.consumers, t, id) ensures LeaseStays(s, s1, t, id) && Stays(s, s1, t) {}
    forall t, id | t != g.token ensures Live(s'.consumers, t, id) <==> Live(s1.consumers, t, id) {}
    assert g.token in s1.consumers ==> Stays(s, s1, g.token);
  }

  // ---------------------------------------------------------------- management sessions

  /** Opening drops the sessions that have run out and adds the one, journalled last; nothing else changes. */
  lemma OpenMeans(s: State<nat>, token: Token, session: Session<nat>, now: int, at: int)
    ensures var s' := SessionOpened(s, token, session, now, at);
            && s'.consumers == s.consumers
            && token in s'.management && s'.management[token] == session
            && (forall t :: t != token ==>
                  (t in s'.management <==> t in s.management && now < s.management[t].expiresAt))
            && (forall t :: t != token && t in s'.management ==> s'.management[t] == s.management[t])
            && OneMore(s, s',
                       Note(ManagementStarted, session.profile, "", "Key Session.app", "Human profile management",
                            "Five-minute management session approved"), at)
  {
    assert SessionOpened(s, token, session, now, at).history[..|s.history|] == s.history;
  }

  /** An update is let through exactly by a session of that profile that has not run out, which it uses up. */
  lemma ConsumeMeans(s: State<nat>, name: string, token: Token, now: int)
    ensures Authorises(s, name, token, now) <==>
            token in s.management && s.management[token].profile == name && now < s.management[token].expiresAt
    ensures var s' := SessionConsumed(s, name, token, now);
            && s' == s.(management := s'.management)
            && (forall t :: t in s'.management <==>
                  t in s.management && now < s.management[t].expiresAt &&
                  !(t == token && s.management[t].profile == name))
            && (forall t :: t in s'.management ==> s'.management[t] == s.management[t])
  {
  }

  /** Ending a session takes just that one away, and only from its own profile's editor. */
  lemma EndMeans(s: State<nat>, name: string, token: Token)
    ensures var s' := SessionEnded(s, name, token);
            && s' == s.(management := s'.management)
            && (forall t :: t in s'.management <==>
                  t in s.management && !(t == token && s.management[t].profile == name))
            && (forall t :: t in s'.management ==> s'.management[t] == s.management[t])
  {
  }

  // ---------------------------------------------------------------- clearing a profile, and closing

  /** Just the profile's leases are gone, expired or not, and every consumer stays. */
  ghost predicate ProfileCleared(s: State<nat>, s': State<nat>, name: string) {
    && (forall t :: t in s'.consumers <==> t in s.consumers)
    && (forall t :: t in s'.consumers ==> Stays(s, s', t))
    && (forall t, id :: Live(s'.consumers, t, id) <==>
          Live(s.consumers, t, id) && s.consumers[t].leases[id].meta.profile != name)
    && (forall t, id :: Live(s'.consumers, t, id) ==> LeaseStays(s, s', t, id))
  }

  lemma PlanClears(s: State<nat>, es: seq<Ending>, name: string, detail: string, at: int)
    requires ProfilePlan(s, es, name, detail, at)
    ensures ProfileCleared(s, EndAll(s, es, at), name) && EndAll(s, es, at).management == s.management
  {
    EndAllRemoves(s, es, at);
  }

  lemma ClearedAlike(s: State<nat>, s1: State<nat>, s2: State<nat>, name: string)
    requires ProfileCleared(s, s1, name) && s2.consumers == s1.consumers
    ensures ProfileCleared(s, s2, name)
  {
    forall t, id | Live(s2.consumers, t, id) ensures LeaseStays(s, s2, t, id) {
      assert LeaseStays(s, s1, t, id);
    }
    forall t | t in s2.consumers ensures Stays(s, s2, t) {
      assert Stays(s, s1, t);
    }
  }

  lemma UpdateMeans(s: State<nat>, s': State<nat>, name: string, at: int)
    requires UpdateCommits(s, s', name, at)
    ensures ProfileCleared(s, s', name) && s'.management == s.management
    ensures |s'.history| > 0 && s'.history[|s'.history| - 1].note ==
            Note(ProfileUpdated, name, "", "Key Session.app", "Human profile management",
                 "Profile updated in an approved management session")
  {
    var es :| ProfilePlan(s, es, name, PROFILE_CHANGED, at) && s' == Record(EndAll(s, es, at), UpdatedNote(name), at);
    PlanClears(s, es, name, PROFILE_CHANGED, at);
    ClearedAlike(s, EndAll(s, es, at), s', name);
  }

  lemma DeleteMeans(s: State<nat>, s': State<nat>, name: string, at: int)
    requires DeleteClears(s, s', name, at)
    ensures ProfileCleared(s, s', name)
    ensures forall t :: t in s'.management <==> t in s.management && s.management[t].profile != name
    ensures forall t :: t in s'.management ==> s'.management[t] == s.management[t]
  {
    var es :| ProfilePlan(s, es, name, PROFILE_DELETED, at) && s' == SessionsWithout(EndAll(s, es, at), name);
    PlanClears(s, es, name, PROFILE_DELETED, at);
    ClearedAlike(s, EndAll(s, es, at), s', name);
  }

  /** Closing leaves no consumer, lease or session, and journals nothing. */
  lemma CloseMeans(s: State<nat>)
    ensures var s' := Closed(s);
            && (forall t :: t !in s'.consumers) && (forall t :: t !in s'.management)
            && s'.history == s.history && s'.events == s.events
  {
  }

  /** The ticker's sweep is that of consumers and leases, and drops the sessions that have run out. */
  lemma TickMeans(s: State<nat>, es: seq<Ending>, now: int, at: int)
    requires SweepPlan(s, es, now, at)
    ensures var s' := SessionsSwept(EndAll(s, es, at), now);
            && OnlyCurrentStay(s, s'.(management := s.management), now)
            && (forall t :: t in s'.management <==> t in s.management && now < s.management[t].expiresAt)
            && (forall t :: t in s'.management ==> s'.management[t] == s.management[t])
  {
    assert Swept(s, EndAll(s, es, at), now, at);
    SweepMeans(s, EndAll(s, es, at), now, at);
  }

  // ---------------------------------------------------------------- what is journalled of a plan

  function Noted(es: seq<Ending>): seq<Note> {
    if es == [] then [] else Noted(es[..|es| - 1]) + [es[|es| - 1].note]
  }

  function NotesOf(history: seq<Event>): seq<Note> {
    seq(|history|, i requires 0 <= i < |history| => history[i].note)
  }

  /** A clearing loop journals one event for each lease or consumer it ends, in the order in which it ends them. */
  lemma {:induction false} PlanJournals(s: State<nat>, es: seq<Ending>, at: int)
    ensures NotesOf(EndAll(s, es, at).history) == NotesOf(s.history) + Noted(es)
    decreases |es|
  {
    if es != [] {
      var init := es[..|es| - 1];
      PlanJournals(s, init, at);
      var before, after := EndAll(s, init, at), EndAll(s, es, at);
      assert after.history == before.history + [after.history[|before.history|]];
      assert NotesOf(after.history) == NotesOf(before.history) + [es[|es| - 1].note];
    }
  }

  /** A sweep journals what it ends as expired, and a lease of which only the consumer has expired as revoked. */
  lemma SweepNotes(s: State<nat>, es: seq<Ending>, now: int, at: int, e: Ending)
    requires SweepPlan(s, es, now, at) && e in es && e.token in s.consumers
    ensures var c := s.consumers[e.token];
            if e.EndConsumer? then
              && !Known(s, e.token, now)
              && e.note == Note(ConsumerEnded, "", c.meta.id, c.meta.title, "",
                                "Consumer capability expired automatically")
            else
              && e.id in c.leases && !Current(s, e.token, e.id, now)
              && var lease := c.leases[e.id].meta;
                 e.note == (if lease.expiresAt <= now
                            then Note(Expired, lease.profile, c.meta.id, c.meta.title, lease.reason,
                                      "Lease expired automatically")
                            else Note(Revoked, lease.profile, c.meta.id, c.meta.title, lease.reason,
                                      "Consumer capability expired automatically"))
  {
    assert SweepNote(s.consumers, e, now);
    if e.EndLease? {
      assert (e.token, e.id) in LeaseKeys(es);
    } else {
      assert e.token in TokenKeys(es);
    }
  }

  /** A changed or removed profile's leases are journalled as revoked, expired or not. */
  lemma ProfileNotes(s: State<nat>, es: seq<Ending>, name: string, detail: string, at: int, e: Ending)
    requires ProfilePlan(s, es, name, detail, at) && e in es
    ensures e.EndLease? && Live(s.consumers, e.token, e.id)
    ensures var c, lease := s.consumers[e.token], s.consumers[e.token].leases[e.id].meta;
            lease.profile == name && e.note == Note(Revoked, name, c.meta.id, c.meta.title, lease.reason, detail)
  {
    assert RevocationNote(s.consumers, e, detail);
    assert forall x :: x in es && x.EndConsumer? ==> x.token in TokenKeys(es);
    assert e.EndLease?;
    assert (e.token, e.id) in LeaseKeys(es);
  }

  /** A grant journals the leases it replaces as revoked, under its consumer's name. */
  lemma ReplaceNotes(s: State<nat>, es: seq<Ending>, g: Ticket, profile: string, at: int, e: Ending)
    requires ReplacePlan(s, es, g.token, g, profile, at) && e in es
    ensures e.EndLease? && e.token == g.token && Live(s.consumers, e.token, e.id)
    ensures var lease := s.consumers[e.token].leases[e.id].meta;
            && lease.profile == profile
            && e.note == Note(Revoked, profile, g.id, g.title, lease.reason,
                              "Replaced by a newer lease for this consumer and profile")
  {
    assert ReplaceNote(s.consumers, e, g);
    assert (e.token, e.id) in LeaseKeys(es);
  }

  lemma NewIsNoted(s1: State<nat>, s': State<nat>, g: Ticket, lease: Lease, secret: nat, now: int, at: int)
    requires InstallsAfterSweep(s1, s', g, lease, secret, now, at, true) && g.isNew
    ensures Note(ConsumerStarted, "", g.id, g.title, "", "Consumer capability created") in NotesOf(s'.history)
  {
    var note := Note(ConsumerStarted, "", g.id, g.title, "", "Consumer capability created");
    var s2 := Admit(s1, g, now, at).value;
    var fs :| InstallsOver(s2, fs, s', g, lease, secret, at);
    PlanJournals(s2, fs, at);
    var k, s3 := |s1.history|, EndAll(s2, fs, at);
    assert s2.history[k].note == note;
    assert NotesOf(s2.history)[k] == note;
    assert NotesOf(s3.history)[k] == note;
    assert s'.history[k] == s3.history[k];
    assert NotesOf(s'.history)[k] == note;
  }

  /** A new consumer is journalled. */
  lemma NewConsumersAreNoted(s: State<nat>, s': State<nat>, g: Ticket, lease: Lease, secret: nat, now: int, at: int)
    requires GrantInstalls(s, s', g, lease, secret, now, at, true) && g.isNew
    ensures Note(ConsumerStarted, "", g.id, g.title, "", "Consumer capability created") in NotesOf(s'.history)
  {
    var es :| SweepPlan(s, es, now, at) &&
              InstallsAfterSweep(EndAll(s, es, at), s', g, lease, secret, now, at, true);
    NewIsNoted(EndAll(s, es, at), s', g, lease, secret, now, at);
  }
}
