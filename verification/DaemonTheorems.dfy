/** What the daemon promises over whole runs: the main results about the interleaved machine. */
module DaemonTheorems {
  import opened Common
  import opened DaemonState
  import opened DaemonSections
  import opened DaemonSectionLemmas
  import opened DaemonDurations
  import opened DaemonJournal
  import opened DaemonMachine
  import opened DaemonInvariant
  import opened DaemonShrinks
  import opened DaemonPreservation
  import opened DaemonBooks
  import opened DaemonCapabilities

  // ---------------------------------------------------------------- leases and profiles

  /**
    In every reachable world a live lease's profile is configured, with its kind, and an SSH secret yields
    the configured key.
  */
  lemma LiveLeasesAreConfigured(derive: Bytes -> Option<PublicKey>, run: seq<World>, acts: seq<Action>, i: nat,
                                t: Token, id: string)
    requires Run(derive, run, acts) && i < |run| && Live(run[i].svc.consumers, t, id)
    ensures var w := run[i];
            var lease := w.svc.consumers[t].leases[id];
            && lease.meta.profile in w.config
            && (lease.meta.kind == Ssh <==> w.config[lease.meta.profile].kind == Ssh)
            && (lease.meta.kind == Ssh ==>
                  lease.secret in w.mem && derive(w.mem[lease.secret]) == Some(w.config[lease.meta.profile].publicKey))
  {
    RunKeeps(derive, run, acts, i);
  }

  /** Open sessions belong to configured profiles that are not SSH profiles, also while one is being deleted. */
  lemma SessionsAreConfigured(derive: Bytes -> Option<PublicKey>, run: seq<World>, acts: seq<Action>, i: nat, t: Token)
    requires Run(derive, run, acts) && i < |run| && t in run[i].svc.management
    ensures var name := run[i].svc.management[t].profile;
            name in run[i].config && run[i].config[name].kind != Ssh
  {
    RunKeeps(derive, run, acts, i);
  }

  /** A consumer has at most one lease for a profile, and everything is stored under its own identifier. */
  lemma LeasesAreWhereTheyBelong(derive: Bytes -> Option<PublicKey>, run: seq<World>, acts: seq<Action>, i: nat)
    requires Run(derive, run, acts) && i < |run|
    ensures var cs := run[i].svc.consumers;
            && OnePerProfile(cs)
            && (forall t, id :: Live(cs, t, id) ==>
                  cs[t].leases[id].meta.id == id && cs[t].leases[id].meta.consumerId == cs[t].meta.id)
            && (forall t, u :: t in cs && u in cs && cs[t].meta.id == cs[u].meta.id ==> t == u)
  {
    RunKeeps(derive, run, acts, i);
  }

  /** A lease lasts at most a day and never outlives its consumer, which lives at most a week. */
  lemma LeasesAreShort(derive: Bytes -> Option<PublicKey>, run: seq<World>, acts: seq<Action>, i: nat, t: Token,
                       id: string)
    requires Run(derive, run, acts) && i < |run| && Live(run[i].svc.consumers, t, id)
    ensures var c := run[i].svc.consumers[t];
            && c.leases[id].meta.expiresAt - c.leases[id].meta.grantedAt <= 86_400_000_000_000
            && c.leases[id].meta.expiresAt <= c.meta.expiresAt
            && c.meta.expiresAt - c.meta.createdAt <= 604_800_000_000_000
  {
    RunKeeps(derive, run, acts, i);
  }

  // ---------------------------------------------------------------- freshness of secrets

  /** The step ends `name`'s leases for good: an update commits, or a deletion clears. */
  predicate Renews(w: World, a: Action, name: string) {
    match a
    case Finish(c) => c in w.calls && w.calls[c].Writing? && w.calls[c].job == UpdateJob && w.calls[c].name == name
    case ClearDelete(c) => c in w.calls && w.calls[c].Deleting? && w.calls[c].name == name
    case _ => false
  }

  /** After step `i` and by world `j`, the keychain held `v` for `name` at some point. */
  ghost predicate HeldSince(run: seq<World>, name: string, i: int, j: nat, v: Bytes) {
    exists m :: i < m <= j && 0 <= m < |run| && name in run[m].keychain && run[m].keychain[name] == v
  }

  predicate Current(w: World, name: string, v: Bytes) {
    name in w.keychain && w.keychain[name] == v
  }

  /** A step adds to the remembered secrets of a profile only what it has just put into the keychain. */
  lemma SinceStep(derive: Bytes -> Option<PublicKey>, w: World, a: Action, w': World, name: string, v: Bytes)
    requires Step(derive, w, a, w') && v in Since(w', name)
    ensures Current(w', name, v) || (v in Since(w, name) && !Renews(w, a, name))
  {
    if a.Finish? {
      FinishSince(w, a.c, w', name, v);
    } else if a.Keep? {
      KeepSince(w, a.c, w', name, v);
    } else if a.ClearDelete? {
      ClearSince(w, a.c, w', name, v);
    } else {
      SinceStands(derive, w, a, w');
    }
  }

  lemma FinishSince(w: World, c: nat, w': World, name: string, v: Bytes)
    requires FinishStep(w, c, w') && v in Since(w', name)
    ensures Current(w', name, v) || (v in Since(w, name) && !Renews(w, Finish(c), name))
  {
  }

  lemma ClearSince(w: World, c: nat, w': World, name: string, v: Bytes)
    requires ClearDeleteStep(w, c, w') && v in Since(w', name)
    ensures v in Since(w, name) && name != w.calls[c].name
  {
  }

  lemma KeepSince(w: World, c: nat, w': World, name: string, v: Bytes)
    requires KeepStep(w, c, w') && v in Since(w', name)
    ensures Current(w', name, v) || v in Since(w, name)
  {
  }

  lemma SinceStands(derive: Bytes -> Option<PublicKey>, w: World, a: Action, w': World)
    requires Step(derive, w, a, w') && !a.Keep? && !a.Finish? && !a.ClearDelete?
    ensures w'.since == w.since
  {
    if OfGrant(a) {
      GrantsHoldSince(derive, w, a, w');
    }
  }

  lemma GrantsHoldSince(derive: Bytes -> Option<PublicKey>, w: World, a: Action, w': World)
    requires Step(derive, w, a, w') && OfGrant(a)
    ensures w'.since == w.since
  {
  }

  lemma {:induction false} SinceIsHeld(derive: Bytes -> Option<PublicKey>, run: seq<World>, acts: seq<Action>,
                                       name: string, i: nat, j: nat, v: Bytes)
    requires Run(derive, run, acts) && i < j < |run| && Renews(run[i], acts[i], name) && v in Since(run[j], name)
    ensures HeldSince(run, name, i, j, v)
  {
    assert StepAt(derive, run, acts, j - 1);
    SinceStep(derive, run[j - 1], acts[j - 1], run[j], name, v);
    if Current(run[j], name, v) {
      assert HeldSince(run, name, i, j, v);
    } else {
      SinceIsHeld(derive, run, acts, name, i, j - 1, v);
      var m :| i < m <= j - 1 && name in run[m].keychain && run[m].keychain[name] == v;
      assert HeldSince(run, name, i, j, v);
    }
  }

  /**
    No lease outlives the secret it was granted: after an update commits or a deletion clears, every
    live lease of the profile holds a secret that the keychain has held since. In particular no grant
    that was waiting for approval can install the replaced secret.
  */
  lemma SecretsWereHeldSince(derive: Bytes -> Option<PublicKey>, run: seq<World>, acts: seq<Action>, i: nat, j: nat,
                             t: Token, id: string)
    requires Run(derive, run, acts) && i < j < |run| && Live(run[j].svc.consumers, t, id)
    requires Renews(run[i], acts[i], run[j].svc.consumers[t].leases[id].meta.profile)
    ensures var lease := run[j].svc.consumers[t].leases[id];
            lease.secret in run[j].mem && HeldSince(run, lease.meta.profile, i, j, run[j].mem[lease.secret])
  {
    RunKeeps(derive, run, acts, j);
    var lease := run[j].svc.consumers[t].leases[id];
    assert SecretOk(derive, run[j].config, run[j].since, run[j].mem, lease.meta, lease.secret);
    SinceIsHeld(derive, run, acts, lease.meta.profile, i, j, run[j].mem[lease.secret]);
  }

  // ---------------------------------------------------------------- the secret ledger

  /** Every secret buffer has exactly one owner, or is all zero. */
  lemma EverySecretIsOwnedOrZero(derive: Bytes -> Option<PublicKey>, run: seq<World>, acts: seq<Action>, i: nat, b: nat)
    requires Run(derive, run, acts) && i < |run| && b in run[i].mem
    ensures AllZero(run[i].mem[b]) || exists h :: Owned(run[i], h) == Some(b)
    ensures forall h, k :: Owned(run[i], h) == Some(b) && Owned(run[i], k) == Some(b) ==> h == k
  {
    RunKeeps(derive, run, acts, i);
  }

  /** A step leaves a buffer alone or zeroes it. */
  lemma StepsOnlyZero(derive: Bytes -> Option<PublicKey>, w: World, a: Action, w': World, b: nat)
    requires Inv(derive, w) && Step(derive, w, a, w') && b in w.mem
    ensures b in w'.mem && (w'.mem[b] == w.mem[b] || w'.mem[b] == Zeros(|w.mem[b]|))
  {
    StepMoves(derive, w, a, w', b);
  }

  /** Closing zeroes every secret a lease or session owns. */
  lemma ClosingZeroes(derive: Bytes -> Option<PublicKey>, run: seq<World>, acts: seq<Action>, i: nat, o: Owner)
    requires Run(derive, run, acts) && i < |acts| && acts[i] == Shutdown && Holds(run[i].svc, o).Some?
    ensures var b := Holds(run[i].svc, o).value; b in run[i + 1].mem && AllZero(run[i + 1].mem[b])
  {
    RunKeeps(derive, run, acts, i);
    assert StepAt(derive, run, acts, i);
    assert Owned(run[i], Stored(o)) == Holds(run[i].svc, o);
    assert Holds(run[i + 1].svc, o).None?;
  }

  // ---------------------------------------------------------------- conservation and the journal

  ghost predicate OpenUntil(acts: seq<Action>, i: nat) {
    i <= |acts| && forall k :: 0 <= k < i ==> acts[k] != Shutdown
  }

  lemma NothingBooked(w: World)
    requires Init(w)
    ensures InOrder(w.svc.events, w.svc)
  {
    assert LiveLeases(w.svc.consumers) == {};
  }

  lemma {:induction false} BooksStayInOrder(derive: Bytes -> Option<PublicKey>, run: seq<World>, acts: seq<Action>,
                                            i: nat)
    requires Run(derive, run, acts) && OpenUntil(acts, i)
    ensures InOrder(run[0].svc.events, run[i].svc)
  {
    if i == 0 {
      NothingBooked(run[0]);
    } else {
      var before := i - 1;
      BooksStayInOrder(derive, run, acts, before);
      OrderAt(derive, run, acts, before, run[0].svc.events);
    }
  }

  lemma OrderAt(derive: Bytes -> Option<PublicKey>, run: seq<World>, acts: seq<Action>, i: nat, loaded: seq<Event>)
    requires Run(derive, run, acts) && i < |acts| && acts[i] != Shutdown && InOrder(loaded, run[i].svc)
    ensures InOrder(loaded, run[i + 1].svc)
  {
    BookedAt(derive, run, acts, i, loaded);
  }

  lemma BookedAt(derive: Bytes -> Option<PublicKey>, run: seq<World>, acts: seq<Action>, i: nat, loaded: seq<Event>)
    requires Run(derive, run, acts) && i < |acts| && acts[i] != Shutdown
    ensures Booked(loaded, run[i].svc, run[i + 1].svc)
  {
    RunKeeps(derive, run, acts, i);
    assert StepAt(derive, run, acts, i);
    StepBooked(derive, loaded, run[i], acts[i], run[i + 1]);
  }

  /** Until closing: events granted less those revoked and expired are the live leases; likewise for consumers. */
  lemma EventsAreConserved(derive: Bytes -> Option<PublicKey>, run: seq<World>, acts: seq<Action>, i: nat)
    requires Run(derive, run, acts) && OpenUntil(acts, i)
    ensures var s := run[i].svc;
            && Count(s.history, Granted) - Count(s.history, Revoked) - Count(s.history, Expired) ==
               |LiveLeases(s.consumers)|
            && Count(s.history, ConsumerStarted) - Count(s.history, ConsumerEnded) == |s.consumers.Keys|
  {
    BooksStayInOrder(derive, run, acts, i);
  }

  /** Event identifiers are pairwise distinct, and after any event the journal is the newest of the whole history. */
  lemma JournalIsTheNewest(derive: Bytes -> Option<PublicKey>, run: seq<World>, acts: seq<Action>, i: nat)
    requires Run(derive, run, acts) && OpenUntil(acts, i)
    ensures var s, all := run[i].svc, run[0].svc.events + run[i].svc.history;
            && (forall j, k :: 0 <= j < k < |s.history| ==> s.history[j].serial != s.history[k].serial)
            && (s.history != [] ==> s.events == if |all| > 200 then all[|all| - 200..] else all)
  {
    BooksStayInOrder(derive, run, acts, i);
  }

  lemma LaterAt(derive: Bytes -> Option<PublicKey>, run: seq<World>, acts: seq<Action>, i: nat)
    requires Run(derive, run, acts) && i < |acts| && acts[i] != Shutdown
    ensures Later(run[i].svc, run[i + 1].svc)
  {
    BookedAt(derive, run, acts, i, []);
  }

  lemma {:induction false} RevisionRises(derive: Bytes -> Option<PublicKey>, run: seq<World>, acts: seq<Action>,
                                         i: nat, j: nat)
    requires Run(derive, run, acts) && i <= j && OpenUntil(acts, j)
    ensures Later(run[i].svc, run[j].svc)
    decreases j
  {
    if i < j {
      RevisionRises(derive, run, acts, i, j - 1);
      LaterAt(derive, run, acts, j - 1);
      LaterOn(run[i].svc, run[j - 1].svc, run[j].svc);
    }
  }

  /** The revision is a version stamp: the same revision means the same consumers, leases and journal. */
  lemma RevisionIsAVersion(derive: Bytes -> Option<PublicKey>, run: seq<World>, acts: seq<Action>, i: nat, j: nat)
    requires Run(derive, run, acts) && i <= j && OpenUntil(acts, j) && run[i].svc.revision == run[j].svc.revision
    ensures run[i].svc.consumers == run[j].svc.consumers && run[i].svc.events == run[j].svc.events
  {
    RevisionRises(derive, run, acts, i, j);
  }

  /** In reachable worlds a sweep ends leases as expired only: a lease never outlives its consumer. */
  lemma SweepsNeverRevoke(derive: Bytes -> Option<PublicKey>, run: seq<World>, acts: seq<Action>, i: nat,
                          es: seq<Ending>, now: int)
    requires Run(derive, run, acts) && i < |run| && SweepPlan(run[i].svc, es, now, run[i].clock)
    ensures forall e :: e in es ==> e.note.kind == if e.EndLease? then Expired else ConsumerEnded
  {
    RunKeeps(derive, run, acts, i);
    SweepRevokesNothing(run[i].svc, es, now, run[i].clock);
  }
}
