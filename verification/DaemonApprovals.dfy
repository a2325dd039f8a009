/**
  Every lease goes back to a keychain read that a human approved: of the very profile, consumer, reason
  and duration, after the profile last changed, and of no other lease.
*/
module DaemonApprovals {
  import opened Common
  import opened DaemonState
  import opened DaemonSections
  import opened DaemonSectionLemmas
  import opened DaemonDurations
  import opened DaemonMachine
  import opened DaemonInvariant
  import opened DaemonShrinks
  import opened DaemonPreservation
  import opened DaemonCapabilities
  import opened DaemonTheorems

  /** What the approval sheet shows, and what the profile was at that moment. */
  datatype Sheet = Sheet(g: Ticket, name: string, reason: string, profile: Profile, duration: int)

  /** At step `m` call `c` read the keychain into `buf` under this sheet: the human approved it. */
  ghost predicate ReadBy(run: seq<World>, acts: seq<Action>, m: nat, c: nat, sheet: Sheet, buf: nat) {
    && m < |acts| < |run| && acts[m] == ReadGrant(c, buf) && c in run[m].calls && sheet.name in run[m].keychain
    && run[m].calls[c] == GrantAsking(sheet.g, sheet.name, sheet.reason, sheet.profile, sheet.duration)
    && Timed(sheet.duration)
  }

  /** That read came before world `j`, where `buf` still holds just what the keychain held then. */
  ghost predicate ReadInto(run: seq<World>, acts: seq<Action>, j: nat, m: nat, c: nat, sheet: Sheet, buf: nat) {
    && m < j < |run| && ReadBy(run, acts, m, c, sheet, buf)
    && buf in run[j].mem && run[j].mem[buf] == run[m].keychain[sheet.name]
  }

  /** From the read to world `j` the call has been on its way to a lease, with the profile lock in hand. */
  ghost predicate UnderWay(run: seq<World>, m: nat, j: nat, c: nat) {
    j < |run| && forall k :: m < k <= j ==> c in run[k].calls && HasRead(run[k].calls[c])
  }

  /** At step `n` call `c` stamped the lease with the time of day. */
  ghost predicate StampedAt(run: seq<World>, acts: seq<Action>, n: nat, c: nat, lease: Lease) {
    n < |acts| < |run| && acts[n] == StampGrant(c, lease.id) && lease.grantedAt == run[n].clock
  }

  predicate HasRead(call: Call) { call.GrantChecking? || call.GrantStamped? }

  /** The lease is for what the sheet showed, and lasts as long as it showed, unless its consumer ends before. */
  predicate Within(lease: Lease, sheet: Sheet) {
    && lease.profile == sheet.name && lease.reason == sheet.reason
    && lease.consumerId == sheet.g.id && lease.consumerLabel == sheet.g.title
    && lease.kind == sheet.profile.kind && lease.environmentVariable == sheet.profile.environmentVariable
    && lease.expiresAt == Min(lease.grantedAt + sheet.duration, sheet.g.expiresAt)
  }

  function SheetOf(call: Call): Sheet
    requires call.GrantAsking? || call.GrantChecking?
  {
    Sheet(call.g, call.name, call.reason, call.profile, call.duration)
  }

  // ---------------------------------------------------------------- from the stamp back to the read

  ghost predicate SameAt(w: World, w': World, c: nat) {
    c in w.calls && c in w'.calls && w.calls[c] == w'.calls[c]
  }

  /** A grant comes to its checks only by reading the keychain, and to its stamp only from its checks. */
  lemma GrantGoesOn(derive: Bytes -> Option<PublicKey>, w: World, a: Action, w': World, c: nat)
    requires Step(derive, w, a, w') && c in w'.calls && !SameAt(w, w', c)
    ensures w'.calls[c].GrantChecking? ==> JustRead(w, a, w', c)
    ensures w'.calls[c].GrantStamped? ==> JustStamped(w, a, w', c)
  {
    if Caller(a) != Some(c) {
      OnlyItsOwnCall(derive, w, a, w', c);
    } else if OfGrant(a) {
      OwnGrantGoesOn(derive, w, a, w', c);
    } else {
      OthersAreNoGrant(derive, w, a, w', c);
    }
  }

  predicate JustRead(w: World, a: Action, w': World, c: nat)
    requires c in w'.calls && w'.calls[c].GrantChecking?
  {
    var buf := w'.calls[c].buf;
    && a == ReadGrant(c, buf) && c in w.calls && w.calls[c].GrantAsking? && SheetOf(w.calls[c]) == SheetOf(w'.calls[c])
    && w.calls[c].name in w.keychain && buf in w'.mem && w'.mem[buf] == w.keychain[w.calls[c].name]
  }

  predicate JustStamped(w: World, a: Action, w': World, c: nat)
    requires c in w'.calls && w'.calls[c].GrantStamped?
  {
    && c in w.calls && w.calls[c].GrantChecking? && w'.calls[c].buf == w.calls[c].buf && w'.calls[c].g == w.calls[c].g
    && a == StampGrant(c, w'.calls[c].lease.id) && w'.calls[c].lease.grantedAt == w.clock
    && Within(w'.calls[c].lease, SheetOf(w.calls[c]))
  }

  lemma OwnGrantGoesOn(derive: Bytes -> Option<PublicKey>, w: World, a: Action, w': World, c: nat)
    requires Step(derive, w, a, w') && c in w'.calls && OfGrant(a) && a.c == c
    ensures w'.calls[c].GrantChecking? ==> JustRead(w, a, w', c)
    ensures w'.calls[c].GrantStamped? ==> JustStamped(w, a, w', c)
  {
  }

  lemma OthersAreNoGrant(derive: Bytes -> Option<PublicKey>, w: World, a: Action, w': World, c: nat)
    requires Step(derive, w, a, w') && c in w'.calls && !OfGrant(a) && Caller(a) == Some(c)
    ensures !w'.calls[c].GrantChecking? && !w'.calls[c].GrantStamped?
  {
    if a.Finish? {
      FinishMoves(w, c, w');
    }
  }

  /** Where a grant that has read was one step before; a call that keeps its buffer keeps the bytes. */
  lemma GrantBack(derive: Bytes -> Option<PublicKey>, run: seq<World>, acts: seq<Action>, i: nat, c: nat)
    requires Run(derive, run, acts) && i < |acts| && c in run[i + 1].calls && HasRead(run[i + 1].calls[c])
    ensures var w, k, w' := run[i], run[i + 1].calls[c], run[i + 1];
            && (SameAt(w, w', c) || if k.GrantChecking? then JustRead(w, acts[i], w', c) && Timed(k.duration)
                                    else JustStamped(w, acts[i], w', c))
            && (SameAt(w, w', c) || k.GrantStamped? ==>
                  k.buf in w.mem && k.buf in w'.mem && w'.mem[k.buf] == w.mem[k.buf])
  {
    RunKeeps(derive, run, acts, i);
    assert StepAt(derive, run, acts, i);
    if !SameAt(run[i], run[i + 1], c) {
      GrantGoesOn(derive, run[i], acts[i], run[i + 1], c);
      assert CallOk(derive, run[i], run[i].calls[c]);
    }
    if SameAt(run[i], run[i + 1], c) || run[i + 1].calls[c].GrantStamped? {
      OwnedBytesStand(derive, run[i], acts[i], run[i + 1], InFlight(c));
    }
  }

  predicate Timed(duration: int) { MINIMUM_LEASE <= duration <= MAXIMUM_LEASE }

  lemma {:induction false} CheckingWasRead(derive: Bytes -> Option<PublicKey>, run: seq<World>, acts: seq<Action>,
                                           j: nat,
                                           c: nat)
    returns (m: nat)
    requires Run(derive, run, acts) && j < |run| && c in run[j].calls && run[j].calls[c].GrantChecking?
    ensures ReadInto(run, acts, j, m, c, SheetOf(run[j].calls[c]), run[j].calls[c].buf) && UnderWay(run, m, j, c)
  {
    var i := j - 1;
    GrantBack(derive, run, acts, i, c);
    if SameAt(run[i], run[j], c) {
      m := CheckingWasRead(derive, run, acts, i, c);
    } else {
      m := i;
    }
  }

  lemma StillRead(run: seq<World>, acts: seq<Action>, i: nat, m: nat, c: nat, sheet: Sheet, buf: nat)
    requires ReadInto(run, acts, i, m, c, sheet, buf) && UnderWay(run, m, i, c)
    requires i + 1 < |run| && buf in run[i + 1].mem && run[i + 1].mem[buf] == run[i].mem[buf]
    requires c in run[i + 1].calls && HasRead(run[i + 1].calls[c])
    ensures ReadInto(run, acts, i + 1, m, c, sheet, buf) && UnderWay(run, m, i + 1, c)
  {
  }

  lemma {:induction false} StampedWasRead(derive: Bytes -> Option<PublicKey>, run: seq<World>, acts: seq<Action>,
                                          j: nat,
                                          c: nat)
    returns (m: nat, n: nat, sheet: Sheet)
    requires Run(derive, run, acts) && j < |run| && c in run[j].calls && run[j].calls[c].GrantStamped?
    ensures ReadInto(run, acts, j, m, c, sheet, run[j].calls[c].buf) && UnderWay(run, m, j, c)
    ensures m < n < j && StampedAt(run, acts, n, c, run[j].calls[c].lease)
    ensures Within(run[j].calls[c].lease, sheet) && sheet.g == run[j].calls[c].g
  {
    var i := j - 1;
    GrantBack(derive, run, acts, i, c);
    var buf := run[j].calls[c].buf;
    if SameAt(run[i], run[j], c) {
      m, n, sheet := StampedWasRead(derive, run, acts, i, c);
    } else {
      n := i;
      sheet := SheetOf(run[i].calls[c]);
      m := CheckingWasRead(derive, run, acts, i, c);
    }
    StillRead(run, acts, i, m, c, sheet, buf);
  }

  // ---------------------------------------------------------------- from the lease back to the stamp

  /** The last section of `Grant` leaves no lease that was not there but its own, with the secret it read. */
  lemma InstallAddsOne(w: World, c: nat, granted: bool, w': World, t: Token, id: string)
    requires InstallGrantStep(w, c, granted, w') && Live(w'.svc.consumers, t, id)
    ensures var lease := w'.svc.consumers[t].leases[id];
            || (Live(w.svc.consumers, t, id) && w.svc.consumers[t].leases[id] == lease)
            || (granted && lease == ActiveLease(w.calls[c].lease, w.calls[c].buf) && t == w.calls[c].g.token)
  {
    var k, at := w.calls[c], w.clock;
    var es :| SweepPlan(w.svc, es, k.lease.grantedAt, at) &&
              InstallsAfterSweep(EndAll(w.svc, es, at), w'.svc, k.g, k.lease, k.buf, k.lease.grantedAt, at, granted);
    var s1 := EndAll(w.svc, es, at);
    EndAllShrinks(w.svc, es, at);
    if granted {
      AdmittedAddsOne(s1, w'.svc, k.g, k.lease, k.buf, k.lease.grantedAt, at, t, id);
    }
  }

  lemma AdmittedAddsOne(s1: State<nat>, s': State<nat>, g: Ticket, lease: Lease, buf: nat, now: int, at: int,
                        t: Token, id: string)
    requires InstallsAfterSweep(s1, s', g, lease, buf, now, at, true) && Live(s'.consumers, t, id)
    ensures var l := s'.consumers[t].leases[id];
            || (Live(s1.consumers, t, id) && s1.consumers[t].leases[id] == l)
            || (l == ActiveLease(lease, buf) && t == g.token)
  {
    var s2 := Admit(s1, g, now, at).value;
    var fs :| InstallsOver(s2, fs, s', g, lease, buf, at);
    AdmitLeases(s1, g, now, at);
    EndAllShrinks(s2, fs, at);
  }

  /** Handing the secret over changes none of its bytes. */
  lemma HandingOverKeepsBytes(w: World, c: nat, w': World)
    requires LedgerInv(w) && InstallGrantStep(w, c, true, w')
    ensures var b := w.calls[c].buf; b in w.mem && b in w'.mem && w'.mem[b] == w.mem[b]
  {
    var b := w.calls[c].buf;
    assert Owned(w, InFlight(c)) == Some(b);
    forall o ensures Holds(w.svc, o) != Some(b) {
      assert Owned(w, Stored(o)) == Holds(w.svc, o);
    }
  }

  /** The lease was there one step before, or that step installed it from call `c`. */
  ghost predicate WasLive(w: World, w': World, t: Token, id: string) {
    Live(w.svc.consumers, t, id) && Live(w'.svc.consumers, t, id) &&
    w.svc.consumers[t].leases[id] == w'.svc.consumers[t].leases[id]
  }

  predicate Installed(w: World, a: Action, t: Token, lease: ActiveLease<nat>) {
    && a.InstallGrant? && a.granted && a.c in w.calls && w.calls[a.c].GrantStamped? && t == w.calls[a.c].g.token
    && lease == ActiveLease(w.calls[a.c].lease, w.calls[a.c].buf)
  }

  lemma LeaseStep(derive: Bytes -> Option<PublicKey>, w: World, a: Action, w': World, t: Token, id: string)
    requires Step(derive, w, a, w') && Live(w'.svc.consumers, t, id)
    ensures WasLive(w, w', t, id) || Installed(w, a, t, w'.svc.consumers[t].leases[id])
  {
    if a.InstallGrant? {
      InstallAddsOne(w, a.c, a.granted, w', t, id);
    } else if a.OpenBegin? {
      assert OpenBeginStep(w, a.c, a.token, a.stamp, w');
    } else {
      StepShrinks(derive, w, a, w');
    }
  }

  /**
    No lease without a human: each live lease goes back to an approved read into its own secret, of the
    same profile for the same consumer and reason, and from its stamp it lasts as long as was approved, or
    as its consumer.
  */
  lemma {:induction false} EveryLeaseWasApproved(derive: Bytes -> Option<PublicKey>, run: seq<World>, acts: seq<Action>,
                                                 j: nat, t: Token, id: string)
    returns (m: nat, n: nat, c: nat, sheet: Sheet)
    requires Run(derive, run, acts) && j < |run| && Live(run[j].svc.consumers, t, id)
    ensures var lease := run[j].svc.consumers[t].leases[id];
            && ReadInto(run, acts, j, m, c, sheet, lease.secret) && Within(lease.meta, sheet) && t == sheet.g.token
            && m < n < j && StampedAt(run, acts, n, c, lease.meta)
  {
    var i := j - 1;
    LeaseBack(derive, run, acts, i, t, id);
    if WasLive(run[i], run[j], t, id) {
      m, n, c, sheet := EveryLeaseWasApproved(derive, run, acts, i, t, id);
    } else {
      c := acts[i].c;
      m, n, sheet := StampedWasRead(derive, run, acts, i, c);
    }
  }

  // ---------------------------------------------------------------- from the sheet back to the request

  /** At step `l` call `c` took the profile lock and made the sheet of what was asked and what is configured. */
  ghost predicate AskedAt(run: seq<World>, acts: seq<Action>, l: nat, c: nat, sheet: Sheet, seconds: int) {
    && l < |acts| < |run| && acts[l] == LockGrant(c) && c in run[l].calls
    && run[l].calls[c] == GrantWaiting(sheet.g, sheet.name, sheet.reason, seconds)
    && sheet.name in run[l].config && run[l].config[sheet.name] == sheet.profile
    && LeaseDuration(seconds, sheet.profile.defaultLeaseSeconds, sheet.g.expiresAt - run[l].clock) ==
       Some(sheet.duration)
  }

  /** At step `k` a caller asked for this: for a new consumer, or presenting the token of one that had not expired. */
  ghost predicate StartedAt(run: seq<World>, acts: seq<Action>, k: nat, c: nat, g: Ticket, name: string, reason: string,
                            seconds: int)
  {
    && k < |acts| < |run|
    && match acts[k]
       case StartGrantNew(d, h, n, r, s, lifetime) =>
         && d == c && h == g && n == name && r == reason && s == seconds && g.isNew
         && ConsumerDuration(lifetime) == Some(g.expiresAt - run[k].clock)
       case StartGrantKnown(d, token, now, n, r, s) =>
         && d == c && token == g.token && n == name && r == reason && s == seconds && !g.isNew
         && token in run[k].svc.consumers && now <= run[k].clock && now < g.expiresAt
         && var m := run[k].svc.consumers[token].meta; m.id == g.id && m.title == g.title && m.expiresAt == g.expiresAt
       case _ => false
  }

  lemma AskingStep(derive: Bytes -> Option<PublicKey>, w: World, a: Action, w': World, c: nat)
    requires Step(derive, w, a, w') && c in w'.calls && !SameAt(w, w', c)
    ensures w'.calls[c].GrantAsking? ==> a == LockGrant(c) && LockGrantStep(w, c, w')
    ensures w'.calls[c].GrantWaiting? ==>
              (a.StartGrantNew? || a.StartGrantKnown?) && a.c == c
  {
    if Caller(a) != Some(c) {
      OnlyItsOwnCall(derive, w, a, w', c);
    } else if !OfGrant(a) {
      OthersAskNothing(derive, w, a, w', c);
    }
  }

  lemma OthersAskNothing(derive: Bytes -> Option<PublicKey>, w: World, a: Action, w': World, c: nat)
    requires Step(derive, w, a, w') && c in w'.calls && !OfGrant(a) && Caller(a) == Some(c)
    ensures !w'.calls[c].GrantAsking? && !w'.calls[c].GrantWaiting?
  {
    if a.Finish? {
      FinishMoves(w, c, w');
    }
  }

  lemma {:induction false} AskingWasAsked(derive: Bytes -> Option<PublicKey>, run: seq<World>, acts: seq<Action>,
                                          j: nat, c: nat)
    returns (l: nat, seconds: int)
    requires Run(derive, run, acts) && j < |run| && c in run[j].calls && run[j].calls[c].GrantAsking?
    ensures l < j && AskedAt(run, acts, l, c, SheetOf(run[j].calls[c]), seconds)
  {
    var i := j - 1;
    assert StepAt(derive, run, acts, i);
    if SameAt(run[i], run[j], c) {
      l, seconds := AskingWasAsked(derive, run, acts, i, c);
    } else {
      AskingStep(derive, run[i], acts[i], run[j], c);
      l, seconds := i, run[i].calls[c].seconds;
    }
  }

  lemma {:induction false} WaitingWasStarted(derive: Bytes -> Option<PublicKey>, run: seq<World>, acts: seq<Action>,
                                             j: nat, c: nat)
    returns (k: nat)
    requires Run(derive, run, acts) && j < |run| && c in run[j].calls && run[j].calls[c].GrantWaiting?
    ensures k < j
    ensures var w := run[j].calls[c]; StartedAt(run, acts, k, c, w.g, w.name, w.reason, w.seconds)
  {
    var i := j - 1;
    assert StepAt(derive, run, acts, i);
    if SameAt(run[i], run[j], c) {
      k := WaitingWasStarted(derive, run, acts, i, c);
    } else {
      AskingStep(derive, run[i], acts[i], run[j], c);
      k := i;
      StartStarts(derive, run[i], acts[i], run[j], c);
    }
  }

  lemma StartStarts(derive: Bytes -> Option<PublicKey>, w: World, a: Action, w': World, c: nat)
    requires Step(derive, w, a, w') && c !in w.calls && c in w'.calls && w'.calls[c].GrantWaiting?
    requires (a.StartGrantNew? || a.StartGrantKnown?) && a.c == c
    ensures StartedAt([w, w'], [a], 0, c, w'.calls[c].g, w'.calls[c].name, w'.calls[c].reason, w'.calls[c].seconds)
  {
    if a.StartGrantKnown? {
      var found :| GrantLooksUp(w.svc, w'.svc, a.token, a.now, w.clock, found) &&
                   var w1 := Guarded(w, w'.svc);
                   w' == match found
                         case NotFound => w1
                         case Found(id, title, expiresAt) =>
                           var g := Ticket(a.token, id, title, expiresAt, false);
                           w1.(calls := w1.calls[c := GrantWaiting(g, a.name, a.reason, a.seconds)]);
      SweptHolds(w.svc, w'.svc, a.now, w.clock);
    }
  }

  /**
    What a lease is, was asked for: someone asked for this profile, for this reason and duration; the sheet
    was made of that and of the profile as configured; the human approved the sheet; and the lease lasts
    just as long as it showed, or as its consumer.
  */
  lemma EveryLeaseWasAskedFor(derive: Bytes -> Option<PublicKey>, run: seq<World>, acts: seq<Action>, j: nat, t: Token,
                              id: string)
    returns (k: nat, l: nat, m: nat, n: nat, c: nat, sheet: Sheet, seconds: int)
    requires Run(derive, run, acts) && j < |run| && Live(run[j].svc.consumers, t, id)
    ensures k < l < m < n < j
    ensures StartedAt(run, acts, k, c, sheet.g, sheet.name, sheet.reason, seconds)
    ensures AskedAt(run, acts, l, c, sheet, seconds)
    ensures var lease := run[j].svc.consumers[t].leases[id];
            && ReadInto(run, acts, j, m, c, sheet, lease.secret) && Within(lease.meta, sheet) && t == sheet.g.token
            && StampedAt(run, acts, n, c, lease.meta)
  {
    m, n, c, sheet := EveryLeaseWasApproved(derive, run, acts, j, t, id);
    l, seconds := AskingWasAsked(derive, run, acts, m, c);
    k := WaitingWasStarted(derive, run, acts, l, c);
  }

  // ---------------------------------------------------------------- freshness

  /** A renewal leaves no lease of the profile. */
  lemma RenewalClears(derive: Bytes -> Option<PublicKey>, w: World, a: Action, w': World, name: string)
    requires Step(derive, w, a, w') && Renews(w, a, name)
    ensures NoLeaseOf(w'.svc.consumers, name)
  {
    if a.Finish? {
      assert FinishStep(w, a.c, w');
      UpdateShrinks(w.svc, w'.svc, name, w.clock);
    } else {
      assert ClearDeleteStep(w, a.c, w');
      DeleteShrinks(w.svc, w'.svc, name, w.clock);
    }
  }

  /** No profile is renewed while a grant that has read holds the profile lock. */
  lemma NoRenewalMeanwhile(derive: Bytes -> Option<PublicKey>, w: World, a: Action, c: nat, name: string)
    requires Inv(derive, w) && c in w.calls && HasRead(w.calls[c])
    ensures !Renews(w, a, name)
  {
    if a.Finish? || a.ClearDelete? {
      assert a.c in w.calls && Holding(w.calls[a.c]) ==> a.c == c;
    }
  }

  /**
    No lease outlives the secret it was granted: once an update commits or a deletion clears, every
    live lease of the profile was read from the keychain after that. No grant that was waiting for
    approval, or that had read already, can install the replaced secret.
  */
  lemma {:induction false} LeasesAreFresh(derive: Bytes -> Option<PublicKey>, run: seq<World>, acts: seq<Action>,
                                          i: nat, j: nat, t: Token, id: string)
    returns (m: nat, c: nat, sheet: Sheet)
    requires Run(derive, run, acts) && i < j < |run| && Live(run[j].svc.consumers, t, id)
    requires Renews(run[i], acts[i], run[j].svc.consumers[t].leases[id].meta.profile)
    ensures var lease := run[j].svc.consumers[t].leases[id];
            i < m && ReadInto(run, acts, j, m, c, sheet, lease.secret) && Within(lease.meta, sheet)
    decreases j
  {
    var k := j - 1;
    RenewedHasNone(derive, run, acts, i, run[j].svc.consumers[t].leases[id].meta.profile);
    LeaseBack(derive, run, acts, k, t, id);
    if WasLive(run[k], run[j], t, id) {
      m, c, sheet := LeasesAreFresh(derive, run, acts, i, k, t, id);
    } else {
      c := acts[k].c;
      var n: nat;
      m, n, sheet := StampedWasRead(derive, run, acts, k, c);
      ReadAfterRenewal(derive, run, acts, i, k, m, c, run[j].svc.consumers[t].leases[id].meta.profile);
    }
  }

  lemma RenewedHasNone(derive: Bytes -> Option<PublicKey>, run: seq<World>, acts: seq<Action>, i: nat, name: string)
    requires Run(derive, run, acts) && i < |acts| && Renews(run[i], acts[i], name)
    ensures NoLeaseOf(run[i + 1].svc.consumers, name)
  {
    assert StepAt(derive, run, acts, i);
    RenewalClears(derive, run[i], acts[i], run[i + 1], name);
  }

  lemma LeaseBack(derive: Bytes -> Option<PublicKey>, run: seq<World>, acts: seq<Action>, k: nat, t: Token, id: string)
    requires Run(derive, run, acts) && k < |acts| && Live(run[k + 1].svc.consumers, t, id)
    ensures var lease := run[k + 1].svc.consumers[t].leases[id];
            && (WasLive(run[k], run[k + 1], t, id) || Installed(run[k], acts[k], t, lease))
            && lease.secret in run[k].mem && lease.secret in run[k + 1].mem
            && run[k + 1].mem[lease.secret] == run[k].mem[lease.secret]
  {
    var w, a, w' := run[k], acts[k], run[k + 1];
    RunKeeps(derive, run, acts, k);
    assert StepAt(derive, run, acts, k);
    LeaseStep(derive, w, a, w', t, id);
    if WasLive(w, w', t, id) {
      assert Owned(w, Stored(LeaseOwner(t, id))) == Owned(w', Stored(LeaseOwner(t, id)));
      OwnedBytesStand(derive, w, a, w', Stored(LeaseOwner(t, id)));
    } else {
      HandingOverKeepsBytes(w, a.c, w');
    }
  }

  lemma ReadAfterRenewal(derive: Bytes -> Option<PublicKey>, run: seq<World>, acts: seq<Action>, i: nat, k: nat, m: nat,
                         c: nat, name: string)
    requires Run(derive, run, acts) && i <= k < |acts| && Renews(run[i], acts[i], name)
    requires UnderWay(run, m, k, c) && m < |acts| && acts[m].ReadGrant?
    ensures i < m
  {
    if m < i {
      RunKeeps(derive, run, acts, i);
      NoRenewalMeanwhile(derive, run[i], acts[i], c, name);
    }
  }

  // ---------------------------------------------------------------- a read is for one lease only

  /** Nobody but `o` holds the buffer, if anyone does. */
  ghost predicate OnlyHolder(w: World, o: Owner, b: nat) {
    b in w.mem && forall h :: Owned(w, h) == Some(b) ==> h == Stored(o)
  }

  /** A call's buffer is the one it had or one that did not exist. */
  lemma OwnBuffer(derive: Bytes -> Option<PublicKey>, w: World, a: Action, w': World, c: nat, b: nat)
    requires Step(derive, w, a, w') && Owned(w', InFlight(c)) == Some(b) && b in w.mem
    ensures Owned(w, InFlight(c)) == Some(b)
  {
    if Caller(a) != Some(c) {
      OnlyItsOwnCall(derive, w, a, w', c);
    } else if OfGrant(a) {
      OwnGrantBuffer(derive, w, a, w', b);
    } else if a.Finish? {
      FinishMoves(w, c, w');
    }
  }

  lemma OwnGrantBuffer(derive: Bytes -> Option<PublicKey>, w: World, a: Action, w': World, b: nat)
    requires Step(derive, w, a, w') && OfGrant(a) && Owned(w', InFlight(a.c)) == Some(b) && b in w.mem
    ensures Owned(w, InFlight(a.c)) == Some(b)
  {
  }

  /** A stored buffer was stored there before, or a call in flight handed it over. */
  lemma StoredBuffer(derive: Bytes -> Option<PublicKey>, w: World, a: Action, w': World, o: Owner, b: nat)
    requires Step(derive, w, a, w') && Holds(w'.svc, o) == Some(b)
    ensures Holds(w.svc, o) == Some(b) || exists c :: Owned(w, InFlight(c)) == Some(b)
  {
    if a.InstallGrant? {
      InstallSessions(derive, w, a.c, a.granted, w');
      if o.LeaseOwner? {
        InstallAddsOne(w, a.c, a.granted, w', o.token, o.id);
        assert Owned(w, InFlight(a.c)) == Some(w.calls[a.c].buf);
      }
    } else if a.OpenBegin? {
      assert OpenBeginStep(w, a.c, a.token, a.stamp, w');
      assert Owned(w, InFlight(a.c)) == Some(w.calls[a.c].buf);
    } else {
      StepShrinks(derive, w, a, w');
    }
  }

  lemma HolderStays(derive: Bytes -> Option<PublicKey>, w: World, a: Action, w': World, o: Owner, b: nat)
    requires Step(derive, w, a, w') && OnlyHolder(w, o, b)
    ensures OnlyHolder(w', o, b)
  {
    StepMoves(derive, w, a, w', b);
    forall h | Owned(w', h) == Some(b) ensures h == Stored(o) {
      match h {
        case InFlight(c) => OwnBuffer(derive, w, a, w', c, b);
        case Stored(p) =>
          StoredBuffer(derive, w, a, w', p, b);
          assert Owned(w, Stored(p)) == Holds(w.svc, p);
      }
    }
  }

  lemma {:induction false} HolderLasts(derive: Bytes -> Option<PublicKey>, run: seq<World>, acts: seq<Action>,
                                       i: nat, j: nat, o: Owner, b: nat)
    requires Run(derive, run, acts) && i <= j < |run| && OnlyHolder(run[i], o, b)
    ensures OnlyHolder(run[j], o, b)
    decreases j
  {
    if i < j {
      HolderLasts(derive, run, acts, i, j - 1, o, b);
      assert StepAt(derive, run, acts, j - 1);
      HolderStays(derive, run[j - 1], acts[j - 1], run[j], o, b);
    }
  }

  /** A secret buffer is one lease's for the whole run. */
  lemma SameSecretSameLease(derive: Bytes -> Option<PublicKey>, run: seq<World>, acts: seq<Action>, i: nat, j: nat,
                            t: Token, id: string, u: Token, other: string)
    requires Run(derive, run, acts) && i <= j < |run|
    requires Live(run[i].svc.consumers, t, id) && Live(run[j].svc.consumers, u, other)
    requires run[i].svc.consumers[t].leases[id].secret == run[j].svc.consumers[u].leases[other].secret
    ensures t == u && id == other
  {
    var o, b := LeaseOwner(t, id), run[i].svc.consumers[t].leases[id].secret;
    RunKeeps(derive, run, acts, i);
    assert Owned(run[i], Stored(o)) == Some(b);
    HolderLasts(derive, run, acts, i, j, o, b);
    assert Owned(run[j], Stored(LeaseOwner(u, other))) == Some(b);
  }

  /** One approval, one lease: different leases, live at any two moments, go back to different reads. */
  lemma LeasesHaveTheirOwnReads(derive: Bytes -> Option<PublicKey>, run: seq<World>, acts: seq<Action>, i: nat, j: nat,
                                t: Token, id: string, u: Token, other: string, m: nat, c: nat, sheet: Sheet,
                                n: nat, d: nat, sheet': Sheet)
    requires Run(derive, run, acts) && i <= j < |run| && (t, id) != (u, other)
    requires Live(run[i].svc.consumers, t, id) && Live(run[j].svc.consumers, u, other)
    requires ReadBy(run, acts, m, c, sheet, run[i].svc.consumers[t].leases[id].secret)
    requires ReadBy(run, acts, n, d, sheet', run[j].svc.consumers[u].leases[other].secret)
    ensures m != n
  {
    if m == n {
      SameSecretSameLease(derive, run, acts, i, j, t, id, u, other);
    }
  }
}
