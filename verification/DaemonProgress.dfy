/** The loops always have an order to run in, and no reachable world is stuck. */
module DaemonProgress {
  import opened Common
  import opened DaemonState
  import opened DaemonSections
  import opened DaemonSectionLemmas
  import opened DaemonDurations
  import opened DaemonMachine
  import opened DaemonInvariant
  import opened DaemonPreservation
  import opened DaemonCapabilities

  lemma LoopPlan<B>(s: State<B>, token: Token, which: Which, who: Author, at: int) returns (es: seq<Ending>)
    requires token in s.consumers && who.kind in {Revoked, Expired}
    ensures Progress(s, es, at, Chosen(s.consumers, token, which), {})
    ensures forall e :: e in es ==> NoteBy(s.consumers, e, token, which, who)
  {
    es := [];
    var pending := s.consumers[token].leases.Keys;
    LoopStart(s, at, token, which, who);
    while pending != {}
      invariant LoopAt(s, es, at, token, which, who, pending)
    {
      var id :| id in pending;
      var lease := s.consumers[token].leases[id].meta;
      if Matches(which, lease) {
        LoopTurn(s, es, at, token, which, who, pending, id);
        es := es + [EndLease(token, id, LeaseNote(who.kind, who.consumerId, who.consumerLabel, lease, who.detail))];
      } else {
        LoopSkip(s, es, at, token, which, who, pending, id);
      }
      pending := pending - {id};
    }
    LoopDone(s, es, at, token, which, who);
  }

  lemma ConsumerPlanExists<B>(s: State<B>, token: Token, detail: string, at: int) returns (es: seq<Ending>)
    requires token in s.consumers
    ensures ConsumerPlan(s, es, token, detail, at)
  {
    var c := s.consumers[token].meta;
    es := LoopPlan(s, token, Every, Author(Revoked, c.id, c.title, detail), at);
    ConsumerPlanned(s, es, token, detail, at);
    es := es + [EndConsumer(token, ConsumerNote(ConsumerEnded, c.id, c.title, detail))];
  }

  /** From every state a sweep can be carried out. */
  lemma SweepPlanExists<B>(s: State<B>, now: int, at: int) returns (es: seq<Ending>)
    ensures SweepPlan(s, es, now, at)
  {
    es := [];
    var pending := s.consumers.Keys;
    SweepStart(s, at, now);
    while pending != {}
      invariant SweepAt(s, es, at, now, pending)
    {
      var token :| token in pending;
      SweepKeeps(s, es, at, now, pending, token);
      var s1, c := EndAll(s, es, at), s.consumers[token].meta;
      var fs := LoopPlan(s1, token, ExpiredBy(now), Author(Expired, c.id, c.title, LEASE_EXPIRED), at);
      SweepLeases(s, es, fs, at, now, pending, token);
      es := es + fs;
      if now < c.expiresAt {
        SweepOn(s, es, at, now, pending, token);
      } else {
        fs := ConsumerPlanExists(EndAll(s, es, at), token, CONSUMER_EXPIRED, at);
        SweepConsumer(s, es, fs, at, now, pending, token);
        es := es + fs;
      }
      pending := pending - {token};
    }
    SweepDone(s, es, at, now);
  }

  lemma ReplacePlanExists<B>(s: State<B>, g: Ticket, profile: string, at: int) returns (es: seq<Ending>)
    requires g.token in s.consumers
    ensures ReplacePlan(s, es, g.token, g, profile, at) && g.token in EndAll(s, es, at).consumers
  {
    es := LoopPlan(s, g.token, OfProfile(profile), Author(Revoked, g.id, g.title, REPLACED), at);
    ReplacePlanned(s, es, g, profile, at);
  }

  /** The last section of a grant always has an outcome. */
  lemma InstallExists(w: World, c: nat) returns (granted: bool, w': World)
    requires c in w.calls && w.calls[c].GrantStamped?
    ensures InstallGrantStep(w, c, granted, w')
  {
    var k, at := w.calls[c], w.clock;
    var now := k.lease.grantedAt;
    var es := SweepPlanExists(w.svc, now, at);
    var s1 := EndAll(w.svc, es, at);
    var admitted := Admit(s1, k.g, now, at);
    if admitted.None? {
      granted, w' := false, Returned(Guarded(w, s1), c);
      assert InstallsAfterSweep(s1, w'.svc, k.g, k.lease, k.buf, now, at, granted);
    } else {
      var fs := ReplacePlanExists(admitted.value, k.g, k.lease.profile, at);
      var s' := Install(EndAll(admitted.value, fs, at), k.g, k.lease, k.buf, at);
      granted, w' := true, HandedOver(Guarded(w, s'), c);
      assert InstallsOver(admitted.value, fs, w'.svc, k.g, k.lease, k.buf, at);
      assert InstallsAfterSweep(s1, w'.svc, k.g, k.lease, k.buf, now, at, granted);
    }
    assert GrantInstalls(w.svc, w'.svc, k.g, k.lease, k.buf, now, at, granted);
  }

  lemma ProfilePlanExists<B>(s: State<B>, profile: string, detail: string, at: int) returns (es: seq<Ending>)
    ensures ProfilePlan(s, es, profile, detail, at)
  {
    es := [];
    var pending := s.consumers.Keys;
    ProfileStart(s, at, profile, detail);
    while pending != {}
      invariant ProfileAt(s, es, at, profile, detail, pending)
    {
      var token :| token in pending;
      ProfileKeeps(s, es, at, profile, detail, pending, token);
      var c := s.consumers[token].meta;
      var fs := LoopPlan(EndAll(s, es, at), token, OfProfile(profile), Author(Revoked, c.id, c.title, detail), at);
      ProfileTurn(s, es, fs, at, profile, detail, pending, token);
      es := es + fs;
      pending := pending - {token};
    }
    ProfileDone(s, es, at, profile, detail);
  }

  lemma FreshBuffer(used: set<nat>) returns (b: nat)
    ensures b !in used
  {
    b := 0;
    var seen: set<nat> := {};
    while seen != used
      invariant seen <= used && forall x :: x in seen ==> x < b
      decreases |used - seen|
    {
      var x :| x in used - seen;
      seen := seen + {x};
      b := if x < b then b else x + 1;
    }
  }

  lemma FreshName(used: set<string>) returns (name: string)
    ensures name !in used
  {
    name := "";
    var seen: set<string> := {};
    while seen != used
      invariant seen <= used && forall x :: x in seen ==> |x| < |name| || x == ""
      invariant seen != {} ==> name != ""
      decreases |used - seen|
    {
      var x :| x in used - seen;
      seen := seen + {x};
      name := if |x| < |name| then name else x + "x";
    }
  }

  /** The call can take a step that is not its error return. */
  ghost predicate GoesOn(derive: Bytes -> Option<PublicKey>, w: World, c: nat) {
    exists a, w' :: Caller(a) == Some(c) && !a.Fail? && Step(derive, w, a, w')
  }

  lemma LockGrantGoes(derive: Bytes -> Option<PublicKey>, w: World, c: nat, w': World)
    requires LockGrantStep(w, c, w')
    ensures GoesOn(derive, w, c)
  {
    assert Caller(LockGrant(c)) == Some(c) && Step(derive, w, LockGrant(c), w');
  }

  lemma ReadGrantGoes(derive: Bytes -> Option<PublicKey>, w: World, c: nat, buf: nat, w': World)
    requires ReadGrantStep(w, c, buf, w')
    ensures GoesOn(derive, w, c)
  {
    assert Caller(ReadGrant(c, buf)) == Some(c) && Step(derive, w, ReadGrant(c, buf), w');
  }

  lemma StampGrantGoes(derive: Bytes -> Option<PublicKey>, w: World, c: nat, id: string, w': World)
    requires StampStep(derive, w, c, id, w')
    ensures GoesOn(derive, w, c)
  {
    assert Caller(StampGrant(c, id)) == Some(c) && Step(derive, w, StampGrant(c, id), w');
  }

  lemma ReadBeginGoes(derive: Bytes -> Option<PublicKey>, w: World, c: nat, buf: nat, w': World)
    requires ReadBeginStep(w, c, buf, w')
    ensures GoesOn(derive, w, c)
  {
    assert Caller(ReadBegin(c, buf)) == Some(c) && Step(derive, w, ReadBegin(c, buf), w');
  }

  lemma OpenBeginGoes(derive: Bytes -> Option<PublicKey>, w: World, c: nat, token: Token, stamp: int, w': World)
    requires OpenBeginStep(w, c, token, stamp, w')
    ensures GoesOn(derive, w, c)
  {
    assert Caller(OpenBegin(c, token, stamp)) == Some(c) && Step(derive, w, OpenBegin(c, token, stamp), w');
  }

  lemma AuthoriseGoes(derive: Bytes -> Option<PublicKey>, w: World, c: nat, token: Token, w': World)
    requires AuthoriseStep(w, c, token, w')
    ensures GoesOn(derive, w, c)
  {
    assert Caller(Authorise(c, token)) == Some(c) && Step(derive, w, Authorise(c, token), w');
  }

  lemma KeepGoes(derive: Bytes -> Option<PublicKey>, w: World, c: nat, w': World)
    requires KeepStep(w, c, w')
    ensures GoesOn(derive, w, c)
  {
    assert Caller(Keep(c)) == Some(c) && Step(derive, w, Keep(c), w');
  }

  lemma SaveGoes(derive: Bytes -> Option<PublicKey>, w: World, c: nat, w': World)
    requires SaveStep(w, c, w')
    ensures GoesOn(derive, w, c)
  {
    assert Caller(Save(c)) == Some(c) && Step(derive, w, Save(c), w');
  }

  lemma FinishGoes(derive: Bytes -> Option<PublicKey>, w: World, c: nat, w': World)
    requires FinishStep(w, c, w')
    ensures GoesOn(derive, w, c)
  {
    assert Caller(Finish(c)) == Some(c) && Step(derive, w, Finish(c), w');
  }

  lemma ApproveDeleteGoes(derive: Bytes -> Option<PublicKey>, w: World, c: nat, w': World)
    requires ApproveDeleteStep(w, c, w')
    ensures GoesOn(derive, w, c)
  {
    assert Caller(ApproveDelete(c)) == Some(c) && Step(derive, w, ApproveDelete(c), w');
  }

  lemma ClearDeleteGoes(derive: Bytes -> Option<PublicKey>, w: World, c: nat, w': World)
    requires ClearDeleteStep(w, c, w')
    ensures GoesOn(derive, w, c)
  {
    assert Caller(ClearDelete(c)) == Some(c) && Step(derive, w, ClearDelete(c), w');
  }

  lemma SaveDeleteGoes(derive: Bytes -> Option<PublicKey>, w: World, c: nat, w': World)
    requires SaveDeleteStep(w, c, w')
    ensures GoesOn(derive, w, c)
  {
    assert Caller(SaveDelete(c)) == Some(c) && Step(derive, w, SaveDelete(c), w');
  }

  lemma FinishDeleteGoes(derive: Bytes -> Option<PublicKey>, w: World, c: nat, w': World)
    requires FinishDeleteStep(w, c, w')
    ensures GoesOn(derive, w, c)
  {
    assert Caller(FinishDelete(c)) == Some(c) && Step(derive, w, FinishDelete(c), w');
  }

  lemma InstallGrantGoes(derive: Bytes -> Option<PublicKey>, w: World, c: nat, granted: bool, w': World)
    requires InstallGrantStep(w, c, granted, w')
    ensures GoesOn(derive, w, c)
  {
    assert Caller(InstallGrant(c, granted)) == Some(c) && Step(derive, w, InstallGrant(c, granted), w');
  }

  /** The call has met one of its own errors, and returns. */
  predicate Doomed(derive: Bytes -> Option<PublicKey>, w: World, c: nat)
    requires c in w.calls
  {
    match w.calls[c]
    case GrantWaiting(g, name, _, seconds) =>
      name !in w.config || name == "" ||
      LeaseDuration(seconds, w.config[name].defaultLeaseSeconds, g.expiresAt - w.clock).None?
    case GrantAsking(_, name, _, _, _) => name !in w.keychain
    case GrantChecking(_, _, _, profile, _, buf) =>
      profile.kind == Ssh && buf in w.mem && derive(w.mem[buf]) != Some(profile.publicKey)
    case BeginAsking(name) => name !in w.keychain
    case _ => false
  }

  ghost predicate Moving(derive: Bytes -> Option<PublicKey>, w: World, c: nat) {
    c in w.calls && (GoesOn(derive, w, c) || (Doomed(derive, w, c) && MayFail(w, w.calls[c])))
  }

  lemma GrantMoving(derive: Bytes -> Option<PublicKey>, w: World, c: nat)
    requires Inv(derive, w) && c in w.calls && (w.calls[c].GrantWaiting? ==> w.profileMu == None)
    requires var k := w.calls[c]; k.GrantWaiting? || k.GrantAsking? || k.GrantChecking? || k.GrantStamped?
    ensures Moving(derive, w, c)
  {
    var k := w.calls[c];
    assert CallOk(derive, w, k);
    if k.GrantStamped? {
      var granted, w' := InstallExists(w, c);
      InstallGrantGoes(derive, w, c, granted, w');
    } else if Doomed(derive, w, c) {
      assert MayFail(w, k);
    } else if k.GrantWaiting? {
      var profile := w.config[k.name];
      var d := LeaseDuration(k.seconds, profile.defaultLeaseSeconds, k.g.expiresAt - w.clock);
      var w' := w.(profileMu := Some(c), calls := w.calls[c := GrantAsking(k.g, k.name, k.reason, profile, d.value)]);
      LockGrantGoes(derive, w, c, w');
    } else if k.GrantAsking? {
      var buf := FreshBuffer(w.mem.Keys);
      var w' := w.(mem := w.mem[buf := w.keychain[k.name]],
                   calls := w.calls[c := GrantChecking(k.g, k.name, k.reason, k.profile, k.duration, buf)]);
      ReadGrantGoes(derive, w, c, buf, w');
    } else {
      StampMoving(derive, w, c);
    }
  }

  lemma StampMoving(derive: Bytes -> Option<PublicKey>, w: World, c: nat)
    requires c in w.calls && w.calls[c].GrantChecking? && CallOk(derive, w, w.calls[c]) && !Doomed(derive, w, c)
    ensures Moving(derive, w, c)
  {
    var k := w.calls[c];
    var id := FreshName(w.issued);
    var lease := Lease(id, k.profile.kind, k.g.id, k.g.title, k.name, k.profile.environmentVariable, k.reason,
                       w.clock, Min(w.clock + k.duration, k.g.expiresAt));
    var w' := w.(calls := w.calls[c := GrantStamped(k.g, lease, k.buf)], issued := w.issued + {id});
    StampGrantGoes(derive, w, c, id, w');
  }

  lemma ManagementMoving(derive: Bytes -> Option<PublicKey>, w: World, c: nat)
    requires Inv(derive, w) && c in w.calls
    requires w.calls[c].BeginAsking? || w.calls[c].BeginOpening? || w.calls[c].Executing?
    ensures Moving(derive, w, c)
  {
    var k := w.calls[c];
    if k.Executing? {
      assert Caller(FinishExec(c)) == Some(c) && Step(derive, w, FinishExec(c), Returned(w, c));
    } else if Doomed(derive, w, c) {
      assert MayFail(w, k);
    } else if k.BeginAsking? {
      var buf := FreshBuffer(w.mem.Keys);
      var w' := w.(mem := w.mem[buf := w.keychain[k.name]], calls := w.calls[c := BeginOpening(k.name, buf)]);
      ReadBeginGoes(derive, w, c, buf, w');
    } else {
      var token := FreshName(w.issued);
      var s' := SessionOpened(w.svc, token, Session(k.name, k.buf, w.clock + MANAGEMENT_TTL), w.clock, w.clock);
      var w' := HandedOver(Guarded(w, s'), c).(issued := w.issued + {token});
      OpenBeginGoes(derive, w, c, token, w.clock, w');
    }
  }

  lemma WritingMoving(derive: Bytes -> Option<PublicKey>, w: World, c: nat)
    requires Inv(derive, w) && c in w.calls && w.calls[c].Writing?
    ensures Moving(derive, w, c)
  {
    var k := w.calls[c];
    match k.stage {
      case Unauthorised =>
        var w1 := Guarded(w, SessionConsumed(w.svc, k.name, "", w.clock));
        var w' := if Authorises(w.svc, k.name, "", w.clock) then w1.(calls := w1.calls[c := k.(stage := Ready)])
                  else Returned(w1, c);
        AuthoriseGoes(derive, w, c, "", w');
      case Ready =>
        var w' := w.(keychain := w.keychain[k.name := k.secret],
                     since := w.since[k.name := Since(w, k.name) + {k.secret}],
                     calls := w.calls[c := k.(stage := Kept)]);
        KeepGoes(derive, w, c, w');
      case Kept =>
        var w' := w.(config := k.loaded[k.name := k.profile], calls := w.calls[c := k.(stage := Saved)]);
        SaveGoes(derive, w, c, w');
      case Saved =>
        assert CallOk(derive, w, k);
        var w' := FinishExists(derive, w, c);
        FinishGoes(derive, w, c, w');
    }
  }

  lemma FinishExists(derive: Bytes -> Option<PublicKey>, w: World, c: nat) returns (w': World)
    requires WritingAt(w, c, Saved) && CallOk(derive, w, w.calls[c])
    ensures FinishStep(w, c, w')
  {
    var k := w.calls[c];
    if k.job == UpdateJob {
      var es := ProfilePlanExists(w.svc, k.name, PROFILE_CHANGED, w.clock);
      var s' := Record(EndAll(w.svc, es, w.clock), UpdatedNote(k.name), w.clock);
      w' := Returned(Guarded(w, s'), c).(since := w.since[k.name := {w.keychain[k.name]}]);
      assert UpdateCommits(w.svc, s', k.name, w.clock) && w'.svc == s';
    } else {
      w' := Returned(w.(svc := Record(w.svc, SavedNote(k.name, SavedDetail(k.job)), w.clock)), c);
    }
  }

  lemma DeletingMoving(derive: Bytes -> Option<PublicKey>, w: World, c: nat)
    requires c in w.calls && w.calls[c].Deleting?
    ensures Moving(derive, w, c)
  {
    var k := w.calls[c];
    match k.step {
      case Unapproved =>
        var w' := w.(keychain := w.keychain - {k.name}, calls := w.calls[c := k.(step := DeleteStage.Approved)]);
        ApproveDeleteGoes(derive, w, c, w');
      case Approved =>
        var es := ProfilePlanExists(w.svc, k.name, PROFILE_DELETED, w.clock);
        var s' := SessionsWithout(EndAll(w.svc, es, w.clock), k.name);
        var w' := Guarded(w, s').(since := w.since - {k.name}, calls := w.calls[c := k.(step := Cleared)]);
        assert DeleteClears(w.svc, s', k.name, w.clock) && w'.svc == s';
        ClearDeleteGoes(derive, w, c, w');
      case Cleared =>
        var w' := w.(config := k.loaded - {k.name}, calls := w.calls[c := k.(step := DeleteStage.Removed)]);
        SaveDeleteGoes(derive, w, c, w');
      case Removed =>
        var w' := Returned(w.(svc := Record(w.svc, RemovedNote(k.name), w.clock)), c);
        FinishDeleteGoes(derive, w, c, w');
    }
  }

  lemma FreeCallMoves(derive: Bytes -> Option<PublicKey>, w: World, c: nat)
    requires Inv(derive, w) && c in w.calls && (w.calls[c].GrantWaiting? ==> w.profileMu == None)
    ensures Moving(derive, w, c)
  {
    match w.calls[c] {
      case Writing(_, _, _, _, _, _) => WritingMoving(derive, w, c);
      case Deleting(_, _, _) => DeletingMoving(derive, w, c);
      case BeginAsking(_) => ManagementMoving(derive, w, c);
      case BeginOpening(_, _) => ManagementMoving(derive, w, c);
      case Executing(_) => ManagementMoving(derive, w, c);
      case _ => GrantMoving(derive, w, c);
    }
  }

  /**
    No deadlock. In every reachable world each call in flight can go on, unless it has met an error of
    its own and returns; or it is a grant waiting for the profile lock, and then that is so of the holder.
  */
  lemma NothingIsStuck(derive: Bytes -> Option<PublicKey>, run: seq<World>, acts: seq<Action>, i: nat, c: nat)
    requires Run(derive, run, acts) && i < |run| && c in run[i].calls
    ensures var w := run[i];
            if w.calls[c].GrantWaiting? && w.profileMu.Some?
            then w.profileMu.value != c && Moving(derive, w, w.profileMu.value)
            else Moving(derive, w, c)
  {
    var w := run[i];
    RunKeeps(derive, run, acts, i);
    if w.calls[c].GrantWaiting? && w.profileMu.Some? {
      FreeCallMoves(derive, w, w.profileMu.value);
    } else {
      FreeCallMoves(derive, w, c);
    }
  }

  /** How many steps of its own a call has left at most. */
  function Rank(call: Call): nat {
    match call
    case GrantWaiting(_, _, _, _) => 4
    case GrantAsking(_, _, _, _, _) => 3
    case GrantChecking(_, _, _, _, _, _) => 2
    case GrantStamped(_, _, _) => 1
    case Executing(_) => 1
    case BeginAsking(_) => 2
    case BeginOpening(_, _) => 1
    case Writing(_, stage, _, _, _, _) =>
      (match stage case Unauthorised => 4 case Ready => 3 case Kept => 2 case Saved => 1)
    case Deleting(step, _, _) =>
      (match step case Unapproved => 4 case Approved => 3 case Cleared => 2 case Removed => 1)
  }

  /** Every step of a call's own brings it nearer its end, so the profile lock is always released. */
  lemma OwnStepsEnd(derive: Bytes -> Option<PublicKey>, w: World, a: Action, w': World, c: nat)
    requires Step(derive, w, a, w') && Caller(a) == Some(c) && c in w.calls
    ensures c !in w'.calls || Rank(w'.calls[c]) < Rank(w.calls[c])
  {
    if a.Finish? {
      assert FinishStep(w, c, w');
    }
  }
}
