/** Owners of secrets and management tokens, across steps and over whole runs. */
module DaemonCapabilities {
  import opened Common
  import opened DaemonState
  import opened DaemonSections
  import opened DaemonSectionLemmas
  import opened DaemonDurations
  import opened DaemonMachine
  import opened DaemonInvariant
  import opened DaemonShrinks
  import opened DaemonPreservation

  /** Only the last steps of `Grant` and `BeginProfileManagement` add a lease or a session. */
  lemma StepShrinks(derive: Bytes -> Option<PublicKey>, w: World, a: Action, w': World)
    requires Step(derive, w, a, w') && !a.InstallGrant? && !a.OpenBegin?
    ensures Shrinks(w.svc, w'.svc)
  {
    if OfGrant(a) || a.Look? {
      GrantShrinks(derive, w, a, w');
    } else if a.Finish? {
      FinishShrinks(w, a.c, w');
    } else if a.Authorise? {
      assert AuthoriseStep(w, a.c, a.token, w');
    } else if a.ClearDelete? {
      DeleteShrinks(w.svc, w'.svc, w.calls[a.c].name, w.clock);
    } else if OfManagement(a) || OfDeletion(a) || OfWriting(a) {
      ProfileShrinks(derive, w, a, w');
    } else if a.Ticker? {
      TickerShrinks(w, a.now, w');
    } else if a.RevokeCall? {
      var answer :| Revokes(w.svc, w'.svc, a.token, a.id, w.clock, w.clock, answer);
      RevokesShrinks(w.svc, w'.svc, a.token, a.id, w.clock, w.clock, answer);
    } else if a.AdminRevokeCall? {
      var answer :| AdminRevokes(w.svc, w'.svc, a.consumerId, a.id, w.clock, w.clock, answer);
      AdminRevokesShrinks(w.svc, w'.svc, a.consumerId, a.id, w.clock, w.clock, answer);
    }
  }

  lemma GrantShrinks(derive: Bytes -> Option<PublicKey>, w: World, a: Action, w': World)
    requires Step(derive, w, a, w') && (OfGrant(a) || a.Look?) && !a.InstallGrant?
    ensures Shrinks(w.svc, w'.svc)
  {
    match a {
      case Look => SweptShrinks(w.svc, w'.svc, w.clock, w.clock);
      case StartGrantKnown(c, token, now, name, reason, seconds) => SweptShrinks(w.svc, w'.svc, now, w.clock);
      case StartExec(c, token, id, buf) => SweptShrinks(w.svc, w'.svc, w.clock, w.clock);
      case _ =>
    }
  }

  lemma ProfileShrinks(derive: Bytes -> Option<PublicKey>, w: World, a: Action, w': World)
    requires Step(derive, w, a, w') && (OfManagement(a) || OfDeletion(a) || OfWriting(a))
    requires !a.OpenBegin? && !a.Finish? && !a.ClearDelete? && !a.Authorise?
    ensures Shrinks(w.svc, w'.svc)
  {
  }

  lemma FinishShrinks(w: World, c: nat, w': World)
    requires FinishStep(w, c, w')
    ensures Shrinks(w.svc, w'.svc)
  {
    if w.calls[c].job == UpdateJob {
      UpdateShrinks(w.svc, w'.svc, w.calls[c].name, w.clock);
    }
  }

  // ---------------------------------------------------------------- management tokens

  lemma TokensStayRetired(derive: Bytes -> Option<PublicKey>, w: World, a: Action, w': World, token: Token)
    requires Inv(derive, w) && Step(derive, w, a, w') && token in w.issued
    ensures token in w'.issued && (token !in w.svc.management ==> token !in w'.svc.management)
  {
    IssuedGrows(derive, w, a, w');
    if a.InstallGrant? {
      InstallSessions(derive, w, a.c, a.granted, w');
    } else if a.OpenBegin? {
      assert OpenBeginStep(w, a.c, a.token, a.stamp, w');
    } else {
      StepShrinks(derive, w, a, w');
    }
  }

  lemma IssuedGrows(derive: Bytes -> Option<PublicKey>, w: World, a: Action, w': World)
    requires Step(derive, w, a, w')
    ensures w.issued <= w'.issued
  {
    if OfWriting(a) {
      assert w'.issued == w.issued;
    }
  }

  lemma InstallSessions(derive: Bytes -> Option<PublicKey>, w: World, c: nat, granted: bool, w': World)
    requires InstallGrantStep(w, c, granted, w')
    ensures w'.svc.management == w.svc.management
  {
    var k, at := w.calls[c], w.clock;
    var es :| SweepPlan(w.svc, es, k.lease.grantedAt, at) &&
              InstallsAfterSweep(EndAll(w.svc, es, at), w'.svc, k.g, k.lease, k.buf, k.lease.grantedAt, at, granted);
    var s1 := EndAll(w.svc, es, at);
    EndAllRemoves(w.svc, es, at);
    if granted {
      var s2 := Admit(s1, k.g, k.lease.grantedAt, at).value;
      var fs :| InstallsOver(s2, fs, w'.svc, k.g, k.lease, k.buf, at);
      EndAllRemoves(s2, fs, at);
    }
  }

  /** A management token is retired at most once: when its session has gone it never opens another. */
  lemma {:induction false} TokensRetireOnce(derive: Bytes -> Option<PublicKey>, run: seq<World>, acts: seq<Action>,
                                            i: nat, j: nat, k: nat, token: Token)
    requires Run(derive, run, acts) && i <= j <= k < |run|
    requires token in run[i].svc.management && token !in run[j].svc.management
    ensures token !in run[k].svc.management
    decreases k
  {
    if j < k {
      TokensRetireOnce(derive, run, acts, i, j, k - 1, token);
      RunKeeps(derive, run, acts, k - 1);
      IssuedLasts(derive, run, acts, i, k - 1, token);
      assert StepAt(derive, run, acts, k - 1);
      TokensStayRetired(derive, run[k - 1], acts[k - 1], run[k], token);
    }
  }

  lemma {:induction false} IssuedLasts(derive: Bytes -> Option<PublicKey>, run: seq<World>, acts: seq<Action>, i: nat,
                                       k: nat, token: Token)
    requires Run(derive, run, acts) && i <= k < |run| && token in run[i].svc.management
    ensures token in run[k].issued
    decreases k
  {
    if i == k {
      RunKeeps(derive, run, acts, i);
    } else {
      IssuedLasts(derive, run, acts, i, k - 1, token);
      RunKeeps(derive, run, acts, k - 1);
      assert StepAt(derive, run, acts, k - 1);
      TokensStayRetired(derive, run[k - 1], acts[k - 1], run[k], token);
    }
  }

  // ---------------------------------------------------------------- updates are authorised

  /** Call `c` is an update of `name` that has got past its authorisation. */
  predicate UpdatePast(w: World, c: nat, name: string, secret: Bytes) {
    c in w.calls && w.calls[c].Writing? && w.calls[c].job == UpdateJob && w.calls[c].stage != Unauthorised &&
    w.calls[c].name == name && w.calls[c].secret == secret
  }

  /** By this step call `c`, which is this update, uses up an unexpired session of this profile. */
  predicate Authorised(w: World, a: Action, c: nat, name: string, secret: Bytes) {
    && a.Authorise? && a.c == c && c in w.calls
    && w.calls[c].Writing? && w.calls[c].name == name && w.calls[c].secret == secret
    && a.token in w.svc.management && w.svc.management[a.token].profile == name
    && w.clock < w.svc.management[a.token].expiresAt
  }

  /** The call a step belongs to. */
  function Caller(a: Action): Option<nat> {
    match a
    case Tick(_) => None
    case Ticker(_) => None
    case Look => None
    case RevokeCall(_, _) => None
    case AdminRevokeCall(_, _) => None
    case EndManagement(_, _) => None
    case Shutdown => None
    case _ => Some(a.c)
  }

  ghost predicate SameCall(w: World, w': World, d: nat) {
    (d in w'.calls <==> d in w.calls) && (d in w.calls ==> w'.calls[d] == w.calls[d])
  }

  lemma GrantCalls(derive: Bytes -> Option<PublicKey>, w: World, a: Action, w': World, d: nat)
    requires Step(derive, w, a, w') && OfGrant(a) && a.c != d
    ensures SameCall(w, w', d)
  {
  }

  lemma ManagementCalls(derive: Bytes -> Option<PublicKey>, w: World, a: Action, w': World, d: nat)
    requires Step(derive, w, a, w') && (OfManagement(a) || OfDeletion(a)) && Caller(a) != Some(d)
    ensures SameCall(w, w', d)
  {
  }

  lemma WritingCalls(derive: Bytes -> Option<PublicKey>, w: World, a: Action, w': World, d: nat)
    requires Step(derive, w, a, w') && OfWriting(a) && !a.Finish? && a.c != d
    ensures SameCall(w, w', d)
  {
  }

  /** A step moves no call but its own. */
  lemma OnlyItsOwnCall(derive: Bytes -> Option<PublicKey>, w: World, a: Action, w': World, d: nat)
    requires Step(derive, w, a, w') && Caller(a) != Some(d)
    ensures SameCall(w, w', d)
  {
    if OfGrant(a) {
      GrantCalls(derive, w, a, w', d);
    } else if OfManagement(a) || OfDeletion(a) {
      ManagementCalls(derive, w, a, w', d);
    } else if a.Finish? {
      FinishMoves(w, a.c, w');
    } else if OfWriting(a) {
      WritingCalls(derive, w, a, w', d);
    }
  }

  lemma UpdateStep(derive: Bytes -> Option<PublicKey>, w: World, a: Action, w': World, c: nat, name: string,
                   secret: Bytes)
    requires Step(derive, w, a, w') && UpdatePast(w', c, name, secret)
    ensures UpdatePast(w, c, name, secret) || Authorised(w, a, c, name, secret)
  {
    if Caller(a) != Some(c) {
      OnlyItsOwnCall(derive, w, a, w', c);
    } else if a.Keep? || a.Save? || a.Authorise? {
    } else {
      OwnCallIsNoUpdate(derive, w, a, w', c);
    }
  }

  lemma OwnCallIsNoUpdate(derive: Bytes -> Option<PublicKey>, w: World, a: Action, w': World, c: nat)
    requires Step(derive, w, a, w') && Caller(a) == Some(c) && !a.Keep? && !a.Save? && !a.Authorise?
    requires c in w'.calls && w'.calls[c].Writing? && w'.calls[c].job == UpdateJob
    ensures w'.calls[c].stage == Unauthorised
  {
  }

  /** An update that reaches the keychain was authorised by an unexpired token issued for that same profile. */
  lemma {:induction false} UpdatesAreAuthorised(derive: Bytes -> Option<PublicKey>, run: seq<World>, acts: seq<Action>,
                                                j: nat, c: nat, name: string, secret: Bytes)
    requires Run(derive, run, acts) && j < |run| && UpdatePast(run[j], c, name, secret)
    ensures exists i :: 0 <= i < j && Authorised(run[i], acts[i], c, name, secret)
  {
    if j > 0 {
      assert StepAt(derive, run, acts, j - 1);
      UpdateStep(derive, run[j - 1], acts[j - 1], run[j], c, name, secret);
      if UpdatePast(run[j - 1], c, name, secret) {
        UpdatesAreAuthorised(derive, run, acts, j - 1, c, name, secret);
      }
    }
  }

  // ---------------------------------------------------------------- owners keep their bytes

  /** The buffer stands, or is zeroed because a lease, a session or the call `c` lets it go. */
  ghost predicate Moves(w: World, w': World, c: Option<nat>, b: nat) {
    && b in w.mem && b in w'.mem
    && (w'.mem[b] == w.mem[b] ||
        (w'.mem[b] == Zeros(|w.mem[b]|) &&
         (Dropped(w.svc, w'.svc, b) ||
          (c.Some? && Owned(w, InFlight(c.value)) == Some(b) && Owned(w', InFlight(c.value)) == None))))
  }

  lemma GrantMoves(derive: Bytes -> Option<PublicKey>, w: World, a: Action, w': World, b: nat)
    requires Step(derive, w, a, w') && OfGrant(a) && !a.InstallGrant? && b in w.mem
    ensures Moves(w, w', Caller(a), b)
  {
  }

  lemma InstallMoves(w: World, c: nat, granted: bool, w': World, b: nat)
    requires InstallGrantStep(w, c, granted, w') && b in w.mem
    ensures Moves(w, w', Some(c), b)
  {
  }

  lemma ManagementMoves(derive: Bytes -> Option<PublicKey>, w: World, a: Action, w': World, b: nat)
    requires Step(derive, w, a, w') && (OfManagement(a) || OfDeletion(a)) && b in w.mem
    ensures Moves(w, w', Caller(a), b)
  {
  }

  lemma WritingMoves(derive: Bytes -> Option<PublicKey>, w: World, a: Action, w': World, b: nat)
    requires Step(derive, w, a, w') && OfWriting(a) && !a.Finish? && !a.Authorise? && b in w.mem
    ensures Moves(w, w', Caller(a), b)
  {
  }

  lemma AuthoriseMoves(w: World, c: nat, token: Token, w': World, b: nat)
    requires AuthoriseStep(w, c, token, w') && b in w.mem
    ensures Moves(w, w', Some(c), b)
  {
  }

  lemma FinishMoves(w: World, c: nat, w': World)
    requires FinishStep(w, c, w')
    ensures w'.calls == w.calls - {c}
    ensures forall b :: b in w.mem ==> Moves(w, w', Some(c), b)
  {
  }

  lemma OtherMoves(derive: Bytes -> Option<PublicKey>, w: World, a: Action, w': World, b: nat)
    requires Step(derive, w, a, w') && b in w.mem
    requires !OfGrant(a) && !OfManagement(a) && !OfDeletion(a) && !OfWriting(a)
    ensures Moves(w, w', Caller(a), b)
  {
  }

  lemma StepMoves(derive: Bytes -> Option<PublicKey>, w: World, a: Action, w': World, b: nat)
    requires Step(derive, w, a, w') && b in w.mem
    ensures Moves(w, w', Caller(a), b)
  {
    if a.InstallGrant? {
      InstallMoves(w, a.c, a.granted, w', b);
    } else if OfGrant(a) {
      GrantMoves(derive, w, a, w', b);
    } else if OfManagement(a) || OfDeletion(a) {
      ManagementMoves(derive, w, a, w', b);
    } else if a.Authorise? {
      AuthoriseMoves(w, a.c, a.token, w', b);
    } else if a.Finish? {
      FinishMoves(w, a.c, w');
    } else if OfWriting(a) {
      WritingMoves(derive, w, a, w', b);
    } else {
      OtherMoves(derive, w, a, w', b);
    }
  }

  /** Bytes change only when the one owner of the buffer lets it go. */
  lemma ChangedMeansLetGo(derive: Bytes -> Option<PublicKey>, w: World, a: Action, w': World, b: nat)
    requires Inv(derive, w) && Step(derive, w, a, w') && b in w.mem
    ensures b in w'.mem && (w'.mem[b] == w.mem[b] || exists h :: Owned(w, h) == Some(b) && Owned(w', h) == None)
  {
    StepMoves(derive, w, a, w', b);
    if o :| Holds(w.svc, o) == Some(b) && Holds(w'.svc, o).None? {
      assert Owned(w, Stored(o)) == Some(b) && Owned(w', Stored(o)) == None;
    }
  }

  /** Whatever a step zeroes, it leaves alone every buffer that still has its owner. */
  lemma OwnedBytesStand(derive: Bytes -> Option<PublicKey>, w: World, a: Action, w': World, h: Holder)
    requires Inv(derive, w) && Step(derive, w, a, w')
    requires Owned(w, h).Some? && Owned(w', h) == Owned(w, h)
    ensures var b := Owned(w, h).value; b in w.mem && b in w'.mem && w'.mem[b] == w.mem[b]
  {
    ChangedMeansLetGo(derive, w, a, w', Owned(w, h).value);
  }
}
