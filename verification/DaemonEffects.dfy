/**
  What calls bring about over whole runs, whatever ran between their steps: what a child is given, what a
  revocation leaves, and what the profile writers make of the configuration and the keychain.
*/
module DaemonEffects {
  import opened Common
  import opened DaemonState
  import opened DaemonSections
  import opened DaemonSectionLemmas
  import opened DaemonDurations
  import opened DaemonMachine
  import opened DaemonInvariant
  import opened DaemonPreservation
  import opened DaemonCapabilities
  import opened DaemonApprovals
  import M = DaemonMeanings

  // ---------------------------------------------------------------- executions

  /** At step `i` call `c` looked this lease up: it was current, and no SSH lease. */
  ghost predicate LookedUp(run: seq<World>, acts: seq<Action>, i: nat, c: nat, token: Token, id: string, buf: nat) {
    && i < |acts| < |run| && acts[i] == StartExec(c, token, id, buf)
    && token != "" && M.Current(run[i].svc, token, id, run[i].clock)
    && run[i].svc.consumers[token].leases[id].meta.kind != Ssh
    && run[i].svc.consumers[token].leases[id].secret in run[i].mem
  }

  lemma ExecLooksUp(w: World, c: nat, token: Token, id: string, buf: nat, w': World)
    returns (answer: Option<ActiveLease<nat>>)
    requires StartExecStep(w, c, token, id, buf, w') && c in w'.calls
    ensures answer.Some? && LooksUpLease(w.svc, w'.svc, token, id, w.clock, w.clock, answer)
    ensures var b := answer.value.secret;
            && w'.calls[c] == Executing(buf) && b in w'.mem && b in w.mem && b != buf
            && buf in w'.mem && w'.mem[buf] == w'.mem[b]
  {
    answer :| LooksUpLease(w.svc, w'.svc, token, id, w.clock, w.clock, answer) &&
              var w1 := Guarded(w, w'.svc);
              if answer.None? then w' == w1
              else answer.value.secret in w1.mem &&
                   w' == w1.(mem := w1.mem[buf := w1.mem[answer.value.secret]],
                             calls := w1.calls[c := Executing(buf)]);
  }

  lemma ExecStarts(derive: Bytes -> Option<PublicKey>, run: seq<World>, acts: seq<Action>, i: nat, c: nat)
    requires Run(derive, run, acts) && i < |acts| && acts[i].StartExec? && acts[i].c == c
    requires c in run[i + 1].calls
    ensures var a, w := acts[i], run[i];
            && run[i + 1].calls[c] == Executing(a.buf) && LookedUp(run, acts, i, c, a.token, a.id, a.buf)
            && a.buf in run[i + 1].mem
            && run[i + 1].mem[a.buf] == w.mem[w.svc.consumers[a.token].leases[a.id].secret]
  {
    var w, a, w' := run[i], acts[i], run[i + 1];
    RunKeeps(derive, run, acts, i);
    assert StepAt(derive, run, acts, i);
    var answer := ExecLooksUp(w, c, a.token, a.id, a.buf, w');
    M.ExecuteMeans(w.svc, w'.svc, a.token, a.id, w.clock, w.clock, answer);
    assert M.LeaseStays(w.svc, w'.svc, a.token, a.id);
    var h := Stored(LeaseOwner(a.token, a.id));
    assert Owned(w, h) == Owned(w', h) == Some(answer.value.secret);
    OwnedBytesStand(derive, w, a, w', h);
  }

  lemma ExecStep(derive: Bytes -> Option<PublicKey>, w: World, a: Action, w': World, c: nat)
    requires Step(derive, w, a, w') && c in w'.calls && w'.calls[c].Executing?
    ensures SameAt(w, w', c) || (a.StartExec? && a.c == c)
  {
    if Caller(a) != Some(c) {
      OnlyItsOwnCall(derive, w, a, w', c);
    } else if !a.StartExec? {
      OthersRunNothing(derive, w, a, w', c);
    }
  }

  lemma OthersRunNothing(derive: Bytes -> Option<PublicKey>, w: World, a: Action, w': World, c: nat)
    requires Step(derive, w, a, w') && Caller(a) == Some(c) && !a.StartExec? && c in w'.calls
    ensures !w'.calls[c].Executing?
  {
    if a.Finish? {
      FinishMoves(w, c, w');
    }
  }

  /** What a child is given is the secret of a lease that was current when it was asked for, and no SSH key. */
  lemma {:induction false} ChildrenHaveLeases(derive: Bytes -> Option<PublicKey>, run: seq<World>, acts: seq<Action>,
                                              j: nat, c: nat)
    returns (i: nat, token: Token, id: string)
    requires Run(derive, run, acts) && j < |run| && c in run[j].calls && run[j].calls[c].Executing?
    ensures var buf := run[j].calls[c].buf;
            && i < j && LookedUp(run, acts, i, c, token, id, buf)
            && buf in run[j].mem && run[j].mem[buf] == run[i].mem[run[i].svc.consumers[token].leases[id].secret]
  {
    var before := j - 1;
    assert StepAt(derive, run, acts, before);
    ExecStep(derive, run[before], acts[before], run[j], c);
    if SameAt(run[before], run[j], c) {
      i, token, id := ChildrenHaveLeases(derive, run, acts, before, c);
      RunKeeps(derive, run, acts, before);
      OwnedBytesStand(derive, run[before], acts[before], run[j], InFlight(c));
    } else {
      i, token, id := before, acts[before].token, acts[before].id;
      ExecStarts(derive, run, acts, before, c);
    }
  }

  /**
    No secret reaches a child without a human, and no SSH key does: the child's copy is what the keychain
    held, for a profile that is no SSH profile, when the human approved the lease it presents.
  */
  lemma ChildrenHaveWhatWasApproved(derive: Bytes -> Option<PublicKey>, run: seq<World>, acts: seq<Action>, j: nat,
                                    c: nat)
    returns (m: nat, d: nat, i: nat, token: Token, id: string, sheet: Sheet, source: nat)
    requires Run(derive, run, acts) && j < |run| && c in run[j].calls && run[j].calls[c].Executing?
    ensures var buf := run[j].calls[c].buf;
            && m < i < j && LookedUp(run, acts, i, c, token, id, buf)
            && ReadBy(run, acts, m, d, sheet, source) && sheet.profile.kind != Ssh
            && Within(run[i].svc.consumers[token].leases[id].meta, sheet) && token == sheet.g.token
            && buf in run[j].mem && run[j].mem[buf] == run[m].keychain[sheet.name]
  {
    i, token, id := ChildrenHaveLeases(derive, run, acts, j, c);
    source := run[i].svc.consumers[token].leases[id].secret;
    var n: nat;
    m, n, d, sheet := EveryLeaseWasApproved(derive, run, acts, i, token, id);
  }

  // ---------------------------------------------------------------- grants

  /**
    The check a grant makes again before it installs fails only because its consumer has gone meanwhile; the
    lease is then live with the very bytes read, and otherwise they are zero.
  */
  lemma GrantsInstallExactly(derive: Bytes -> Option<PublicKey>, run: seq<World>, acts: seq<Action>, i: nat, c: nat,
                             granted: bool)
    requires Run(derive, run, acts) && i < |acts| && acts[i] == InstallGrant(c, granted)
    ensures c in run[i].calls && run[i].calls[c].GrantStamped?
    ensures var k := run[i].calls[c];
            && (granted <==> k.g.isNew || M.Known(run[i].svc, k.g.token, k.lease.grantedAt))
            && (granted ==> M.LeaseInstalled(run[i].svc, run[i + 1].svc, k.g, k.lease, k.buf, k.lease.grantedAt))
            && k.buf in run[i].mem && k.buf in run[i + 1].mem
            && (if granted then run[i + 1].mem[k.buf] == run[i].mem[k.buf] else AllZero(run[i + 1].mem[k.buf]))
  {
    var w, w' := run[i], run[i + 1];
    RunKeeps(derive, run, acts, i);
    assert StepAt(derive, run, acts, i);
    assert InstallGrantStep(w, c, granted, w');
    var k := w.calls[c];
    assert TicketAt(w, c) == Some(k.g) && TicketOk(w, k.g);
    assert Owned(w, InFlight(c)) == Some(k.buf);
    M.InstallMeans(w.svc, w'.svc, k.g, k.lease, k.buf, k.lease.grantedAt, w.clock, granted);
    if granted {
      HandingOverKeepsBytes(w, c, w');
    }
  }

  // ---------------------------------------------------------------- revocations

  /** The lease's secret is zero now. */
  ghost predicate SecretGone(w: World, w': World, t: Token, id: string) {
    Live(w.svc.consumers, t, id) ==>
      var b := w.svc.consumers[t].leases[id].secret; b in w.mem && b in w'.mem && AllZero(w'.mem[b])
  }

  /** So are those of all the consumer's leases, when none is named. */
  ghost predicate SecretsGone(w: World, w': World, t: Token, id: string) {
    forall x :: id == "" || x == id ==> SecretGone(w, w', t, x)
  }

  lemma DroppedIsZero(derive: Bytes -> Option<PublicKey>, w: World, s': State<nat>, t: Token, id: string)
    requires Inv(derive, w) && !Live(s'.consumers, t, id)
    ensures SecretGone(w, Guarded(w, s'), t, id)
  {
    if Live(w.svc.consumers, t, id) {
      var o, b := LeaseOwner(t, id), w.svc.consumers[t].leases[id].secret;
      assert Owned(w, Stored(o)) == Some(b) && Holds(w.svc, o) == Some(b) && Holds(s', o).None?;
    }
  }

  /** Whatever it answers, a revocation leaves no lease, or no consumer, of that name, and its secrets are zero. */
  lemma RevokedIsGone(derive: Bytes -> Option<PublicKey>, run: seq<World>, acts: seq<Action>, i: nat, token: Token,
                      id: string)
    requires Run(derive, run, acts) && i < |acts| && acts[i] == RevokeCall(token, id)
    ensures if id == "" then token !in run[i + 1].svc.consumers else !Live(run[i + 1].svc.consumers, token, id)
    ensures SecretsGone(run[i], run[i + 1], token, id)
  {
    var w, w' := run[i], run[i + 1];
    RunKeeps(derive, run, acts, i);
    assert StepAt(derive, run, acts, i);
    assert RevokeStep(w, token, id, w');
    var answer :| Revokes(w.svc, w'.svc, token, id, w.clock, w.clock, answer);
    M.RevokeMeans(w.svc, w'.svc, token, id, w.clock, w.clock, answer);
    forall x | id == "" || x == id ensures SecretGone(w, w', token, x) {
      DroppedIsZero(derive, w, w'.svc, token, x);
    }
  }

  /** The app's revocation does the same to the consumer it names. */
  lemma AdminRevokedIsGone(derive: Bytes -> Option<PublicKey>, run: seq<World>, acts: seq<Action>, i: nat,
                           token: Token, id: string)
    requires Run(derive, run, acts) && i < |acts| && acts[i].AdminRevokeCall? && acts[i].id == id
    requires token in run[i].svc.consumers && run[i].svc.consumers[token].meta.id == acts[i].consumerId
    ensures if id == "" then token !in run[i + 1].svc.consumers else !Live(run[i + 1].svc.consumers, token, id)
    ensures SecretsGone(run[i], run[i + 1], token, id)
  {
    var w, w', consumerId := run[i], run[i + 1], acts[i].consumerId;
    RunKeeps(derive, run, acts, i);
    assert StepAt(derive, run, acts, i);
    assert AdminRevokeStep(w, consumerId, id, w');
    var answer :| AdminRevokes(w.svc, w'.svc, consumerId, id, w.clock, w.clock, answer);
    M.AdminRevokeMeans(w.svc, w'.svc, consumerId, id, w.clock, w.clock, answer);
    assert M.Known(w.svc, token, w.clock) ==> M.Names(w.svc, token, consumerId, w.clock);
    assert !M.Known(w.svc, token, w.clock) ==> token !in w'.svc.consumers;
    forall x | id == "" || x == id ensures SecretGone(w, w', token, x) {
      DroppedIsZero(derive, w, w'.svc, token, x);
    }
  }

  /** The identifier has been drawn, and no grant on its way is to install it. */
  ghost predicate NotComing(w: World, id: string) {
    id in w.issued && forall c :: c in w.calls && w.calls[c].GrantStamped? ==> w.calls[c].lease.id != id
  }

  lemma StaysAway(derive: Bytes -> Option<PublicKey>, w: World, a: Action, w': World, t: Token, id: string)
    requires Inv(derive, w) && Inv(derive, w') && Step(derive, w, a, w') && NotComing(w, id)
    ensures NotComing(w', id) && (Live(w'.svc.consumers, t, id) ==> Live(w.svc.consumers, t, id))
  {
    IssuedGrows(derive, w, a, w');
    forall c | c in w'.calls && w'.calls[c].GrantStamped? ensures w'.calls[c].lease.id != id {
      if !SameAt(w, w', c) {
        GrantGoesOn(derive, w, a, w', c);
        if a.StampGrant? {
          assert StampStep(derive, w, a.c, a.leaseId, w');
        }
      }
    }
    if Live(w'.svc.consumers, t, id) {
      LeaseStep(derive, w, a, w', t, id);
    }
  }

  /** A lease that is live is not still on its way. */
  lemma LiveIsNotComing(derive: Bytes -> Option<PublicKey>, w: World, t: Token, id: string)
    requires Inv(derive, w) && Live(w.svc.consumers, t, id)
    ensures NotComing(w, id)
  {
    forall c | c in w.calls && w.calls[c].GrantStamped? ensures w.calls[c].lease.id != id {
      assert CallOk(derive, w, w.calls[c]);
    }
  }

  lemma AwayAt(derive: Bytes -> Option<PublicKey>, run: seq<World>, acts: seq<Action>, k: nat, t: Token, id: string)
    requires Run(derive, run, acts) && k < |acts| && NotComing(run[k], id)
    ensures NotComing(run[k + 1], id) && (Live(run[k + 1].svc.consumers, t, id) ==> Live(run[k].svc.consumers, t, id))
  {
    RunKeeps(derive, run, acts, k);
    RunKeeps(derive, run, acts, k + 1);
    assert StepAt(derive, run, acts, k);
    StaysAway(derive, run[k], acts[k], run[k + 1], t, id);
  }

  lemma {:induction false} ComesNoMore(derive: Bytes -> Option<PublicKey>, run: seq<World>, acts: seq<Action>, i: nat,
                                       k: nat, t: Token, id: string)
    requires Run(derive, run, acts) && i <= k < |run| && NotComing(run[i], id)
    ensures NotComing(run[k], id)
    ensures !Live(run[i].svc.consumers, t, id) ==> !Live(run[k].svc.consumers, t, id)
    decreases k
  {
    if i < k {
      ComesNoMore(derive, run, acts, i, k - 1, t, id);
      AwayAt(derive, run, acts, k - 1, t, id);
    }
  }

  /** A lease that has gone, revoked, expired or replaced, never comes back. */
  lemma LeasesRetireOnce(derive: Bytes -> Option<PublicKey>, run: seq<World>, acts: seq<Action>, i: nat, j: nat,
                         k: nat, t: Token, id: string)
    requires Run(derive, run, acts) && i <= j <= k < |run|
    requires Live(run[i].svc.consumers, t, id) && !Live(run[j].svc.consumers, t, id)
    ensures !Live(run[k].svc.consumers, t, id)
  {
    RunKeeps(derive, run, acts, i);
    LiveIsNotComing(derive, run[i], t, id);
    ComesNoMore(derive, run, acts, i, j, t, id);
    ComesNoMore(derive, run, acts, j, k, t, id);
  }

  // ---------------------------------------------------------------- the profile writers

  /** At step `l` call `c` took the profile lock to write this, and it was allowed. */
  ghost predicate WriteBegun(derive: Bytes -> Option<PublicKey>, run: seq<World>, acts: seq<Action>, l: nat, c: nat,
                             call: Call)
    requires call.Writing?
  {
    && l < |acts| < |run| && acts[l] == LockWrite(c, call.job, call.name, call.profile, call.secret)
    && WriteAllowed(derive, run[l].config, call.job, call.name, call.profile, call.secret)
  }

  ghost predicate DeleteBegun(run: seq<World>, acts: seq<Action>, l: nat, c: nat, name: string) {
    l < |acts| < |run| && acts[l] == LockDelete(c, name) && name in run[l].config
  }

  /** What a writer has so far made of the configuration and the keychain it found. */
  predicate WrittenSoFar(w: World, call: Call, config: Config, keychain: map<string, Bytes>)
    requires call.Writing?
  {
    && w.config == (if call.stage == Saved then config[call.name := call.profile] else config)
    && w.keychain ==
       (if call.stage == Kept || call.stage == Saved then keychain[call.name := call.secret] else keychain)
  }

  predicate DeletedSoFar(w: World, call: Call, config: Config, keychain: map<string, Bytes>)
    requires call.Deleting?
  {
    && w.config == (if call.step == Removed then config - {call.name} else config)
    && w.keychain == (if call.step == Unapproved then keychain else keychain - {call.name})
  }

  /** While a call holds the lock, the steps of writers and deleters are its own. */
  lemma WritersHoldTheLock(derive: Bytes -> Option<PublicKey>, w: World, a: Action, w': World, c: nat)
    requires Inv(derive, w) && Step(derive, w, a, w') && c in w.calls && Holding(w.calls[c]) && OfWriting(a)
    ensures a.c == c
  {
    assert a.c in w.calls && Holding(w.calls[a.c]) ==> a.c == c;
  }

  lemma DeletersHoldTheLock(derive: Bytes -> Option<PublicKey>, w: World, a: Action, w': World, c: nat)
    requires Inv(derive, w) && Step(derive, w, a, w') && c in w.calls && Holding(w.calls[c]) && OfDeletion(a)
    ensures a.c == c
  {
    assert a.c in w.calls && Holding(w.calls[a.c]) ==> a.c == c;
  }

  /** So nobody else changes the configuration or the keychain. */
  lemma OthersWriteNothing(derive: Bytes -> Option<PublicKey>, w: World, a: Action, w': World, c: nat)
    requires Inv(derive, w) && Step(derive, w, a, w') && Caller(a) != Some(c) && c in w.calls && Holding(w.calls[c])
    ensures w'.config == w.config && w'.keychain == w.keychain
  {
    if OfWriting(a) {
      WritersHoldTheLock(derive, w, a, w', c);
    } else if OfDeletion(a) {
      DeletersHoldTheLock(derive, w, a, w', c);
    } else {
      OnlyWritersWrite(derive, w, a, w');
    }
  }

  lemma OnlyWritersWrite(derive: Bytes -> Option<PublicKey>, w: World, a: Action, w': World)
    requires Step(derive, w, a, w') && !OfWriting(a) && !OfDeletion(a)
    ensures w'.config == w.config && w'.keychain == w.keychain
  {
  }

  /** One step further with the same request: what had been made of what was found before, still is. */
  ghost predicate WritesOn(w: World, w': World, c: nat)
    requires c in w.calls && c in w'.calls && w'.calls[c].Writing?
  {
    var k, k' := w.calls[c], w'.calls[c];
    && k.Writing? && k' == k.(stage := k'.stage)
    && forall config, keychain :: WrittenSoFar(w, k, config, keychain) ==> WrittenSoFar(w', k', config, keychain)
  }

  ghost predicate BeginsWrite(derive: Bytes -> Option<PublicKey>, w: World, a: Action, w': World, c: nat)
    requires c in w'.calls && w'.calls[c].Writing?
  {
    var k := w'.calls[c];
    && a == LockWrite(c, k.job, k.name, k.profile, k.secret)
    && WriteAllowed(derive, w.config, k.job, k.name, k.profile, k.secret)
    && WrittenSoFar(w', k, w.config, w.keychain)
  }

  lemma WriterStep(derive: Bytes -> Option<PublicKey>, w: World, a: Action, w': World, c: nat)
    requires Inv(derive, w) && Step(derive, w, a, w') && c in w'.calls && w'.calls[c].Writing?
    ensures if c in w.calls then WritesOn(w, w', c) else BeginsWrite(derive, w, a, w', c)
  {
    if Caller(a) != Some(c) {
      OnlyItsOwnCall(derive, w, a, w', c);
      OthersWriteNothing(derive, w, a, w', c);
    } else if a.LockWrite? || a.Authorise? {
      LockOrAuthorise(derive, w, a, w', c);
    } else if a.Keep? || a.Save? {
      KeepOrSave(derive, w, a, w', c);
    } else {
      OthersBeginNoWrite(derive, w, a, w', c);
    }
  }

  lemma LockOrAuthorise(derive: Bytes -> Option<PublicKey>, w: World, a: Action, w': World, c: nat)
    requires Step(derive, w, a, w') && (a.LockWrite? || a.Authorise?) && a.c == c
    requires c in w'.calls && w'.calls[c].Writing?
    ensures if c in w.calls then WritesOn(w, w', c) else BeginsWrite(derive, w, a, w', c)
  {
    if a.LockWrite? {
      assert LockWriteStep(derive, w, c, a.job, a.name, a.profile, a.secret, w');
    } else {
      assert AuthoriseStep(w, c, a.token, w');
    }
  }

  lemma KeepOrSave(derive: Bytes -> Option<PublicKey>, w: World, a: Action, w': World, c: nat)
    requires Inv(derive, w) && a in {Keep(c), Save(c)} && Step(derive, w, a, w')
    ensures c in w'.calls && w'.calls[c].Writing? && WritesOn(w, w', c)
  {
    assert CallOk(derive, w, w.calls[c]);
  }

  lemma OthersBeginNoWrite(derive: Bytes -> Option<PublicKey>, w: World, a: Action, w': World, c: nat)
    requires Step(derive, w, a, w') && Caller(a) == Some(c) && (!OfWriting(a) || a.Finish?) && c in w'.calls
    ensures !w'.calls[c].Writing?
  {
    if a.Finish? {
      FinishMoves(w, c, w');
    }
  }

  /** A writer goes back to its request, and has changed just what it was to change of what it found then. */
  lemma {:induction false} WritesGoBack(derive: Bytes -> Option<PublicKey>, run: seq<World>, acts: seq<Action>, j: nat,
                                        c: nat)
    returns (l: nat)
    requires Run(derive, run, acts) && j < |run| && c in run[j].calls && run[j].calls[c].Writing?
    ensures l < j && WriteBegun(derive, run, acts, l, c, run[j].calls[c])
    ensures WrittenSoFar(run[j], run[j].calls[c], run[l].config, run[l].keychain)
  {
    var i := j - 1;
    RunKeeps(derive, run, acts, i);
    assert StepAt(derive, run, acts, i);
    WriterStep(derive, run[i], acts[i], run[j], c);
    if c in run[i].calls {
      l := WritesGoBack(derive, run, acts, i, c);
    } else {
      l := i;
    }
  }

  predicate JournalledLast(s: State<nat>, note: Note) {
    |s.history| > 0 && s.history[|s.history| - 1].note == note
  }

  /**
    Writing a profile is one whole change, whatever ran meanwhile: when it ends, the configuration and the
    keychain are those it found with the one profile and the one secret put in; and that is journalled.
  */
  lemma WritesAreWhole(derive: Bytes -> Option<PublicKey>, run: seq<World>, acts: seq<Action>, j: nat, c: nat)
    returns (l: nat)
    requires Run(derive, run, acts) && j < |acts| && acts[j] == Finish(c)
    ensures c in run[j].calls && run[j].calls[c].Writing?
    ensures l < j && WriteBegun(derive, run, acts, l, c, run[j].calls[c])
    ensures var k, config := run[j].calls[c], run[l].config;
            && 60 * 1_000_000_000 <= Nanos(k.profile.defaultLeaseSeconds) <= 86_400 * 1_000_000_000
            && (k.job == SshJob ==> k.name !in config && derive(k.secret) == Some(k.profile.publicKey))
            && (k.job != SshJob ==> k.secret != [] && 0 !in k.secret && k.profile.kind == Plain(""))
            && (k.job == UpdateJob ==> k.name in config)
            && (k.job != SshJob && k.name in config ==> config[k.name].kind != Ssh)
    ensures var k := run[j].calls[c];
            && run[j + 1].config == run[l].config[k.name := k.profile]
            && run[j + 1].keychain == run[l].keychain[k.name := k.secret]
            && JournalledLast(run[j + 1].svc,
                 match k.job
                 case UpdateJob => Note(ProfileUpdated, k.name, "", "Key Session.app", "Human profile management",
                                        "Profile updated in an approved management session")
                 case StoreJob => Note(ProfileSaved, k.name, "", "", "", "Profile stored in Keychain")
                 case SshJob => Note(ProfileSaved, k.name, "", "", "",
                   "SSH signing identity generated in Keychain; private key is not exportable through the API"))
  {
    assert StepAt(derive, run, acts, j);
    assert FinishStep(run[j], c, run[j + 1]);
    if run[j].calls[c].job == UpdateJob {
      M.UpdateMeans(run[j].svc, run[j + 1].svc, run[j].calls[c].name, run[j].clock);
    }
    l := WritesGoBack(derive, run, acts, j, c);
  }

  // ---------------------------------------------------------------- the deletion

  ghost predicate DeletesOn(w: World, w': World, c: nat)
    requires c in w.calls && c in w'.calls && w'.calls[c].Deleting?
  {
    var k, k' := w.calls[c], w'.calls[c];
    && k.Deleting? && k' == k.(step := k'.step)
    && forall config, keychain :: DeletedSoFar(w, k, config, keychain) ==> DeletedSoFar(w', k', config, keychain)
  }

  ghost predicate BeginsDeletion(w: World, a: Action, w': World, c: nat)
    requires c in w'.calls && w'.calls[c].Deleting?
  {
    var k := w'.calls[c];
    a == LockDelete(c, k.name) && k.name in w.config && DeletedSoFar(w', k, w.config, w.keychain)
  }

  lemma DeleterStep(derive: Bytes -> Option<PublicKey>, w: World, a: Action, w': World, c: nat)
    requires Inv(derive, w) && Step(derive, w, a, w') && c in w'.calls && w'.calls[c].Deleting?
    ensures if c in w.calls then DeletesOn(w, w', c) else BeginsDeletion(w, a, w', c)
  {
    if Caller(a) != Some(c) {
      OnlyItsOwnCall(derive, w, a, w', c);
      OthersWriteNothing(derive, w, a, w', c);
    } else if OfDeletion(a) && !a.FinishDelete? {
      OwnDeletion(derive, w, a, w', c);
    } else {
      OthersBeginNoDeletion(derive, w, a, w', c);
    }
  }

  lemma OwnDeletion(derive: Bytes -> Option<PublicKey>, w: World, a: Action, w': World, c: nat)
    requires Inv(derive, w) && Step(derive, w, a, w') && OfDeletion(a) && !a.FinishDelete? && a.c == c
    requires c in w'.calls && w'.calls[c].Deleting?
    ensures if c in w.calls then DeletesOn(w, w', c) else BeginsDeletion(w, a, w', c)
  {
    if a.LockDelete? {
      assert LockDeleteStep(w, c, a.name, w');
    } else if a.ClearDelete? {
      assert ClearDeleteStep(w, c, w');
    } else {
      ApproveOrSave(derive, w, a, w', c);
    }
  }

  lemma ApproveOrSave(derive: Bytes -> Option<PublicKey>, w: World, a: Action, w': World, c: nat)
    requires Inv(derive, w) && a in {ApproveDelete(c), SaveDelete(c)} && Step(derive, w, a, w')
    ensures c in w.calls && c in w'.calls && w'.calls[c].Deleting? && DeletesOn(w, w', c)
  {
    assert CallOk(derive, w, w.calls[c]);
  }

  lemma OthersBeginNoDeletion(derive: Bytes -> Option<PublicKey>, w: World, a: Action, w': World, c: nat)
    requires Step(derive, w, a, w') && Caller(a) == Some(c) && (!OfDeletion(a) || a.FinishDelete?) && c in w'.calls
    ensures !w'.calls[c].Deleting?
  {
    if a.Finish? {
      FinishMoves(w, c, w');
    }
  }

  lemma {:induction false} DeletionsGoBack(derive: Bytes -> Option<PublicKey>, run: seq<World>, acts: seq<Action>,
                                           j: nat, c: nat)
    returns (l: nat)
    requires Run(derive, run, acts) && j < |run| && c in run[j].calls && run[j].calls[c].Deleting?
    ensures l < j && DeleteBegun(run, acts, l, c, run[j].calls[c].name)
    ensures DeletedSoFar(run[j], run[j].calls[c], run[l].config, run[l].keychain)
  {
    var i := j - 1;
    RunKeeps(derive, run, acts, i);
    assert StepAt(derive, run, acts, i);
    DeleterStep(derive, run[i], acts[i], run[j], c);
    if c in run[i].calls {
      l := DeletionsGoBack(derive, run, acts, i, c);
    } else {
      l := i;
    }
  }

  /** Deleting is one whole change too, and leaves no lease and no session of the profile. */
  lemma DeletionsAreWhole(derive: Bytes -> Option<PublicKey>, run: seq<World>, acts: seq<Action>, j: nat, c: nat)
    returns (l: nat)
    requires Run(derive, run, acts) && j < |acts| && acts[j] == FinishDelete(c)
    ensures c in run[j].calls && run[j].calls[c].Deleting?
    ensures l < j && DeleteBegun(run, acts, l, c, run[j].calls[c].name)
    ensures var name := run[j].calls[c].name;
            && run[j + 1].config == run[l].config - {name} && run[j + 1].keychain == run[l].keychain - {name}
            && NoTrace(run[j + 1].svc, name)
            && JournalledLast(run[j + 1].svc,
                              Note(ProfileRemoved, name, "", "Key Session.app", "Human profile management",
                                   "Profile removal approved with Touch ID"))
  {
    RunKeeps(derive, run, acts, j);
    assert StepAt(derive, run, acts, j);
    assert FinishDeleteStep(run[j], c, run[j + 1]);
    assert CallOk(derive, run[j], run[j].calls[c]);
    l := DeletionsGoBack(derive, run, acts, j, c);
  }
}
