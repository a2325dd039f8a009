/** Management sessions over whole runs: each goes back to its own approval, and serves one update. */
module DaemonManagement {
  import opened Common
  import opened DaemonState
  import opened DaemonSections
  import opened DaemonDurations
  import opened DaemonMachine
  import opened DaemonInvariant
  import opened DaemonShrinks
  import opened DaemonPreservation
  import opened DaemonCapabilities

  /** At step `m` call `c` read the profile from the keychain, for its editor: the human approved it. */
  ghost predicate EditorApproved(run: seq<World>, acts: seq<Action>, m: nat, c: nat, name: string, buf: nat) {
    && m < |acts| < |run| && acts[m] == ReadBegin(c, buf) && c in run[m].calls && run[m].calls[c] == BeginAsking(name)
  }

  /** At step `n` call `c` opened the session under this token, and it runs out five minutes later at most. */
  ghost predicate Opened(run: seq<World>, acts: seq<Action>, n: nat, c: nat, token: Token, session: Session<nat>) {
    && n < |acts| < |run| && acts[n].OpenBegin? && acts[n].c == c && acts[n].token == token
    && c in run[n].calls && run[n].calls[c] == BeginOpening(session.profile, session.secret)
    && session.expiresAt == acts[n].stamp + 300_000_000_000 && acts[n].stamp <= run[n].clock
  }

  // ---------------------------------------------------------------- from the session back to the approval

  lemma OpeningStep(derive: Bytes -> Option<PublicKey>, w: World, a: Action, w': World, c: nat)
    requires Step(derive, w, a, w') && c in w'.calls && w'.calls[c].BeginOpening?
    ensures var k := w'.calls[c];
            || (c in w.calls && w.calls[c] == k)
            || (a == ReadBegin(c, k.buf) && c in w.calls && w.calls[c] == BeginAsking(k.name))
  {
    if Caller(a) != Some(c) {
      OnlyItsOwnCall(derive, w, a, w', c);
    } else if a.ReadBegin? {
      assert ReadBeginStep(w, a.c, a.buf, w');
    } else {
      OthersOpenNothing(derive, w, a, w', c);
    }
  }

  lemma OthersOpenNothing(derive: Bytes -> Option<PublicKey>, w: World, a: Action, w': World, c: nat)
    requires Step(derive, w, a, w') && Caller(a) == Some(c) && !a.ReadBegin? && c in w'.calls
    ensures !w'.calls[c].BeginOpening?
  {
    if a.Finish? {
      FinishMoves(w, c, w');
    }
  }

  lemma {:induction false} OpeningWasApproved(derive: Bytes -> Option<PublicKey>, run: seq<World>, acts: seq<Action>,
                                              j: nat, c: nat)
    returns (m: nat)
    requires Run(derive, run, acts) && j < |run| && c in run[j].calls && run[j].calls[c].BeginOpening?
    ensures m < j && EditorApproved(run, acts, m, c, run[j].calls[c].name, run[j].calls[c].buf)
  {
    assert StepAt(derive, run, acts, j - 1);
    OpeningStep(derive, run[j - 1], acts[j - 1], run[j], c);
    if c in run[j - 1].calls && run[j - 1].calls[c] == run[j].calls[c] {
      m := OpeningWasApproved(derive, run, acts, j - 1, c);
    } else {
      m := j - 1;
    }
  }

  lemma SessionStep(derive: Bytes -> Option<PublicKey>, w: World, a: Action, w': World, token: Token)
    requires Step(derive, w, a, w') && token in w'.svc.management
    ensures var session := w'.svc.management[token];
            || (token in w.svc.management && w.svc.management[token] == session)
            || (a.OpenBegin? && a.token == token && a.c in w.calls && a.stamp <= w.clock &&
                w.calls[a.c] == BeginOpening(session.profile, session.secret) &&
                session.expiresAt == a.stamp + MANAGEMENT_TTL)
  {
    if a.InstallGrant? {
      InstallSessions(derive, w, a.c, a.granted, w');
    } else if a.OpenBegin? {
      assert OpenBeginStep(w, a.c, a.token, a.stamp, w');
    } else {
      StepShrinks(derive, w, a, w');
    }
  }

  /**
    No editor without a human: an open session was opened under its token by a call that had read the very
    secret it holds, of the very profile, under an approval, and it runs for five minutes at most.
  */
  lemma {:induction false} EverySessionWasApproved(derive: Bytes -> Option<PublicKey>, run: seq<World>,
                                                   acts: seq<Action>, j: nat, token: Token)
    returns (m: nat, n: nat, c: nat)
    requires Run(derive, run, acts) && j < |run| && token in run[j].svc.management
    ensures var session := run[j].svc.management[token];
            && m < n < j && EditorApproved(run, acts, m, c, session.profile, session.secret)
            && Opened(run, acts, n, c, token, session)
  {
    assert StepAt(derive, run, acts, j - 1);
    SessionStep(derive, run[j - 1], acts[j - 1], run[j], token);
    if token in run[j - 1].svc.management && run[j - 1].svc.management[token] == run[j].svc.management[token] {
      m, n, c := EverySessionWasApproved(derive, run, acts, j - 1, token);
    } else {
      n, c := j - 1, acts[j - 1].c;
      m := OpeningWasApproved(derive, run, acts, n, c);
    }
  }

  /**
    An update that reaches the keychain goes back to a human's approval of that same profile: of the
    session it used up, which was not yet five minutes old.
  */
  lemma UpdatesWereApproved(derive: Bytes -> Option<PublicKey>, run: seq<World>, acts: seq<Action>, j: nat, c: nat,
                            name: string, secret: Bytes)
    returns (m: nat, n: nat, d: nat, i: nat, buf: nat)
    requires Run(derive, run, acts) && j < |run| && UpdatePast(run[j], c, name, secret)
    ensures m < n < i < j && Authorised(run[i], acts[i], c, name, secret)
    ensures EditorApproved(run, acts, m, d, name, buf)
    ensures acts[n].OpenBegin? && acts[n].c == d && acts[n].token == acts[i].token
    ensures run[i].clock < acts[n].stamp + 300_000_000_000 && acts[n].stamp <= run[n].clock
  {
    UpdatesAreAuthorised(derive, run, acts, j, c, name, secret);
    i :| 0 <= i < j && Authorised(run[i], acts[i], c, name, secret);
    buf := run[i].svc.management[acts[i].token].secret;
    m, n, d := EverySessionWasApproved(derive, run, acts, i, acts[i].token);
  }

  // ---------------------------------------------------------------- one session, one update

  /** An update that is authorised uses its token up. */
  lemma AuthorisedOnce(derive: Bytes -> Option<PublicKey>, run: seq<World>, acts: seq<Action>, i: nat, c: nat,
                       name: string, secret: Bytes)
    requires Run(derive, run, acts) && i < |acts| && Authorised(run[i], acts[i], c, name, secret)
    ensures acts[i].token !in run[i + 1].svc.management
  {
    assert StepAt(derive, run, acts, i);
    assert AuthoriseStep(run[i], c, acts[i].token, run[i + 1]);
  }

  /** No token authorises two updates. */
  lemma NoTokenServesTwice(derive: Bytes -> Option<PublicKey>, run: seq<World>, acts: seq<Action>, i: nat, j: nat,
                           c: nat, name: string, secret: Bytes, d: nat, other: string, secret': Bytes)
    requires Run(derive, run, acts) && i < j < |acts|
    requires Authorised(run[i], acts[i], c, name, secret) && Authorised(run[j], acts[j], d, other, secret')
    ensures acts[i].token != acts[j].token
  {
    AuthorisedOnce(derive, run, acts, i, c, name, secret);
    if acts[i].token == acts[j].token {
      TokensRetireOnce(derive, run, acts, i, i + 1, j, acts[i].token);
    }
  }
}
