/** Consumers are isolated, down to the bytes of their secrets. */
module DaemonIsolation {
  import opened Common
  import opened DaemonState
  import opened DaemonSections
  import opened DaemonMachine
  import opened DaemonInvariant
  import opened DaemonPreservation
  import opened DaemonCapabilities
  import LazyExpiry

  /** The token under which a step touches consumers and leases. */
  function Presents(w: World, a: Action): Option<Token> {
    match a
    case StartGrantKnown(_, token, _, _, _, _) => Some(token)
    case InstallGrant(c, _) => if c in w.calls && w.calls[c].GrantStamped? then Some(w.calls[c].g.token) else None
    case StartExec(_, token, _, _) => Some(token)
    case RevokeCall(token, _) => Some(token)
    case _ => None
  }

  lemma StampedFits(derive: Bytes -> Option<PublicKey>, w: World, c: nat)
    requires Inv(derive, w) && c in w.calls && w.calls[c].GrantStamped?
    ensures CallOk(derive, w, w.calls[c]) && TicketOk(w, w.calls[c].g)
  {
    assert TicketAt(w, c) == Some(w.calls[c].g);
  }

  lemma InstallServes(derive: Bytes -> Option<PublicKey>, w: World, c: nat, granted: bool, w': World)
    requires InstallGrantStep(w, c, granted, w') && CallOk(derive, w, w.calls[c]) && TicketOk(w, w.calls[c].g)
    ensures var k, now := w.calls[c], w.calls[c].lease.grantedAt;
            && LazyExpiry.Serve(w.svc, LazyExpiry.AskInstall(k.g, k.lease, k.buf), now, w.clock, w'.svc,
                                LazyExpiry.Granting(Told(w'.svc, k.g.token, granted)))
            && now <= w.clock
  {
    if granted {
      GrantLeavesConsumer(w.svc, w'.svc, w.calls[c].g, w.calls[c].lease, w.calls[c].buf, w.calls[c].lease.grantedAt,
                          w.clock);
    }
  }

  /** The consumer that a grant answers with. */
  function Told(s: State<nat>, token: Token, granted: bool): Option<PublicConsumer> {
    if granted && token in s.consumers then Some(Public(s.consumers[token])) else None
  }

  lemma GrantLeavesConsumer(s: State<nat>, s': State<nat>, g: Ticket, lease: Lease, buf: nat, now: int, at: int)
    requires GrantInstalls(s, s', g, lease, buf, now, at, true)
    ensures g.token in s'.consumers
  {
    var es :| SweepPlan(s, es, now, at) && InstallsAfterSweep(EndAll(s, es, at), s', g, lease, buf, now, at, true);
    var fs :| InstallsOver(Admit(EndAll(s, es, at), g, now, at).value, fs, s', g, lease, buf, at);
  }

  /** The step serves a request, at an instant that is not in the future. */
  lemma StepServes(derive: Bytes -> Option<PublicKey>, w: World, a: Action, w': World)
    returns (request: LazyExpiry.Request, now: int, answer: LazyExpiry.Answer)
    requires Inv(derive, w) && Step(derive, w, a, w') && Presents(w, a).Some?
    ensures LazyExpiry.Serve(w.svc, request, now, w.clock, w'.svc, answer) && now <= w.clock
    ensures LazyExpiry.Presents(request) == Presents(w, a)
  {
    match a {
      case StartGrantKnown(c, token, at, name, reason, seconds) =>
        assert KnownGrantStep(w, c, token, at, name, reason, seconds, w');
        var found :| GrantLooksUp(w.svc, w'.svc, token, at, w.clock, found);
        request, now, answer := LazyExpiry.AskConsumer(token), at, LazyExpiry.Looked(found);
      case InstallGrant(c, granted) =>
        var k := w.calls[c];
        StampedFits(derive, w, c);
        InstallServes(derive, w, c, granted, w');
        request, now := LazyExpiry.AskInstall(k.g, k.lease, k.buf), k.lease.grantedAt;
        answer := LazyExpiry.Granting(Told(w'.svc, k.g.token, granted));
      case StartExec(c, token, id, buf) =>
        assert StartExecStep(w, c, token, id, buf, w');
        var lease :| LooksUpLease(w.svc, w'.svc, token, id, w.clock, w.clock, lease);
        request, now, answer := LazyExpiry.AskLease(token, id), w.clock, LazyExpiry.Secret(lease);
      case RevokeCall(token, id) =>
        var done :| Revokes(w.svc, w'.svc, token, id, w.clock, w.clock, done);
        request, now, answer := LazyExpiry.AskRevoke(token, id), w.clock, LazyExpiry.Done(done);
    }
  }

  /**
    A grant, revocation or execution under one token leaves every unexpired lease of every other consumer
    in place, with its secret byte for byte.
  */
  lemma ConsumersAreIsolated(derive: Bytes -> Option<PublicKey>, run: seq<World>, acts: seq<Action>, i: nat,
                             u: Token, id: string)
    requires Run(derive, run, acts) && i < |acts|
    requires Presents(run[i], acts[i]).Some? && Presents(run[i], acts[i]) != Some(u)
    requires Live(run[i].svc.consumers, u, id) && run[i].clock < run[i].svc.consumers[u].meta.expiresAt
    requires run[i].clock < run[i].svc.consumers[u].leases[id].meta.expiresAt
    ensures var w, w', lease := run[i], run[i + 1], run[i].svc.consumers[u].leases[id];
            && Live(w'.svc.consumers, u, id) && w'.svc.consumers[u].leases[id] == lease
            && lease.secret in w.mem && lease.secret in w'.mem && w'.mem[lease.secret] == w.mem[lease.secret]
  {
    var w, a, w' := run[i], acts[i], run[i + 1];
    RunKeeps(derive, run, acts, i);
    assert StepAt(derive, run, acts, i);
    var request, now, answer := StepServes(derive, w, a, w');
    LazyExpiry.OthersAreUntouched(w.svc, request, now, w.clock, w'.svc, answer, u);
    OwnedBytesStand(derive, w, a, w', Stored(LeaseOwner(u, id)));
  }
}
