/** `List` and `Sign` of the SSH agent agree in every reachable world of the interleaved machine. */
module SshAgreement {
  import opened Common
  import opened DaemonState
  import opened DaemonSections
  import opened DaemonMachine
  import opened DaemonInvariant
  import opened DaemonShrinks
  import opened DaemonPreservation
  import opened SshAgent
  import M = DaemonMeanings
  import SshWire

  /** The live SSH leases with the key each secret yields: what the agent's loops see. */
  function ViewOf(derive: Bytes -> Option<PublicKey>, w: World): KeyView {
    var cs := w.svc.consumers;
    map t, id | t in cs && id in cs[t].leases && cs[t].leases[id].meta.kind == Ssh ::
      (t, id) := LeaseKey(cs[t].leases[id].meta.profile,
                          if cs[t].leases[id].secret in w.mem then derive(w.mem[cs[t].leases[id].secret]) else None)
  }

  /** The daemon's buffers hold the bytes of the world's, lease by lease. */
  ghost predicate Mirrors(agent: LeaseSshAgent, w: World)
    reads agent.service, agent.service.LeaseBuffers()
  {
    var cs, ds := agent.service.consumers, w.svc.consumers;
    && (forall t, id :: Live(cs, t, id) <==> Live(ds, t, id))
    && (forall t, id :: Live(cs, t, id) ==> cs[t].leases[id].meta == ds[t].leases[id].meta)
    && (forall t, id :: Live(cs, t, id) ==>
          ds[t].leases[id].secret in w.mem && w.mem[ds[t].leases[id].secret] == cs[t].leases[id].secret[..])
  }

  /** What the agent scans in the daemon is what it scans in the machine. */
  lemma ViewsAreOne(agent: LeaseSshAgent, w: World)
    requires Mirrors(agent, w)
    ensures agent.View() == ViewOf(agent.derive, w)
  {
    var cs, ds, view, other := agent.service.consumers, w.svc.consumers, agent.View(), ViewOf(agent.derive, w);
    forall t, id ensures (t, id) in view <==> (t, id) in other {
      assert Live(cs, t, id) <==> Live(ds, t, id);
    }
    forall k | k in view ensures view[k] == other[k] {
      assert Live(cs, k.0, k.1);
    }
    assert forall k :: k in view <==> (k.0, k.1) in view;
    assert forall k :: k in other <==> (k.0, k.1) in other;
  }

  /** After the sweep the agent offers just the SSH leases that were current before it. */
  lemma OffersAreCurrent(derive: Bytes -> Option<PublicKey>, w: World, s': State<nat>, t: Token, id: string)
    requires Inv(derive, w) && Swept(w.svc, s', w.clock, w.clock)
    ensures var view := ViewOf(derive, Guarded(w, s'));
            && ((t, id) in view <==>
                M.Current(w.svc, t, id, w.clock) && w.svc.consumers[t].leases[id].meta.kind == Ssh)
            && ((t, id) in view ==>
                var lease := w.svc.consumers[t].leases[id];
                && lease.secret in w.mem
                && view[(t, id)] == LeaseKey(lease.meta.profile, derive(w.mem[lease.secret])))
  {
    var w' := Guarded(w, s');
    M.SweepMeans(w.svc, s', w.clock, w.clock);
    SweptShrinks(w.svc, s', w.clock, w.clock);
    GuardedLedger(w, s');
    assert Live(s'.consumers, t, id) ==> M.LeaseStays(w.svc, s', t, id);
    assert Live(s'.consumers, t, id) ==> Owned(w', Stored(LeaseOwner(t, id))).Some?;
  }

  lemma KeysMatch(derive: Bytes -> Option<PublicKey>, w: World)
    requires Inv(derive, w)
    ensures OneKeyPerProfile(ViewOf(derive, w))
    ensures var view := ViewOf(derive, w);
            forall k :: k in view ==>
              view[k].profile in w.config && view[k].key == Some(w.config[view[k].profile].publicKey)
  {
    var view := ViewOf(derive, w);
    var cs := w.svc.consumers;
    forall k | k in view
      ensures view[k].profile in w.config && view[k].key == Some(w.config[view[k].profile].publicKey)
    {
      assert Live(cs, k.0, k.1) && cs[k.0].leases[k.1].meta.kind == Ssh;
    }
  }

  /**
    At any instant of any run, once the agent has swept: data is signed for a key exactly when it is the
    encoding of a permitted authentication request for that key and the key is listed; neither call fails
    on a stored secret; and the keys listed are the configured ones.
  */
  lemma AgentAgrees(derive: Bytes -> Option<PublicKey>, parses: Bytes -> bool, run: seq<World>, acts: seq<Action>,
                    i: nat, s': State<nat>, listed: Option<seq<Identity>>, keyType: Bytes, public: PublicKey,
                    data: Bytes, signing: Signing)
    requires Run(derive, run, acts) && i < |run| && Swept(run[i].svc, s', run[i].clock, run[i].clock)
    requires ListAnswer(ViewOf(derive, Guarded(run[i], s')), listed)
    requires SignAnswer(ViewOf(derive, Guarded(run[i], s')), SshWire.Recognises(keyType, public, parses, data),
                        public, signing)
    ensures listed.Some? && signing != Invalid
    ensures signing == Signed <==>
            SshWire.IsRequest(keyType, public, parses, data) &&
            exists j :: 0 <= j < |listed.value| && listed.value[j].key == public
    ensures forall j :: 0 <= j < |listed.value| ==> IsConfigured(run[i].config, listed.value[j])
  {
    var w := Guarded(run[i], s');
    RunKeeps(derive, run, acts, i);
    SweptShrinks(run[i].svc, s', run[i].clock, run[i].clock);
    GuardedKeeps(derive, run[i], s');
    KeysMatch(derive, w);
    SshWire.RecogniserIsExact(keyType, public, parses, data);
    ListAndSignAgree(ViewOf(derive, w), listed, SshWire.Recognises(keyType, public, parses, data), public, signing);
    forall j | 0 <= j < |listed.value| ensures IsConfigured(w.config, listed.value[j]) {
      OfferedIsConfigured(derive, w, listed.value[j]);
    }
  }

  predicate IsConfigured(config: Config, identity: Identity) {
    && identity.profile in config && config[identity.profile].kind == Ssh
    && config[identity.profile].publicKey == identity.key
  }

  lemma OfferedIsConfigured(derive: Bytes -> Option<PublicKey>, w: World, identity: Identity)
    requires Inv(derive, w) && Offers(ViewOf(derive, w), identity)
    ensures IsConfigured(w.config, identity)
  {
    KeysMatch(derive, w);
    var k :| k in ViewOf(derive, w) && ViewOf(derive, w)[k] == LeaseKey(identity.profile, Some(identity.key));
    assert Live(w.svc.consumers, k.0, k.1);
  }
}
