/** What holds in every reachable world, whatever the interleaving. */
module DaemonInvariant {
  import opened Common
  import opened DaemonState
  import opened DaemonSections
  import opened DaemonDurations
  import opened DaemonMachine

  // ---------------------------------------------------------------- leases

  /** The lease's profile is configured, and is an SSH profile exactly when the lease is an SSH lease. */
  predicate Configured(config: Config, lease: Lease) {
    lease.profile in config && (lease.kind == Ssh <==> config[lease.profile].kind == Ssh)
  }

  /** The secret was in the keychain since the profile last changed; an SSH secret yields the configured key. */
  ghost predicate SecretOk(derive: Bytes -> Option<PublicKey>, config: Config, since: map<string, set<Bytes>>,
                           mem: map<nat, Bytes>, lease: Lease, buf: nat)
  {
    && Configured(config, lease)
    && buf in mem && lease.profile in since && mem[buf] in since[lease.profile]
    && (lease.kind == Ssh ==> derive(mem[buf]) == Some(config[lease.profile].publicKey))
  }

  /** The lease is stored under its own identifier, with its consumer, and does not outlive it. */
  predicate LeaseFits(c: ConsumerMeta, id: string, lease: Lease) {
    && lease.id == id && lease.consumerId == c.id && lease.consumerLabel == c.title
    && lease.expiresAt <= c.expiresAt && lease.expiresAt - lease.grantedAt <= MAXIMUM_LEASE
  }

  /** No consumer has two leases for one profile. */
  ghost predicate OnePerProfile(cs: map<Token, Consumer<nat>>) {
    forall t, i, j :: Live(cs, t, i) && Live(cs, t, j) && i != j ==>
      cs[t].leases[i].meta.profile != cs[t].leases[j].meta.profile
  }

  ghost predicate LeasesInv(derive: Bytes -> Option<PublicKey>, w: World) {
    var cs := w.svc.consumers;
    && (forall t, id :: Live(cs, t, id) ==>
          SecretOk(derive, w.config, w.since, w.mem, cs[t].leases[id].meta, cs[t].leases[id].secret))
    && (forall t, id :: Live(cs, t, id) ==> LeaseFits(cs[t].meta, id, cs[t].leases[id].meta))
    && (forall t, id :: Live(cs, t, id) ==> id in w.issued)
    && OnePerProfile(cs)
  }

  // ---------------------------------------------------------------- consumers and tickets

  ghost predicate ConsumersInv(w: World) {
    var cs := w.svc.consumers;
    && (forall t :: t in cs ==> t in w.issued && t != "" && cs[t].meta.id in w.issued)
    && (forall t :: t in cs ==> cs[t].meta.createdAt <= w.clock &&
                                cs[t].meta.expiresAt - cs[t].meta.createdAt <= MAXIMUM_CONSUMER)
    && (forall t, u :: t in cs && u in cs && cs[t].meta.id == cs[u].meta.id ==> t == u)
  }

  function TicketOf(call: Call): Option<Ticket> {
    match call
    case GrantWaiting(g, _, _, _) => Some(g)
    case GrantAsking(g, _, _, _, _) => Some(g)
    case GrantChecking(g, _, _, _, _, _) => Some(g)
    case GrantStamped(g, _, _) => Some(g)
    case _ => None
  }

  function TicketAt(w: World, c: nat): Option<Ticket> {
    if c in w.calls then TicketOf(w.calls[c]) else None
  }

  /** A new ticket's names are nobody else's yet; an old one still describes its consumer, if that lives. */
  ghost predicate TicketOk(w: World, g: Ticket) {
    var cs := w.svc.consumers;
    && g.token in w.issued && g.token != "" && g.id in w.issued && g.expiresAt - w.clock <= MAXIMUM_CONSUMER
    && (g.isNew ==> g.token !in cs && forall t :: t in cs ==> cs[t].meta.id != g.id)
    && (!g.isNew && g.token in cs ==>
          cs[g.token].meta.id == g.id && cs[g.token].meta.title == g.title && cs[g.token].meta.expiresAt == g.expiresAt)
  }

  ghost predicate TicketsInv(w: World) {
    && (forall c :: TicketAt(w, c).Some? ==> TicketOk(w, TicketAt(w, c).value))
    && (forall c, d :: TicketAt(w, c).Some? && TicketAt(w, d).Some? && c != d && TicketAt(w, c).value.isNew ==>
          TicketAt(w, c).value.token != TicketAt(w, d).value.token &&
          TicketAt(w, c).value.id != TicketAt(w, d).value.id)
  }

  // ---------------------------------------------------------------- sessions

  ghost predicate SessionsInv(w: World) {
    forall t :: t in w.svc.management ==>
      var session := w.svc.management[t];
      t in w.issued && session.profile in w.config && w.config[session.profile].kind != Ssh
  }

  // ---------------------------------------------------------------- the secret ledger

  /** Who may own a buffer: a lease or session, or a call in flight. */
  datatype Holder = Stored(owner: Owner) | InFlight(c: nat)

  function Owned(w: World, h: Holder): Option<nat> {
    match h
    case Stored(o) => Holds(w.svc, o)
    case InFlight(c) => if c in w.calls then BufferOf(w.calls[c]) else None
  }

  ghost predicate LedgerInv(w: World) {
    && (forall h :: Owned(w, h).Some? ==> Owned(w, h).value in w.mem)
    && (forall h, k :: Owned(w, h).Some? && Owned(w, h) == Owned(w, k) ==> h == k)
    && (forall b :: b in w.mem && (forall h :: Owned(w, h) != Some(b)) ==> AllZero(w.mem[b]))
  }

  // ---------------------------------------------------------------- calls in flight

  ghost predicate NoLeaseOf(cs: map<Token, Consumer<nat>>, name: string) {
    forall t, id :: Live(cs, t, id) ==> cs[t].leases[id].meta.profile != name
  }

  ghost predicate NoTrace(s: State<nat>, name: string) {
    && NoLeaseOf(s.consumers, name)
    && (forall t :: t in s.management ==> s.management[t].profile != name)
  }

  /** What a call relies on between its steps; all but the two unlocked stages rely on holding `profileMu`. */
  ghost predicate CallOk(derive: Bytes -> Option<PublicKey>, w: World, call: Call) {
    match call
    case GrantWaiting(g, name, reason, seconds) => true
    case GrantAsking(g, name, reason, profile, duration) =>
      name in w.config && w.config[name] == profile && MINIMUM_LEASE <= duration <= MAXIMUM_LEASE
    case GrantChecking(g, name, reason, profile, duration, buf) =>
      && name in w.config && w.config[name] == profile && MINIMUM_LEASE <= duration <= MAXIMUM_LEASE
      && buf in w.mem && name in w.since && w.mem[buf] in w.since[name]
    case GrantStamped(g, lease, buf) =>
      && SecretOk(derive, w.config, w.since, w.mem, lease, buf)
      && lease.consumerId == g.id && lease.consumerLabel == g.title && lease.expiresAt <= g.expiresAt
      && lease.expiresAt - lease.grantedAt <= MAXIMUM_LEASE && lease.grantedAt <= w.clock
      && (g.isNew ==> g.expiresAt - lease.grantedAt <= MAXIMUM_CONSUMER)
      && lease.id in w.issued && forall t :: !Live(w.svc.consumers, t, lease.id)
    case Executing(buf) => true
    case BeginAsking(name) => name in w.config && w.config[name].kind != Ssh
    case BeginOpening(name, buf) => name in w.config && w.config[name].kind != Ssh
    case Writing(job, stage, name, profile, secret, loaded) =>
      && WriteAllowed(derive, loaded, job, name, profile, secret)
      && w.config == (if stage == Saved then loaded[name := profile] else loaded)
      && (stage == Kept || stage == Saved ==> name in w.keychain && w.keychain[name] == secret)
    case Deleting(step, name, loaded) =>
      && name in loaded && w.config == (if step == Removed then loaded - {name} else loaded)
      && (step != Unapproved ==> name !in w.keychain)
      && (step == Cleared || step == Removed ==> NoTrace(w.svc, name))
  }

  ghost predicate CallsInv(derive: Bytes -> Option<PublicKey>, w: World) {
    && (forall c :: c in w.calls ==> CallOk(derive, w, w.calls[c]))
    && (forall c :: c in w.calls && Holding(w.calls[c]) ==> w.profileMu == Some(c))
    && (w.profileMu.Some? ==> w.profileMu.value in w.calls && Holding(w.calls[w.profileMu.value]))
    && (forall name :: name in w.keychain ==> name in w.since && w.keychain[name] in w.since[name])
  }

  ghost predicate Inv(derive: Bytes -> Option<PublicKey>, w: World) {
    && LeasesInv(derive, w) && ConsumersInv(w) && TicketsInv(w) && SessionsInv(w) && LedgerInv(w) && CallsInv(derive, w)
  }

  // ---------------------------------------------------------------- sections that only take away

  /** No lease or session is added or altered; the consumer of a lease that stays is unchanged. */
  ghost predicate Shrinks(s: State<nat>, s': State<nat>) {
    && (forall t, id :: Live(s'.consumers, t, id) ==>
          Live(s.consumers, t, id) && s'.consumers[t].leases[id] == s.consumers[t].leases[id])
    && (forall t :: t in s'.consumers ==> t in s.consumers && s'.consumers[t].meta == s.consumers[t].meta)
    && (forall t :: t in s'.management ==> t in s.management && s'.management[t] == s.management[t])
  }

  lemma GuardedLedger(w: World, s': State<nat>)
    requires LedgerInv(w) && Shrinks(w.svc, s')
    ensures LedgerInv(Guarded(w, s'))
    ensures forall h :: Owned(Guarded(w, s'), h).Some? ==> Owned(Guarded(w, s'), h) == Owned(w, h)
    ensures forall h :: Owned(Guarded(w, s'), h).Some? ==>
              var b := Owned(w, h).value; b in w.mem && Guarded(w, s').mem[b] == w.mem[b]
  {
    var w' := Guarded(w, s');
    forall h | Owned(w', h).Some?
      ensures Owned(w', h) == Owned(w, h) && w'.mem[Owned(w, h).value] == w.mem[Owned(w, h).value]
    {
      var b := Owned(w, h).value;
      forall o | Holds(w.svc, o) == Some(b) ensures h == Stored(o) {
        assert Owned(w, Stored(o)) == Some(b);
      }
    }
    forall b | b in w'.mem && (forall h :: Owned(w', h) != Some(b)) ensures AllZero(w'.mem[b]) {
      if exists h :: Owned(w, h) == Some(b) {
        var h :| Owned(w, h) == Some(b);
        assert Owned(w', h) != Some(b);
        assert h.Stored? && Holds(w.svc, h.owner) == Some(b) && Holds(s', h.owner).None?;
        assert Dropped(w.svc, s', b);
      }
    }
  }

  lemma GuardedCalls(derive: Bytes -> Option<PublicKey>, w: World, s': State<nat>)
    requires Inv(derive, w) && Shrinks(w.svc, s')
    ensures CallsInv(derive, Guarded(w, s')) && TicketsInv(Guarded(w, s'))
  {
    var w' := Guarded(w, s');
    GuardedLedger(w, s');
    forall c | c in w.calls ensures CallOk(derive, w', w'.calls[c]) {
      assert CallOk(derive, w, w.calls[c]);
      if BufferOf(w.calls[c]).Some? {
        assert Owned(w', InFlight(c)).Some?;
      }
    }
    forall c | TicketAt(w', c).Some? ensures TicketAt(w', c) == TicketAt(w, c) && TicketOk(w', TicketAt(w', c).value) {
      assert TicketOk(w, TicketAt(w, c).value);
    }
  }

  lemma GuardedKeeps(derive: Bytes -> Option<PublicKey>, w: World, s': State<nat>)
    requires Inv(derive, w) && Shrinks(w.svc, s')
    ensures Inv(derive, Guarded(w, s'))
  {
    var w' := Guarded(w, s');
    GuardedLedger(w, s');
    GuardedCalls(derive, w, s');
    forall t, id | Live(s'.consumers, t, id)
      ensures w'.mem[s'.consumers[t].leases[id].secret] == w.mem[s'.consumers[t].leases[id].secret]
    {
      assert Owned(w', Stored(LeaseOwner(t, id))).Some?;
    }
  }

  /** A call that returns leaves its buffer zeroed and the lock free. */
  lemma ReturnedKeeps(derive: Bytes -> Option<PublicKey>, w: World, c: nat)
    requires Inv(derive, w) && c in w.calls
    ensures Inv(derive, Returned(w, c))
  {
    var w' := Returned(w, c);
    forall h | Owned(w', h).Some?
      ensures Owned(w', h) == Owned(w, h) && w'.mem[Owned(w, h).value] == w.mem[Owned(w, h).value]
    {
      assert BufferOf(w.calls[c]) == Owned(w, InFlight(c));
    }
    forall b | b in w'.mem && (forall h :: Owned(w', h) != Some(b)) ensures AllZero(w'.mem[b]) {
      if exists h :: Owned(w, h) == Some(b) {
        var h :| Owned(w, h) == Some(b);
        assert Owned(w', h) != Some(b);
        assert h == InFlight(c);
      }
    }
    assert LedgerInv(w');
    forall t, id | Live(w.svc.consumers, t, id)
      ensures w'.mem[w.svc.consumers[t].leases[id].secret] == w.mem[w.svc.consumers[t].leases[id].secret]
    {
      assert Owned(w', Stored(LeaseOwner(t, id))).Some?;
    }
    forall d | d in w'.calls ensures CallOk(derive, w', w'.calls[d]) {
      assert CallOk(derive, w, w.calls[d]);
      if BufferOf(w.calls[d]).Some? {
        assert Owned(w', InFlight(d)).Some?;
      }
    }
    forall d | TicketAt(w', d).Some? ensures TicketOk(w', TicketAt(w', d).value) && TicketAt(w, d) == TicketAt(w', d) {
      assert TicketOk(w, TicketAt(w, d).value);
    }
  }
}
