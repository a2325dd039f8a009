/**
  Expiry is lazy: a lease that has run out stays in the maps until some call sweeps it away. No caller
  can tell. However many sweeps are put between the calls, every answer is the same; and a call that
  presents one consumer's token leaves every other consumer's unexpired leases as they were.
*/
module LazyExpiry {
  import opened Common
  import opened DaemonState
  import opened DaemonSections
  import opened DaemonSectionLemmas

  type Consumers = map<Token, Consumer<nat>>

  datatype Request =
    | AskStatus(token: Token)
    | AskLease(token: Token, id: string)
    | AskKeys
    | AskConsumer(token: Token)
    | AskRevoke(token: Token, id: string)
    | AskAdminRevoke(consumerId: string, id: string)
    | AskInstall(g: Ticket, lease: Lease, secret: nat)
    | AskUpdate(name: string)
    | AskDelete(name: string)

  datatype Answer =
    | Status(consumer: Option<PublicConsumer>)
    | Secret(lease: Option<ActiveLease<nat>>)
    | Keys(leases: map<(Token, string), ActiveLease<nat>>)
    | Looked(found: Lookup)
    | Granting(told: Option<PublicConsumer>)
    | Done(done: bool)

  /** The live SSH leases: what `List` and `Sign` scan once they have swept. */
  function SshLeases(cs: Consumers): map<(Token, string), ActiveLease<nat>> {
    map t, id | t in cs && id in cs[t].leases && cs[t].leases[id].meta.kind == Ssh :: (t, id) := cs[t].leases[id]
  }

  ghost predicate UniqueIds(cs: Consumers) {
    forall t, u :: t in cs && u in cs && cs[t].meta.id == cs[u].meta.id ==> t == u
  }

  /** A request is served at `now`. A new consumer's identifier is fresh. */
  ghost predicate Serve(s: State<nat>, request: Request, now: int, at: int, s': State<nat>, answer: Answer) {
    match request
    case AskStatus(token) => answer.Status? && Reports(s, s', token, now, at, answer.consumer)
    case AskLease(token, id) => answer.Secret? && LooksUpLease(s, s', token, id, now, at, answer.lease)
    case AskKeys => answer.Keys? && Swept(s, s', now, at) && answer.leases == SshLeases(s'.consumers)
    case AskConsumer(token) => answer.Looked? && GrantLooksUp(s, s', token, now, at, answer.found)
    case AskRevoke(token, id) => answer.Done? && Revokes(s, s', token, id, now, at, answer.done)
    case AskAdminRevoke(consumerId, id) => answer.Done? && AdminRevokes(s, s', consumerId, id, now, at, answer.done)
    case AskInstall(g, lease, secret) =>
      && answer.Granting? && GrantInstalls(s, s', g, lease, secret, now, at, answer.told.Some?)
      && (answer.told.Some? ==> g.token in s'.consumers && answer.told.value == Public(s'.consumers[g.token]))
      && (g.isNew ==> forall t :: t in s.consumers ==> s.consumers[t].meta.id != g.id)
    case AskUpdate(name) => answer == Done(true) && UpdateCommits(s, s', name, at)
    case AskDelete(name) => answer == Done(true) && DeleteClears(s, s', name, at)
  }

  /** The requests that clear a profile do not sweep first. */
  predicate Clears(request: Request) {
    request.AskUpdate? || request.AskDelete?
  }

  /** At `t` no caller can tell the two apart: they differ at most in what has expired. */
  ghost predicate Agree(cs: Consumers, ds: Consumers, t: int) {
    Unexpired(cs, t) == Unexpired(ds, t)
  }

  // ---------------------------------------------------------------- what a section makes of the consumers

  lemma UnexpiredLater(cs: Consumers, t: int, now: int)
    requires t <= now
    ensures Unexpired(Unexpired(cs, t), now) == Unexpired(cs, now)
  {
    var ds := Unexpired(Unexpired(cs, t), now);
    assert ds.Keys == Unexpired(cs, now).Keys;
    forall u | u in ds ensures ds[u] == Unexpired(cs, now)[u] {
      assert ds[u].leases == Unexpired(cs, now)[u].leases;
    }
  }

  /** Once both have swept at `now`, they have the same consumers. */
  lemma AgreeOnceSwept(cs: Consumers, ds: Consumers, t: int, now: int)
    requires Agree(cs, ds, t) && t <= now
    ensures Unexpired(cs, now) == Unexpired(ds, now)
  {
    UnexpiredLater(cs, t, now);
    UnexpiredLater(ds, t, now);
  }

  lemma PlanLeaves(s: State<nat>, es: seq<Ending>, at: int, ls: set<(Token, string)>, ts: set<Token>)
    requires LeaseKeys(es) == ls && TokenKeys(es) == ts
    ensures EndAll(s, es, at).consumers == Without(s.consumers, ls, ts)
  {
    EndAllRemoves(s, es, at);
  }

  /** What revoking makes of the consumers, whatever the order of the loops. */
  function Revoked(cs: Consumers, token: Token, id: string): Consumers {
    if token !in cs then cs
    else if id == "" then Without(cs, LeasesOf(cs, token), {token})
    else if id in cs[token].leases then cs[token := cs[token].(leases := cs[token].leases - {id})]
    else cs
  }

  predicate RevokeAnswer(cs: Consumers, token: Token, id: string) {
    token in cs && (id == "" || id in cs[token].leases)
  }

  lemma RevokesMakes(s: State<nat>, s': State<nat>, token: Token, id: string,
                     consumerDetail: string, leaseDetail: string, at: int, answer: bool)
    requires RevokesAfterSweep(s, s', token, id, consumerDetail, leaseDetail, at, answer)
    ensures s'.consumers == Revoked(s.consumers, token, id) && answer == RevokeAnswer(s.consumers, token, id)
  {
    if token in s.consumers && id == "" {
      var es :| ConsumerPlan(s, es, token, consumerDetail, at) && s' == EndAll(s, es, at);
      PlanLeaves(s, es, at, LeasesOf(s.consumers, token), {token});
    }
  }

  /** What granting makes of the consumers. */
  function Granted(cs: Consumers, g: Ticket, lease: Lease, secret: nat, now: int): Consumers {
    var ds := if g.isNew then cs[g.token := Consumer(ConsumerMeta(g.id, g.title, now, g.expiresAt), map[])] else cs;
    if !GrantAnswer(cs, g) then cs
    else
      var left := Without(ds, LeasesOf(ds, g.token) * ProfileLeases(ds, lease.profile), {});
      left[g.token := left[g.token].(leases := left[g.token].leases[lease.id := ActiveLease(lease, secret)])]
  }

  predicate GrantAnswer(cs: Consumers, g: Ticket) {
    if g.isNew then g.token !in cs else g.token in cs && cs[g.token].meta.id == g.id
  }

  lemma GrantMakes(s: State<nat>, s': State<nat>, g: Ticket, lease: Lease, secret: nat, now: int, at: int,
                   granted: bool)
    requires InstallsAfterSweep(s, s', g, lease, secret, now, at, granted)
    ensures s'.consumers == Granted(s.consumers, g, lease, secret, now) && granted == GrantAnswer(s.consumers, g)
  {
    if granted {
      var s1 := Admit(s, g, now, at).value;
      var es :| InstallsOver(s1, es, s', g, lease, secret, at);
      PlanLeaves(s1, es, at, LeasesOf(s1.consumers, g.token) * ProfileLeases(s1.consumers, lease.profile), {});
    }
  }

  /** What clearing a profile makes of the consumers; it does not sweep first. */
  lemma ClearingMakes(s: State<nat>, s': State<nat>, name: string, at: int)
    requires UpdateCommits(s, s', name, at) || DeleteClears(s, s', name, at)
    ensures s'.consumers == Without(s.consumers, ProfileLeases(s.consumers, name), {})
  {
    if UpdateCommits(s, s', name, at) {
      var es :| ProfilePlan(s, es, name, PROFILE_CHANGED, at) && s' == Record(EndAll(s, es, at), UpdatedNote(name), at);
      PlanLeaves(s, es, at, ProfileLeases(s.consumers, name), {});
    } else {
      var es :| ProfilePlan(s, es, name, PROFILE_DELETED, at) && s' == SessionsWithout(EndAll(s, es, at), name);
      PlanLeaves(s, es, at, ProfileLeases(s.consumers, name), {});
    }
  }

  lemma ClearingAgrees(cs: Consumers, ds: Consumers, name: string, t: int)
    requires Agree(cs, ds, t)
    ensures Agree(Without(cs, ProfileLeases(cs, name), {}), Without(ds, ProfileLeases(ds, name), {}), t)
  {
    ClearingCommutes(cs, name, t);
    ClearingCommutes(ds, name, t);
  }

  lemma ClearingCommutes(cs: Consumers, name: string, t: int)
    ensures var u := Unexpired(cs, t);
            Unexpired(Without(cs, ProfileLeases(cs, name), {}), t) == Without(u, ProfileLeases(u, name), {})
  {
    var u := Unexpired(cs, t);
    var left := Unexpired(Without(cs, ProfileLeases(cs, name), {}), t);
    var right := Without(u, ProfileLeases(u, name), {});
    assert left.Keys == right.Keys;
    forall k | k in left ensures left[k] == right[k] {
      ClearingCommutesAt(cs, name, t, k);
    }
  }

  lemma ClearingCommutesAt(cs: Consumers, name: string, t: int, k: Token)
    requires k in cs && t < cs[k].meta.expiresAt
    ensures var u := Unexpired(cs, t);
            var left := Without(cs, ProfileLeases(cs, name), {});
            k in left && k in Unexpired(left, t) && Unexpired(left, t)[k] == Without(u, ProfileLeases(u, name), {})[k]
  {
    var u := Unexpired(cs, t);
    ClearedAt(cs, name, k);
    ClearedAt(u, name, k);
    var left := Unexpired(Without(cs, ProfileLeases(cs, name), {}), t)[k];
    var right := Without(u, ProfileLeases(u, name), {})[k];
    assert left.leases == right.leases;
  }

  lemma ClearedAt(cs: Consumers, name: string, k: Token)
    requires k in cs
    ensures var left := Without(cs, ProfileLeases(cs, name), {});
            k in left && left[k].meta == cs[k].meta &&
            left[k].leases == map id | id in cs[k].leases && cs[k].leases[id].meta.profile != name :: cs[k].leases[id]
  {
    forall id | id in cs[k].leases
      ensures (k, id) in ProfileLeases(cs, name) <==> cs[k].leases[id].meta.profile == name
    {
    }
  }

  // ---------------------------------------------------------------- one call cannot tell

  lemma AdminMakes(s: State<nat>, s': State<nat>, consumerId: string, id: string, at: int, answer: bool, t: Token)
    requires UniqueIds(s.consumers) && AdminRevokesAfterSweep(s, s', consumerId, id, at, answer)
    requires t in s.consumers && s.consumers[t].meta.id == consumerId
    ensures s'.consumers == Revoked(s.consumers, t, id) && answer == RevokeAnswer(s.consumers, t, id)
  {
    var u :| u in s.consumers && s.consumers[u].meta.id == consumerId &&
             RevokesAfterSweep(s, s', u, id, ENDED_BY_APP, REVOKED_BY_APP, at, answer);
    assert u == t;
    RevokesMakes(s, s', t, id, ENDED_BY_APP, REVOKED_BY_APP, at, answer);
  }

  lemma UnexpiredUnique(cs: Consumers, now: int)
    requires UniqueIds(cs)
    ensures UniqueIds(Unexpired(cs, now))
  {
    forall t | t in Unexpired(cs, now) ensures Unexpired(cs, now)[t].meta == cs[t].meta {}
  }

  /** What a request answers, and what it makes of the consumers, once the expired are swept away. */
  ghost predicate ServedFrom(cs: Consumers, request: Request, now: int, ds: Consumers, answer: Answer) {
    match request
    case AskStatus(token) =>
      ds == cs && answer == Status(if token != "" && token in cs then Some(Public(cs[token])) else None)
    case AskLease(token, id) =>
      ds == cs && answer == Secret(if token != "" && Live(cs, token, id) && cs[token].leases[id].meta.kind != Ssh
                                   then Some(cs[token].leases[id]) else None)
    case AskKeys => ds == cs && answer == Keys(SshLeases(cs))
    case AskConsumer(token) =>
      ds == cs && answer == Looked(if token != "" && token in cs
                                   then Found(cs[token].meta.id, cs[token].meta.title, cs[token].meta.expiresAt)
                                   else NotFound)
    case AskRevoke(token, id) => ds == Revoked(cs, token, id) && answer == Done(RevokeAnswer(cs, token, id))
    case AskAdminRevoke(consumerId, id) =>
      if forall t :: t in cs ==> cs[t].meta.id != consumerId then ds == cs && answer == Done(false)
      else forall t :: t in cs && cs[t].meta.id == consumerId ==>
             ds == Revoked(cs, t, id) && answer == Done(RevokeAnswer(cs, t, id))
    case AskInstall(g, lease, secret) =>
      && ds == Granted(cs, g, lease, secret, now) && answer.Granting? && answer.told.Some? == GrantAnswer(cs, g)
      && (answer.told.Some? ==> g.token in ds && answer.told.value == Public(ds[g.token]))
    case AskUpdate(name) => ds == Without(cs, ProfileLeases(cs, name), {}) && answer == Done(true)
    case AskDelete(name) => ds == Without(cs, ProfileLeases(cs, name), {}) && answer == Done(true)
  }

  lemma Served(s: State<nat>, request: Request, now: int, at: int, s': State<nat>, answer: Answer)
    requires Serve(s, request, now, at, s', answer) && UniqueIds(s.consumers) && !Clears(request)
    ensures ServedFrom(Unexpired(s.consumers, now), request, now, s'.consumers, answer)
  {
    UnexpiredUnique(s.consumers, now);
    if request.AskRevoke? || request.AskAdminRevoke? || request.AskInstall? {
      ServedAfterSweep(s, request, now, at, s', answer);
    } else {
      SweptHolds(s, s', now, at);
    }
  }

  lemma ServedAfterSweep(s: State<nat>, request: Request, now: int, at: int, s': State<nat>, answer: Answer)
    requires Serve(s, request, now, at, s', answer) && UniqueIds(Unexpired(s.consumers, now))
    requires request.AskRevoke? || request.AskAdminRevoke? || request.AskInstall?
    ensures ServedFrom(Unexpired(s.consumers, now), request, now, s'.consumers, answer)
  {
    match request {
      case AskRevoke(token, id) =>
        var es :| SweepPlan(s, es, now, at) &&
                  RevokesAfterSweep(EndAll(s, es, at), s', token, id, ENDED_BY_HOLDER, REVOKED_BY_HOLDER, at,
                                    answer.done);
        SweepLeaves(s, es, now, at);
        RevokesMakes(EndAll(s, es, at), s', token, id, ENDED_BY_HOLDER, REVOKED_BY_HOLDER, at, answer.done);
      case AskAdminRevoke(consumerId, id) =>
        var es :| SweepPlan(s, es, now, at) &&
                  AdminRevokesAfterSweep(EndAll(s, es, at), s', consumerId, id, at, answer.done);
        var s1 := EndAll(s, es, at);
        SweepLeaves(s, es, now, at);
        forall t | t in s1.consumers && s1.consumers[t].meta.id == consumerId
          ensures s'.consumers == Revoked(s1.consumers, t, id) && answer.done == RevokeAnswer(s1.consumers, t, id)
        {
          AdminMakes(s1, s', consumerId, id, at, answer.done, t);
        }
      case AskInstall(g, lease, secret) =>
        var es :| SweepPlan(s, es, now, at) &&
                  InstallsAfterSweep(EndAll(s, es, at), s', g, lease, secret, now, at, answer.told.Some?);
        SweepLeaves(s, es, now, at);
        GrantMakes(EndAll(s, es, at), s', g, lease, secret, now, at, answer.told.Some?);
      case _ =>
    }
  }

  /** Two states that differ at most in what has expired give the same answer, and still differ at most in that. */
  lemma OneCallCannotTell(s1: State<nat>, s2: State<nat>, t: int, request: Request, now: int, at1: int, at2: int,
                          s1': State<nat>, s2': State<nat>, a1: Answer, a2: Answer)
    requires Agree(s1.consumers, s2.consumers, t) && t <= now && UniqueIds(s1.consumers) && UniqueIds(s2.consumers)
    requires Serve(s1, request, now, at1, s1', a1) && Serve(s2, request, now, at2, s2', a2)
    ensures a1 == a2 && Agree(s1'.consumers, s2'.consumers, now)
  {
    AgreeOnceSwept(s1.consumers, s2.consumers, t, now);
    if Clears(request) {
      ClearingMakes(s1, s1', request.name, at1);
      ClearingMakes(s2, s2', request.name, at2);
      ClearingAgrees(s1.consumers, s2.consumers, request.name, now);
    } else {
      Served(s1, request, now, at1, s1', a1);
      Served(s2, request, now, at2, s2', a2);
      OneOutcome(Unexpired(s1.consumers, now), request, now, s1'.consumers, s2'.consumers, a1, a2);
    }
  }

  lemma OneOutcome(cs: Consumers, request: Request, now: int, ds1: Consumers, ds2: Consumers, a1: Answer, a2: Answer)
    requires ServedFrom(cs, request, now, ds1, a1) && ServedFrom(cs, request, now, ds2, a2)
    ensures a1 == a2 && ds1 == ds2
  {
  }

  // ---------------------------------------------------------------- identifiers stay unique

  lemma WithoutUnique(cs: Consumers, ls: set<(Token, string)>, ts: set<Token>)
    requires UniqueIds(cs)
    ensures UniqueIds(Without(cs, ls, ts))
  {
    forall t | t in Without(cs, ls, ts) ensures Without(cs, ls, ts)[t].meta == cs[t].meta {}
  }

  lemma ServeUnique(s: State<nat>, request: Request, now: int, at: int, s': State<nat>, answer: Answer)
    requires Serve(s, request, now, at, s', answer) && UniqueIds(s.consumers)
    ensures UniqueIds(s'.consumers)
  {
    var cs := Unexpired(s.consumers, now);
    UnexpiredUnique(s.consumers, now);
    match request {
      case AskUpdate(name) =>
        ClearingMakes(s, s', name, at);
        WithoutUnique(s.consumers, ProfileLeases(s.consumers, name), {});
      case AskDelete(name) =>
        ClearingMakes(s, s', name, at);
        WithoutUnique(s.consumers, ProfileLeases(s.consumers, name), {});
      case AskInstall(g, lease, secret) =>
        Served(s, request, now, at, s', answer);
        GrantedUnique(cs, g, lease, secret, now);
      case AskRevoke(token, id) =>
        Served(s, request, now, at, s', answer);
        RevokedUnique(cs, token, id);
      case AskAdminRevoke(consumerId, id) =>
        Served(s, request, now, at, s', answer);
        forall t | t in cs ensures UniqueIds(Revoked(cs, t, id)) { RevokedUnique(cs, t, id); }
      case _ =>
        Served(s, request, now, at, s', answer);
    }
  }

  lemma RevokedUnique(cs: Consumers, token: Token, id: string)
    requires UniqueIds(cs)
    ensures UniqueIds(Revoked(cs, token, id))
  {
    WithoutUnique(cs, LeasesOf(cs, token), {token});
    forall t | t in Revoked(cs, token, id) ensures t in cs && Revoked(cs, token, id)[t].meta == cs[t].meta {}
  }

  lemma GrantedUnique(cs: Consumers, g: Ticket, lease: Lease, secret: nat, now: int)
    requires UniqueIds(cs) && (g.isNew ==> forall t :: t in cs ==> cs[t].meta.id != g.id)
    ensures UniqueIds(Granted(cs, g, lease, secret, now))
  {
    if GrantAnswer(cs, g) {
      var ds := if g.isNew then cs[g.token := Consumer(ConsumerMeta(g.id, g.title, now, g.expiresAt), map[])] else cs;
      WithoutUnique(ds, LeasesOf(ds, g.token) * ProfileLeases(ds, lease.profile), {});
    }
  }

  // ---------------------------------------------------------------- whole runs of calls

  datatype Item = Ask(request: Request, now: int, at: int) | Sweep(until: int, at: int)

  /** From `s` the items are served in turn and the requests among them are given these answers. */
  ghost predicate Plays(s: State<nat>, items: seq<Item>, answers: seq<Answer>)
    decreases |items|
  {
    if items == [] then answers == []
    else match items[0]
      case Ask(request, now, at) =>
        answers != [] &&
        exists s' :: Serve(s, request, now, at, s', answers[0]) && Plays(s', items[1..], answers[1..])
      case Sweep(until, at) =>
        exists s' :: Swept(s, s', until, at) && Plays(s', items[1..], answers)
  }

  /** Time never goes back between requests, and no sweep is ahead of the requests after it. */
  predicate Timely(items: seq<Item>, t: int)
    decreases |items|
  {
    if items == [] then true
    else match items[0]
      case Ask(request, now, at) => t <= now && Timely(items[1..], now)
      case Sweep(until, at) => Timely(items[1..], if t < until then until else t)
  }

  /** The same calls without any sweep of their own between them. */
  function Asks(items: seq<Item>): seq<Item>
    decreases |items|
  {
    if items == [] then []
    else (if items[0].Ask? then [items[0]] else []) + Asks(items[1..])
  }

  lemma SweepAgrees(s: State<nat>, s': State<nat>, ds: Consumers, t: int, until: int, at: int)
    requires Swept(s, s', until, at) && Agree(s.consumers, ds, t)
    ensures Agree(s'.consumers, ds, if t < until then until else t)
  {
    SweptHolds(s, s', until, at);
    var later := if t < until then until else t;
    AgreeOnceSwept(s.consumers, ds, t, later);
    UnexpiredLater(s.consumers, until, later);
  }

  lemma {:induction false} SweepsCannotTell(s1: State<nat>, s2: State<nat>, t: int, items: seq<Item>, a1: seq<Answer>,
                                            a2: seq<Answer>)
    requires Agree(s1.consumers, s2.consumers, t) && UniqueIds(s1.consumers) && UniqueIds(s2.consumers)
    requires Timely(items, t) && Plays(s1, items, a1) && Plays(s2, Asks(items), a2)
    ensures a1 == a2
    decreases |items|
  {
    if items != [] {
      match items[0] {
        case Ask(request, now, at) =>
          assert Asks(items)[1..] == Asks(items[1..]);
          var s1' :| Serve(s1, request, now, at, s1', a1[0]) && Plays(s1', items[1..], a1[1..]);
          var s2' :| Serve(s2, request, now, at, s2', a2[0]) && Plays(s2', Asks(items)[1..], a2[1..]);
          OneCallCannotTell(s1, s2, t, request, now, at, at, s1', s2', a1[0], a2[0]);
          ServeUnique(s1, request, now, at, s1', a1[0]);
          ServeUnique(s2, request, now, at, s2', a2[0]);
          SweepsCannotTell(s1', s2', now, items[1..], a1[1..], a2[1..]);
        case Sweep(until, at) =>
          assert Asks(items) == Asks(items[1..]);
          var s1' :| Swept(s1, s1', until, at) && Plays(s1', items[1..], a1);
          SweepAgrees(s1, s1', s2.consumers, t, until, at);
          SweptHolds(s1, s1', until, at);
          UnexpiredUnique(s1.consumers, until);
          SweepsCannotTell(s1', s2, if t < until then until else t, items[1..], a1, a2);
      }
    }
  }

  /** Lazy expiry refines eager expiry: whatever sweeps are put between the calls, every answer is the same. */
  lemma LazyIsEager(s: State<nat>, t: int, items: seq<Item>, eager: seq<Answer>, plain: seq<Answer>)
    requires UniqueIds(s.consumers) && Timely(items, t)
    requires Plays(s, items, eager) && Plays(s, Asks(items), plain)
    ensures eager == plain
  {
    SweepsCannotTell(s, s, t, items, eager, plain);
  }

  // ---------------------------------------------------------------- where a grant reads the clock early

  /**
    A grant for a known consumer reads the clock before it takes the lock to look that up. A sweep that
    comes in between with a later reading changes what it finds exactly when the consumer expires after
    the first reading and not after the second.
  */
  lemma LookUpReadsEarlyExactly(s: State<nat>, swept: State<nat>, request: Request, now: int, until: int,
                                at: int, at1: int, at2: int, s1: State<nat>, s2: State<nat>, a1: Answer, a2: Answer)
    requires UniqueIds(s.consumers) && request.AskConsumer? && now <= until && Swept(s, swept, until, at)
    requires Serve(s, request, now, at1, s1, a1) && Serve(swept, request, now, at2, s2, a2)
    ensures var token, cs := request.token, s.consumers;
            a1 != a2 <==> token != "" && token in cs && now < cs[token].meta.expiresAt <= until
  {
    SweptHolds(s, swept, until, at);
    UnexpiredUnique(s.consumers, until);
    Served(s, request, now, at1, s1, a1);
    Served(swept, request, now, at2, s2, a2);
  }

  /** The consumer after a grant: what it had of other profiles, and the new lease. */
  lemma GrantedTo(cs: Consumers, g: Ticket, lease: Lease, secret: nat, now: int)
    requires GrantAnswer(cs, g)
    ensures var ds, had := Granted(cs, g, lease, secret, now), if g.isNew then map[] else cs[g.token].leases;
            && g.token in ds
            && ds[g.token].meta == (if g.isNew then ConsumerMeta(g.id, g.title, now, g.expiresAt) else cs[g.token].meta)
            && (forall id :: id in ds[g.token].leases <==>
                  id == lease.id || (id in had && had[id].meta.profile != lease.profile))
            && (forall id :: id in ds[g.token].leases ==>
                  ds[g.token].leases[id] == if id == lease.id then ActiveLease(lease, secret) else had[id])
  {
    var ds := if g.isNew then cs[g.token := Consumer(ConsumerMeta(g.id, g.title, now, g.expiresAt), map[])] else cs;
    var gone := LeasesOf(ds, g.token) * ProfileLeases(ds, lease.profile);
    forall id | id in ds[g.token].leases
      ensures (g.token, id) in gone <==> ds[g.token].leases[id].meta.profile == lease.profile
    {
    }
    var left := Without(ds, gone, {});
    assert left[g.token].meta == ds[g.token].meta;
    assert forall id :: id in left[g.token].leases <==> id in ds[g.token].leases && (g.token, id) !in gone;
  }

  /** The leases a grant shows a known consumer, of those it had. */
  function ShownLeases(had: map<string, ActiveLease<nat>>, lease: Lease, now: int): map<string, Lease> {
    var others := map id | id in had && now < had[id].meta.expiresAt && had[id].meta.profile != lease.profile ::
                    had[id].meta;
    others[lease.id := lease]
  }

  /** One of them runs out after the one reading and not after the other. */
  ghost predicate ShownExpires(had: map<string, ActiveLease<nat>>, lease: Lease, now: int, until: int) {
    exists id :: id in had && id != lease.id && had[id].meta.profile != lease.profile &&
                 now < had[id].meta.expiresAt <= until
  }

  lemma ShownDiffer(had: map<string, ActiveLease<nat>>, lease: Lease, now: int, until: int)
    requires now <= until
    ensures ShownLeases(had, lease, now) != ShownLeases(had, lease, until) <==> ShownExpires(had, lease, now, until)
  {
    var one, other := ShownLeases(had, lease, now), ShownLeases(had, lease, until);
    if id :| id in had && id != lease.id && had[id].meta.profile != lease.profile &&
             now < had[id].meta.expiresAt <= until {
      assert id in one && id !in other;
    } else {
      assert one.Keys == other.Keys;
      assert one == other;
    }
  }

  /** What a grant answers once the expired are swept away. */
  function Answered(cs: Consumers, g: Ticket, lease: Lease, secret: nat, now: int): Option<PublicConsumer> {
    if GrantAnswer(cs, g) then
      GrantedTo(cs, g, lease, secret, now);
      Some(Public(Granted(cs, g, lease, secret, now)[g.token]))
    else None
  }

  /** To a known consumer, when the expired are those at `t`. */
  lemma KnownAnswered(cs: Consumers, g: Ticket, lease: Lease, secret: nat, now: int, t: int)
    requires !g.isNew && g.token in cs
    ensures Answered(Unexpired(cs, t), g, lease, secret, now) ==
            if cs[g.token].meta.id == g.id && t < cs[g.token].meta.expiresAt
            then Some(PublicConsumer(cs[g.token].meta, ShownLeases(cs[g.token].leases, lease, t))) else None
  {
    var us := Unexpired(cs, t);
    if GrantAnswer(us, g) {
      GrantedTo(us, g, lease, secret, now);
      var told := Public(Granted(us, g, lease, secret, now)[g.token]);
      assert told.leases.Keys == ShownLeases(cs[g.token].leases, lease, t).Keys;
      assert told.leases == ShownLeases(cs[g.token].leases, lease, t);
    }
  }

  /** To a new one. */
  lemma NewAnswered(cs: Consumers, g: Ticket, lease: Lease, secret: nat, now: int, t: int)
    requires g.isNew
    ensures Answered(Unexpired(cs, t), g, lease, secret, now) ==
            if g.token in cs && t < cs[g.token].meta.expiresAt then None
            else Some(PublicConsumer(ConsumerMeta(g.id, g.title, now, g.expiresAt), map[lease.id := lease]))
  {
    var us := Unexpired(cs, t);
    if GrantAnswer(us, g) {
      GrantedTo(us, g, lease, secret, now);
      assert Public(Granted(us, g, lease, secret, now)[g.token]).leases == map[lease.id := lease];
    }
  }

  lemma AnswersDiffer(cs: Consumers, g: Ticket, lease: Lease, secret: nat, now: int, until: int)
    requires now <= until
    ensures Answered(Unexpired(cs, now), g, lease, secret, now) != Answered(Unexpired(cs, until), g, lease, secret, now)
            <==>
            && g.token in cs && (g.isNew || cs[g.token].meta.id == g.id)
            && (|| now < cs[g.token].meta.expiresAt <= until
                || (!g.isNew && until < cs[g.token].meta.expiresAt &&
                    ShownExpires(cs[g.token].leases, lease, now, until)))
  {
    if g.isNew {
      NewAnswered(cs, g, lease, secret, now, now);
      NewAnswered(cs, g, lease, secret, now, until);
    } else if g.token in cs {
      KnownAnswered(cs, g, lease, secret, now, now);
      KnownAnswered(cs, g, lease, secret, now, until);
      ShownDiffer(cs[g.token].leases, lease, now, until);
    }
  }

  lemma InstallAnswered(s: State<nat>, request: Request, now: int, at: int, s': State<nat>, answer: Answer)
    requires UniqueIds(s.consumers) && request.AskInstall? && Serve(s, request, now, at, s', answer)
    ensures answer == Granting(Answered(Unexpired(s.consumers, now), request.g, request.lease, request.secret, now))
  {
    Served(s, request, now, at, s', answer);
  }

  /** What is unexpired at `t` is so before. */
  lemma UnexpiredBefore(cs: Consumers, t: int, now: int)
    requires now <= t
    ensures Unexpired(Unexpired(cs, t), now) == Unexpired(cs, t)
  {
    var us, vs := Unexpired(cs, t), Unexpired(Unexpired(cs, t), now);
    assert us.Keys == vs.Keys;
    forall k | k in us ensures us[k] == vs[k] {
      assert us[k].leases == vs[k].leases;
    }
  }

  /**
    It reads the clock once more before it takes the lock to install the lease. A sweep in between with a
    later reading changes its answer exactly when the consumer expires after the first reading and not
    after the second; or, the consumer being known and outliving both, when another of its leases does
    that would be shown.
  */
  lemma GrantReadsEarlyExactly(s: State<nat>, swept: State<nat>, request: Request, now: int, until: int,
                               at: int, at1: int, at2: int, s1: State<nat>, s2: State<nat>, a1: Answer, a2: Answer)
    requires UniqueIds(s.consumers) && request.AskInstall? && now <= until && Swept(s, swept, until, at)
    requires Serve(s, request, now, at1, s1, a1) && Serve(swept, request, now, at2, s2, a2)
    ensures var g, cs := request.g, s.consumers;
            a1 != a2 <==>
            && g.token in cs && (g.isNew || cs[g.token].meta.id == g.id)
            && (|| now < cs[g.token].meta.expiresAt <= until
                || (!g.isNew && until < cs[g.token].meta.expiresAt &&
                    ShownExpires(cs[g.token].leases, request.lease, now, until)))
  {
    SweptHolds(s, swept, until, at);
    UnexpiredUnique(s.consumers, until);
    UnexpiredBefore(s.consumers, until, now);
    InstallAnswered(s, request, now, at1, s1, a1);
    InstallAnswered(swept, request, now, at2, s2, a2);
    AnswersDiffer(s.consumers, request.g, request.lease, request.secret, now, until);
  }

  /** A consumer with a lease of another profile is shown it, or not, after a sweep at 30 on a reading of 10. */
  lemma GrantCanTell()
    ensures var held := ActiveLease(Lease("old", Plain(""), "id", "agent", "first", "KEY", "deploy", 0, 20), 1);
            var cs := map["token" := Consumer(ConsumerMeta("id", "agent", 0, 100), map["old" := held])];
            var lease := Lease("new", Plain(""), "id", "agent", "second", "KEY", "deploy", 10, 50);
            var g := Ticket("token", "id", "agent", 100, false);
            Answered(Unexpired(cs, 10), g, lease, 2, 10) != Answered(Unexpired(cs, 30), g, lease, 2, 10)
  {
    var held := ActiveLease(Lease("old", Plain(""), "id", "agent", "first", "KEY", "deploy", 0, 20), 1);
    var cs := map["token" := Consumer(ConsumerMeta("id", "agent", 0, 100), map["old" := held])];
    var lease := Lease("new", Plain(""), "id", "agent", "second", "KEY", "deploy", 10, 50);
    AnswersDiffer(cs, Ticket("token", "id", "agent", 100, false), lease, 2, 10, 30);
    assert "old" in cs["token"].leases && lease.profile[0] != held.meta.profile[0];
    assert ShownExpires(cs["token"].leases, lease, 10, 30);
  }

  // ---------------------------------------------------------------- isolation

  /** The token a request presents. */
  function Presents(request: Request): Option<Token> {
    match request
    case AskStatus(token) => Some(token)
    case AskLease(token, _) => Some(token)
    case AskConsumer(token) => Some(token)
    case AskRevoke(token, _) => Some(token)
    case AskInstall(g, _, _) => Some(g.token)
    case _ => None
  }

  /** A call that presents a token leaves every other consumer's unexpired leases, and their secrets, as they were. */
  lemma OthersAreUntouched(s: State<nat>, request: Request, now: int, at: int, s': State<nat>, answer: Answer, u: Token)
    requires Serve(s, request, now, at, s', answer) && UniqueIds(s.consumers)
    requires Presents(request).Some? && u != Presents(request).value
    ensures u in s'.consumers <==> u in Unexpired(s.consumers, now)
    ensures u in s'.consumers ==> s'.consumers[u] == Unexpired(s.consumers, now)[u]
  {
    var cs := Unexpired(s.consumers, now);
    Served(s, request, now, at, s', answer);
    match request {
      case AskRevoke(token, id) =>
        if token in cs && id == "" {
          WithoutOthers(cs, LeasesOf(cs, token), {token}, u);
        }
      case AskInstall(g, lease, secret) =>
        if GrantAnswer(cs, g) {
          var c := Consumer(ConsumerMeta(g.id, g.title, now, g.expiresAt), map[]);
          var ds := if g.isNew then cs[g.token := c] else cs;
          WithoutOthers(ds, LeasesOf(ds, g.token) * ProfileLeases(ds, lease.profile), {}, u);
        }
      case _ =>
    }
  }

  lemma WithoutOthers(cs: Consumers, ls: set<(Token, string)>, ts: set<Token>, u: Token)
    requires u !in ts && forall x :: x in ls ==> x.0 != u
    ensures u in Without(cs, ls, ts) <==> u in cs
    ensures u in cs ==> Without(cs, ls, ts)[u] == cs[u]
  {
    if u in cs {
      assert Without(cs, ls, ts)[u].leases == cs[u].leases;
    }
  }

  /** Everything told of a consumer is as stored, and tells of its unexpired leases and no others. */
  ghost predicate Tells(cs: Consumers, token: Token, now: int, told: PublicConsumer) {
    && token in cs && told.meta == cs[token].meta && now < cs[token].meta.expiresAt
    && (forall id :: id in told.leases <==> id in cs[token].leases && now < cs[token].leases[id].meta.expiresAt)
    && (forall id :: id in told.leases ==> told.leases[id] == cs[token].leases[id].meta)
  }

  /**
    When a caller is told something, and what: it comes from the consumer its token names, and has not
    expired. A lease to use is given exactly when it is current and no SSH lease.
  */
  lemma AnswersAreOnesOwn(s: State<nat>, request: Request, now: int, at: int, s': State<nat>, answer: Answer)
    requires Serve(s, request, now, at, s', answer) && UniqueIds(s.consumers)
    ensures request.AskStatus? ==>
              (answer.consumer.Some? <==> request.token != "" && Unended(s.consumers, request.token, now))
    ensures answer.Status? && answer.consumer.Some? ==> Tells(s.consumers, request.token, now, answer.consumer.value)
    ensures request.AskLease? ==>
              (answer.lease.Some? <==>
               && request.token != "" && Unended(s.consumers, request.token, now)
               && Live(s.consumers, request.token, request.id)
               && now < s.consumers[request.token].leases[request.id].meta.expiresAt
               && s.consumers[request.token].leases[request.id].meta.kind != Ssh)
    ensures answer.Secret? && answer.lease.Some? ==>
              answer.lease.value == s.consumers[request.token].leases[request.id]
    ensures request.AskConsumer? ==>
              (answer.found.Found? <==> request.token != "" && Unended(s.consumers, request.token, now))
    ensures answer.Looked? && answer.found.Found? ==>
              var m := s.consumers[request.token].meta; answer.found == Found(m.id, m.title, m.expiresAt)
    ensures request.AskInstall? && answer.Granting? && answer.told.Some? ==>
              InstallTells(s.consumers, request, now, answer.told.value)
  {
    if !Clears(request) {
      Served(s, request, now, at, s', answer);
    }
    if request.AskInstall? && answer.told.Some? {
      GrantedTo(Unexpired(s.consumers, now), request.g, request.lease, request.secret, now);
    }
  }

  predicate Unended(cs: Consumers, token: Token, now: int) {
    token in cs && now < cs[token].meta.expiresAt
  }

  /** The consumer a grant answers with: its own, the new lease, and the unexpired leases it had of other profiles. */
  ghost predicate InstallTells(cs: Consumers, request: Request, now: int, told: PublicConsumer)
    requires request.AskInstall?
  {
    var g, lease := request.g, request.lease;
    && told.meta.id == g.id && lease.id in told.leases && told.leases[lease.id] == lease
    && forall id :: id != lease.id ==>
         && (id in told.leases <==>
             && !g.isNew && Live(cs, g.token, id) && cs[g.token].leases[id].meta.profile != lease.profile
             && now < cs[g.token].leases[id].meta.expiresAt)
         && (id in told.leases ==> told.leases[id] == cs[g.token].leases[id].meta)
  }
}
