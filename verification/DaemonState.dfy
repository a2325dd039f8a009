/**
  The state the daemon guards with `mu`, and what each critical section may do to it.

  The model is generic in the secret buffers `B`: the class in DaemonService.dfy owns real
  byte arrays, the interleaved machine in DaemonMachine.dfy owns buffer numbers. Consumers are
  keyed by their capability token: the daemon keys them by its SHA-256, taken to be injective.

  A loop over a Go map visits it in an unspecified order, and here the order shows in the
  journal. So the clearing loops are specified by a plan: a sequence of endings, one for each
  lease or consumer the loop removes, in some order the loop may take.
*/
module DaemonState {
  import opened Common

  const JOURNAL_LIMIT: nat := 200

  type Token = string

  /** The kind recorded in a profile: "ssh", or any other text (the daemon writes the empty one). */
  datatype Kind = Ssh | Plain(text: string)

  /** A public key, in its wire encoding. */
  type PublicKey = Bytes

  datatype Profile = Profile(kind: Kind, publicKey: PublicKey, environmentVariable: string, defaultLeaseSeconds: int)

  type Config = map<string, Profile>

  datatype Lease = Lease(id: string, kind: Kind, consumerId: string, consumerLabel: string, profile: string,
                         environmentVariable: string, reason: string, grantedAt: int, expiresAt: int)

  datatype ActiveLease<+B> = ActiveLease(meta: Lease, secret: B)

  datatype ConsumerMeta = ConsumerMeta(id: string, title: string, createdAt: int, expiresAt: int)

  datatype Consumer<+B> = Consumer(meta: ConsumerMeta, leases: map<string, ActiveLease<B>>)

  datatype Session<+B> = Session(profile: string, secret: B, expiresAt: int)

  datatype EventKind =
    | ConsumerStarted | ConsumerEnded | Granted | Revoked | Expired
    | ProfileSaved | ProfileUpdated | ProfileRemoved | ManagementStarted

  datatype Note = Note(kind: EventKind, profile: string, consumerId: string, consumerLabel: string,
                       reason: string, detail: string)

  /** A journal entry. Its identifier is made of the instant and of `serial`, the revision it produced. */
  datatype Event = Event(serial: int, note: Note, at: int)

  /**
    `events` is the bounded journal; `history` is every event recorded since the daemon started
    and exists only in the model.
  */
  datatype State<+B> = State(consumers: map<Token, Consumer<B>>, management: map<Token, Session<B>>,
                             events: seq<Event>, history: seq<Event>, revision: int)

  const LEASE_EXPIRED := "Lease expired automatically"
  const CONSUMER_EXPIRED := "Consumer capability expired automatically"
  const ENDED_BY_HOLDER := "Consumer ended by its capability holder"
  const ENDED_BY_APP := "Consumer ended from Key Session.app"
  const REVOKED_BY_HOLDER := "Lease revoked by its consumer"
  const REVOKED_BY_APP := "Lease revoked from Key Session.app"
  const REPLACED := "Replaced by a newer lease for this consumer and profile"
  const PROFILE_CHANGED := "Profile changed"
  const PROFILE_DELETED := "Profile removed"
  const APP := "Key Session.app"
  const HUMAN := "Human profile management"

  // ---------------------------------------------------------------- single effects

  function Newest(events: seq<Event>): seq<Event> {
    if |events| > JOURNAL_LIMIT then events[|events| - JOURNAL_LIMIT..] else events
  }

  function Record<B>(s: State<B>, note: Note, at: int): State<B> {
    var event := Event(s.revision + 1, note, at);
    s.(revision := s.revision + 1, history := s.history + [event], events := Newest(s.events + [event]))
  }

  predicate Live<B>(cs: map<Token, Consumer<B>>, token: Token, id: string) {
    token in cs && id in cs[token].leases
  }

  function DropLease<B>(s: State<B>, token: Token, id: string): State<B> {
    if Live(s.consumers, token, id) then
      var c := s.consumers[token];
      s.(consumers := s.consumers[token := c.(leases := c.leases - {id})], revision := s.revision + 1)
    else s
  }

  // ---------------------------------------------------------------- endings

  datatype Ending =
    | EndLease(token: Token, id: string, note: Note)
    | EndConsumer(token: Token, note: Note)

  function End<B>(s: State<B>, e: Ending, at: int): State<B> {
    match e
    case EndLease(token, id, note) => Record(DropLease(s, token, id), note, at)
    case EndConsumer(token, note) => Record(s.(consumers := s.consumers - {token}), note, at)
  }

  function EndAll<B>(s: State<B>, es: seq<Ending>, at: int): State<B> {
    if es == [] then s else End(EndAll(s, es[..|es| - 1], at), es[|es| - 1], at)
  }

  /** The lease or consumer is there to end; a consumer ends after all its leases have. */
  predicate CanEnd<B>(s: State<B>, e: Ending) {
    match e
    case EndLease(token, id, note) => Live(s.consumers, token, id) && note.kind in {Revoked, Expired}
    case EndConsumer(token, note) =>
      token in s.consumers && s.consumers[token].leases == map[] && note.kind == ConsumerEnded
  }

  predicate Feasible<B>(s: State<B>, es: seq<Ending>, at: int) {
    es == [] ||
    (Feasible(s, es[..|es| - 1], at) && CanEnd(EndAll(s, es[..|es| - 1], at), es[|es| - 1]))
  }

  function LeaseKeys(es: seq<Ending>): set<(Token, string)> {
    set e | e in es && e.EndLease? :: (e.token, e.id)
  }

  function TokenKeys(es: seq<Ending>): set<Token> {
    set e | e in es && e.EndConsumer? :: e.token
  }

  /** The consumers left when the named leases and the named consumers are gone. */
  function Without<B>(cs: map<Token, Consumer<B>>, leases: set<(Token, string)>, tokens: set<Token>)
    : map<Token, Consumer<B>>
  {
    map t | t in cs && t !in tokens ::
      cs[t].(leases := map id | id in cs[t].leases && (t, id) !in leases :: cs[t].leases[id])
  }

  lemma SnocKeys(es: seq<Ending>, e: Ending)
    ensures LeaseKeys(es + [e]) == LeaseKeys(es) + (if e.EndLease? then {(e.token, e.id)} else {})
    ensures TokenKeys(es + [e]) == TokenKeys(es) + (if e.EndConsumer? then {e.token} else {})
  {
    forall x ensures x in es + [e] <==> x in es || x == e {}
  }

  lemma EndAllSnoc<B>(s: State<B>, es: seq<Ending>, e: Ending, at: int)
    ensures EndAll(s, es + [e], at) == End(EndAll(s, es, at), e, at)
    ensures Feasible(s, es + [e], at) <==> Feasible(s, es, at) && CanEnd(EndAll(s, es, at), e)
  {
    assert (es + [e])[..|es + [e]| - 1] == es;
  }

  lemma EndAllPlus<B>(s: State<B>, es: seq<Ending>, fs: seq<Ending>, at: int)
    ensures EndAll(s, es + fs, at) == EndAll(EndAll(s, es, at), fs, at)
    ensures Feasible(s, es + fs, at) <==> Feasible(s, es, at) && Feasible(EndAll(s, es, at), fs, at)
    decreases |fs|
  {
    if fs == [] {
      assert es + fs == es;
    } else {
      var init, last := fs[..|fs| - 1], fs[|fs| - 1];
      EndAllPlus(s, es, init, at);
      assert es + fs == (es + init) + [last];
      EndAllSnoc(s, es + init, last, at);
    }
  }

  lemma WithoutNothing<B>(cs: map<Token, Consumer<B>>)
    ensures Without(cs, {}, {}) == cs
  {
    forall t | t in cs ensures Without(cs, {}, {})[t] == cs[t] {
      assert (map id | id in cs[t].leases && (t, id) !in {} :: cs[t].leases[id]) == cs[t].leases;
    }
  }

  lemma EndWithout<B>(s: State<B>, cs: map<Token, Consumer<B>>, ls: set<(Token, string)>, ts: set<Token>,
                      e: Ending, at: int)
    requires s.consumers == Without(cs, ls, ts)
    ensures e.EndLease? ==> End(s, e, at).consumers == Without(cs, ls + {(e.token, e.id)}, ts)
    ensures e.EndConsumer? ==> End(s, e, at).consumers == Without(cs, ls, ts + {e.token})
  {
    if e.EndLease? {
      var after := End(s, e, at).consumers;
      var want := Without(cs, ls + {(e.token, e.id)}, ts);
      assert after.Keys == want.Keys;
      forall t | t in want ensures after[t] == want[t] {
        if t == e.token && e.id in s.consumers[t].leases {
          assert after[t].leases == s.consumers[t].leases - {e.id};
        } else {
          assert after[t] == s.consumers[t];
        }
        assert after[t].leases == want[t].leases;
      }
    }
  }

  /** Whatever the order, the loop leaves the consumers less exactly what it ended. */
  lemma EndAllRemoves<B>(s: State<B>, es: seq<Ending>, at: int)
    ensures EndAll(s, es, at).consumers == Without(s.consumers, LeaseKeys(es), TokenKeys(es))
    ensures EndAll(s, es, at).management == s.management
  {
    if es == [] {
      assert LeaseKeys(es) == {} && TokenKeys(es) == {};
      WithoutNothing(s.consumers);
    } else {
      var init, last := es[..|es| - 1], es[|es| - 1];
      EndAllRemoves(s, init, at);
      assert es == init + [last];
      SnocKeys(init, last);
      EndWithout(EndAll(s, init, at), s.consumers, LeaseKeys(init), TokenKeys(init), last, at);
      assert TokenKeys(init) + {} == TokenKeys(init) && LeaseKeys(init) + {} == LeaseKeys(init);
    }
  }
}
