/** Facts about the sections that hold whatever the buffers are. */
module DaemonSectionLemmas {
  import opened Common
  import opened DaemonState
  import opened DaemonSections

  lemma DropLeaseHolds<B>(s: State<B>, token: Token, id: string)
    ensures forall o :: Holds(DropLease(s, token, id), o) ==
                        (if o == LeaseOwner(token, id) then None else Holds(s, o))
  {
  }

  predicate Ended(es: seq<Ending>, o: Owner) {
    o.LeaseOwner? && ((o.token, o.id) in LeaseKeys(es) || o.token in TokenKeys(es))
  }

  lemma EndAllHolds<B>(s: State<B>, es: seq<Ending>, at: int)
    ensures forall o :: Holds(EndAll(s, es, at), o) == (if Ended(es, o) then None else Holds(s, o))
  {
    EndAllRemoves(s, es, at);
  }

  /** Owners that hold a buffer in `s'` hold the same one in `s`. */
  ghost predicate HoldsOnly<B>(s': State<B>, s: State<B>) {
    forall o :: Holds(s', o).None? || Holds(s', o) == Holds(s, o)
  }

  lemma FewerStaySeparate<B>(s: State<B>, s': State<B>)
    requires Separate(s) && HoldsOnly(s', s)
    ensures Separate(s')
  {
  }

  lemma EndConsumerHolds<B>(s: State<B>, token: Token, note: Note, at: int)
    ensures var s' := End(s, EndConsumer(token, note), at);
            forall o :: Holds(s', o) == (if o.LeaseOwner? && o.token == token then None else Holds(s, o))
  {
  }

  lemma RecordHolds<B>(s: State<B>, note: Note, at: int)
    ensures forall o :: Holds(Record(s, note, at), o) == Holds(s, o)
  {
  }

  // ---------------------------------------------------------------- how far a clearing loop has got

  /** `es` can be carried out from `s`; it ends exactly the leases `ls` and the consumers `ts`. */
  ghost predicate Progress<B>(s: State<B>, es: seq<Ending>, at: int, ls: set<(Token, string)>, ts: set<Token>) {
    Feasible(s, es, at) && LeaseKeys(es) == ls && TokenKeys(es) == ts
  }

  lemma ProgressStart<B>(s: State<B>, at: int)
    ensures Progress(s, [], at, {}, {}) && EndAll(s, [], at) == s
  {
  }

  /** The consumers and leases a loop has not ended are as they were. */
  lemma ProgressKeeps<B>(s: State<B>, es: seq<Ending>, at: int, ls: set<(Token, string)>, ts: set<Token>)
    requires Progress(s, es, at, ls, ts)
    ensures var cs := EndAll(s, es, at).consumers;
            cs.Keys == s.consumers.Keys - ts &&
            (forall t :: t in cs ==> cs[t].meta == s.consumers[t].meta) &&
            (forall t :: t in cs ==>
              cs[t].leases == map id | id in s.consumers[t].leases && (t, id) !in ls :: s.consumers[t].leases[id])
    ensures EndAll(s, es, at).management == s.management
  {
    EndAllRemoves(s, es, at);
  }

  lemma ProgressLease<B>(s: State<B>, es: seq<Ending>, at: int, ls: set<(Token, string)>, ts: set<Token>, e: Ending)
    requires Progress(s, es, at, ls, ts) && e.EndLease?
    requires Live(s.consumers, e.token, e.id) && (e.token, e.id) !in ls && e.token !in ts
    requires e.note.kind in {Revoked, Expired}
    ensures Progress(s, es + [e], at, ls + {(e.token, e.id)}, ts)
    ensures EndAll(s, es + [e], at) == End(EndAll(s, es, at), e, at)
  {
    ProgressKeeps(s, es, at, ls, ts);
    EndAllSnoc(s, es, e, at);
    SnocKeys(es, e);
  }

  lemma ProgressConsumer<B>(s: State<B>, es: seq<Ending>, at: int, ls: set<(Token, string)>, ts: set<Token>, e: Ending)
    requires Progress(s, es, at, ls, ts) && e.EndConsumer?
    requires e.token in s.consumers && e.token !in ts && e.note.kind == ConsumerEnded
    requires forall id :: id in s.consumers[e.token].leases ==> (e.token, id) in ls
    ensures Progress(s, es + [e], at, ls, ts + {e.token})
    ensures EndAll(s, es + [e], at) == End(EndAll(s, es, at), e, at)
  {
    ProgressKeeps(s, es, at, ls, ts);
    EndAllSnoc(s, es, e, at);
    SnocKeys(es, e);
  }

  lemma ProgressPlus<B>(s: State<B>, es: seq<Ending>, fs: seq<Ending>, at: int,
                        ls: set<(Token, string)>, ts: set<Token>, ms: set<(Token, string)>, us: set<Token>)
    requires Progress(s, es, at, ls, ts) && Progress(EndAll(s, es, at), fs, at, ms, us)
    ensures Progress(s, es + fs, at, ls + ms, ts + us)
    ensures EndAll(s, es + fs, at) == EndAll(EndAll(s, es, at), fs, at)
  {
    EndAllPlus(s, es, fs, at);
    forall x ensures x in es + fs <==> x in es || x in fs {}
  }

  // ---------------------------------------------------------------- the loops over one consumer's leases

  /** Which of a consumer's leases a loop ends. */
  datatype Which = Every | ExpiredBy(now: int) | OfProfile(profile: string)

  predicate Matches(which: Which, lease: Lease) {
    match which
    case Every => true
    case ExpiredBy(now) => !(now < lease.expiresAt)
    case OfProfile(profile) => lease.profile == profile
  }

  /** Under what kind, name and reason a loop journals the leases it ends. */
  datatype Author = Author(kind: EventKind, consumerId: string, consumerLabel: string, detail: string)

  function Ids(token: Token, ids: set<string>): set<(Token, string)> {
    set id | id in ids :: (token, id)
  }

  function Chosen<B>(cs: map<Token, Consumer<B>>, token: Token, which: Which): set<(Token, string)>
    requires token in cs
  {
    set id | id in cs[token].leases && Matches(which, cs[token].leases[id].meta) :: (token, id)
  }

  predicate NoteBy<B>(cs: map<Token, Consumer<B>>, e: Ending, token: Token, which: Which, who: Author) {
    e.EndLease? && e.token == token && Live(cs, token, e.id) && Matches(which, cs[token].leases[e.id].meta) &&
    e.note == LeaseNote(who.kind, who.consumerId, who.consumerLabel, cs[token].leases[e.id].meta, who.detail)
  }

  /** The loop has dealt with all of the consumer's leases but `pending`. */
  ghost predicate LoopAt<B>(s: State<B>, es: seq<Ending>, at: int, token: Token, which: Which, who: Author,
                            pending: set<string>)
  {
    && token in s.consumers && pending <= s.consumers[token].leases.Keys
    && Progress(s, es, at, Chosen(s.consumers, token, which) - Ids(token, pending), {})
    && forall e :: e in es ==> NoteBy(s.consumers, e, token, which, who)
  }

  lemma LoopStart<B>(s: State<B>, at: int, token: Token, which: Which, who: Author)
    requires token in s.consumers
    ensures LoopAt(s, [], at, token, which, who, s.consumers[token].leases.Keys)
  {
    assert Chosen(s.consumers, token, which) - Ids(token, s.consumers[token].leases.Keys) == {};
    ProgressStart(s, at);
  }

  lemma ChosenTurn<B>(cs: map<Token, Consumer<B>>, token: Token, which: Which, pending: set<string>, id: string)
    requires token in cs && id in pending && id in cs[token].leases && Matches(which, cs[token].leases[id].meta)
    ensures (token, id) !in Chosen(cs, token, which) - Ids(token, pending)
    ensures Chosen(cs, token, which) - Ids(token, pending - {id}) ==
            Chosen(cs, token, which) - Ids(token, pending) + {(token, id)}
  {
  }

  lemma LoopTurn<B>(s: State<B>, es: seq<Ending>, at: int, token: Token, which: Which, who: Author,
                    pending: set<string>, id: string)
    requires LoopAt(s, es, at, token, which, who, pending) && id in pending
    requires Matches(which, s.consumers[token].leases[id].meta) && who.kind in {Revoked, Expired}
    ensures Live(EndAll(s, es, at).consumers, token, id)
    ensures var lease := s.consumers[token].leases[id].meta;
            var e := EndLease(token, id, LeaseNote(who.kind, who.consumerId, who.consumerLabel, lease, who.detail));
            LoopAt(s, es + [e], at, token, which, who, pending - {id}) &&
            EndAll(s, es + [e], at) == End(EndAll(s, es, at), e, at)
  {
    var lease := s.consumers[token].leases[id].meta;
    var e := EndLease(token, id, LeaseNote(who.kind, who.consumerId, who.consumerLabel, lease, who.detail));
    var done := Chosen(s.consumers, token, which) - Ids(token, pending);
    ChosenTurn(s.consumers, token, which, pending, id);
    ProgressKeeps(s, es, at, done, {});
    ProgressLease(s, es, at, done, {}, e);
    assert NoteBy(s.consumers, e, token, which, who);
  }

  lemma LoopSkip<B>(s: State<B>, es: seq<Ending>, at: int, token: Token, which: Which, who: Author,
                    pending: set<string>, id: string)
    requires LoopAt(s, es, at, token, which, who, pending) && id in pending
    requires !Matches(which, s.consumers[token].leases[id].meta)
    ensures LoopAt(s, es, at, token, which, who, pending - {id})
  {
    assert Chosen(s.consumers, token, which) - Ids(token, pending - {id}) ==
           Chosen(s.consumers, token, which) - Ids(token, pending);
  }

  lemma LoopDone<B>(s: State<B>, es: seq<Ending>, at: int, token: Token, which: Which, who: Author)
    requires LoopAt(s, es, at, token, which, who, {})
    ensures Progress(s, es, at, Chosen(s.consumers, token, which), {})
  {
    assert Chosen(s.consumers, token, which) - Ids(token, {}) == Chosen(s.consumers, token, which);
  }

  lemma ConsumerPlanned<B>(s: State<B>, es: seq<Ending>, token: Token, detail: string, at: int)
    requires token in s.consumers
    requires Progress(s, es, at, Chosen(s.consumers, token, Every), {})
    requires var c := s.consumers[token].meta;
             forall e :: e in es ==> NoteBy(s.consumers, e, token, Every, Author(Revoked, c.id, c.title, detail))
    ensures token in EndAll(s, es, at).consumers && EndAll(s, es, at).consumers[token].leases == map[]
    ensures var c := s.consumers[token].meta;
            var e := EndConsumer(token, ConsumerNote(ConsumerEnded, c.id, c.title, detail));
            ConsumerPlan(s, es + [e], token, detail, at) && EndAll(s, es + [e], at) == End(EndAll(s, es, at), e, at)
  {
    var c := s.consumers[token].meta;
    var e := EndConsumer(token, ConsumerNote(ConsumerEnded, c.id, c.title, detail));
    ProgressKeeps(s, es, at, Chosen(s.consumers, token, Every), {});
    ProgressConsumer(s, es, at, Chosen(s.consumers, token, Every), {}, e);
    assert Chosen(s.consumers, token, Every) == LeasesOf(s.consumers, token);
  }

  // ---------------------------------------------------------------- the sweep over all consumers

  function DueOutside<B>(cs: map<Token, Consumer<B>>, now: int, pending: set<Token>): set<(Token, string)> {
    set x | x in DueLeases(cs, now) && x.0 !in pending
  }

  /** The sweep has dealt with every consumer but `pending`. */
  ghost predicate SweepAt<B>(s: State<B>, es: seq<Ending>, at: int, now: int, pending: set<Token>) {
    && pending <= s.consumers.Keys
    && Progress(s, es, at, DueOutside(s.consumers, now, pending), DueTokens(s.consumers, now) - pending)
    && forall e :: e in es ==> SweepNote(s.consumers, e, now)
  }

  lemma SweepStart<B>(s: State<B>, at: int, now: int)
    ensures SweepAt(s, [], at, now, s.consumers.Keys)
  {
    assert DueOutside(s.consumers, now, s.consumers.Keys) == {};
    assert DueTokens(s.consumers, now) - s.consumers.Keys == {};
    ProgressStart(s, at);
  }

  lemma SweepKeeps<B>(s: State<B>, es: seq<Ending>, at: int, now: int, pending: set<Token>, token: Token)
    requires SweepAt(s, es, at, now, pending) && token in pending
    ensures var cs := EndAll(s, es, at).consumers; token in cs && cs[token] == s.consumers[token]
  {
    ProgressKeeps(s, es, at, DueOutside(s.consumers, now, pending), DueTokens(s.consumers, now) - pending);
    var cs := EndAll(s, es, at).consumers;
    assert cs[token].leases == s.consumers[token].leases;
  }

  /** The consumer's expired leases are gone too. */
  ghost predicate SweptLeases<B>(s: State<B>, es: seq<Ending>, at: int, now: int, pending: set<Token>, token: Token) {
    && pending <= s.consumers.Keys && token in pending
    && Progress(s, es, at, DueOutside(s.consumers, now, pending) + Chosen(s.consumers, token, ExpiredBy(now)),
                DueTokens(s.consumers, now) - pending)
    && forall e :: e in es ==> SweepNote(s.consumers, e, now)
  }

  lemma SweepLeases<B>(s: State<B>, es: seq<Ending>, fs: seq<Ending>, at: int, now: int, pending: set<Token>,
                       token: Token)
    requires SweepAt(s, es, at, now, pending) && token in pending
    requires var s1 := EndAll(s, es, at);
             token in s1.consumers && s1.consumers[token] == s.consumers[token] &&
             Progress(s1, fs, at, Chosen(s1.consumers, token, ExpiredBy(now)), {}) &&
             var c := s.consumers[token].meta;
             forall e :: e in fs ==>
               NoteBy(s1.consumers, e, token, ExpiredBy(now), Author(Expired, c.id, c.title, LEASE_EXPIRED))
    ensures SweptLeases(s, es + fs, at, now, pending, token)
    ensures EndAll(s, es + fs, at) == EndAll(EndAll(s, es, at), fs, at)
    ensures token in EndAll(s, es + fs, at).consumers
  {
    var s1 := EndAll(s, es, at);
    assert Chosen(s1.consumers, token, ExpiredBy(now)) == Chosen(s.consumers, token, ExpiredBy(now));
    var ls, ts := DueOutside(s.consumers, now, pending), DueTokens(s.consumers, now) - pending;
    ProgressPlus(s, es, fs, at, ls, ts, Chosen(s1.consumers, token, ExpiredBy(now)), {});
    ProgressKeeps(s, es + fs, at, ls + Chosen(s.consumers, token, ExpiredBy(now)), ts);
    assert ts + {} == ts;
  }

  lemma SweepOn<B>(s: State<B>, es: seq<Ending>, at: int, now: int, pending: set<Token>, token: Token)
    requires SweptLeases(s, es, at, now, pending, token) && now < s.consumers[token].meta.expiresAt
    ensures SweepAt(s, es, at, now, pending - {token})
  {
    assert DueOutside(s.consumers, now, pending - {token}) ==
           DueOutside(s.consumers, now, pending) + Chosen(s.consumers, token, ExpiredBy(now));
    assert DueTokens(s.consumers, now) - (pending - {token}) == DueTokens(s.consumers, now) - pending;
  }

  lemma DueTurn<B>(cs: map<Token, Consumer<B>>, ds: map<Token, Consumer<B>>, now: int, pending: set<Token>,
                   token: Token)
    requires token in cs && token in pending && token in ds && !(now < cs[token].meta.expiresAt)
    requires forall id :: id in ds[token].leases <==>
               id in cs[token].leases && now < cs[token].leases[id].meta.expiresAt
    ensures DueOutside(cs, now, pending) + Chosen(cs, token, ExpiredBy(now)) + LeasesOf(ds, token) ==
            DueOutside(cs, now, pending - {token})
  {
  }

  lemma SweepConsumer<B>(s: State<B>, es: seq<Ending>, fs: seq<Ending>, at: int, now: int, pending: set<Token>,
                         token: Token)
    requires SweptLeases(s, es, at, now, pending, token) && !(now < s.consumers[token].meta.expiresAt)
    requires ConsumerPlan(EndAll(s, es, at), fs, token, CONSUMER_EXPIRED, at)
    ensures SweepAt(s, es + fs, at, now, pending - {token})
    ensures EndAll(s, es + fs, at) == EndAll(EndAll(s, es, at), fs, at)
  {
    var ls := DueOutside(s.consumers, now, pending) + Chosen(s.consumers, token, ExpiredBy(now));
    var ts := DueTokens(s.consumers, now) - pending;
    var s1 := EndAll(s, es, at);
    ProgressPlus(s, es, fs, at, ls, ts, LeasesOf(s1.consumers, token), {token});
    assert ts + {token} == DueTokens(s.consumers, now) - (pending - {token});
    ConsumerLeft(s, es, at, now, pending, token);
    DueTurn(s.consumers, s1.consumers, now, pending, token);
    forall e | e in fs ensures SweepNote(s.consumers, e, now) {
      DueNote(s, es, fs, at, now, pending, token, e);
    }
  }

  /** What the sweep of its leases has left of a consumer. */
  lemma ConsumerLeft<B>(s: State<B>, es: seq<Ending>, at: int, now: int, pending: set<Token>, token: Token)
    requires SweptLeases(s, es, at, now, pending, token)
    ensures var c, cs := s.consumers[token], EndAll(s, es, at).consumers;
            && token in cs && cs[token].meta == c.meta
            && (forall id :: id in cs[token].leases <==> id in c.leases && now < c.leases[id].meta.expiresAt)
            && (forall id :: id in cs[token].leases ==> cs[token].leases[id] == c.leases[id])
  {
    ProgressKeeps(s, es, at, DueOutside(s.consumers, now, pending) + Chosen(s.consumers, token, ExpiredBy(now)),
                  DueTokens(s.consumers, now) - pending);
  }

  lemma DueNote<B>(s: State<B>, es: seq<Ending>, fs: seq<Ending>, at: int, now: int, pending: set<Token>, token: Token,
                   e: Ending)
    requires SweptLeases(s, es, at, now, pending, token) && !(now < s.consumers[token].meta.expiresAt)
    requires ConsumerPlan(EndAll(s, es, at), fs, token, CONSUMER_EXPIRED, at) && e in fs
    ensures SweepNote(s.consumers, e, now)
  {
    ConsumerLeft(s, es, at, now, pending, token);
    assert RevocationNote(EndAll(s, es, at).consumers, e, CONSUMER_EXPIRED);
    if e.EndLease? {
      assert (e.token, e.id) in LeaseKeys(fs);
    } else {
      assert e.token in TokenKeys(fs);
    }
  }

  lemma SweepDone<B>(s: State<B>, es: seq<Ending>, at: int, now: int)
    requires SweepAt(s, es, at, now, {})
    ensures SweepPlan(s, es, now, at)
  {
    assert DueOutside(s.consumers, now, {}) == DueLeases(s.consumers, now);
    assert DueTokens(s.consumers, now) - {} == DueTokens(s.consumers, now);
  }

  // ---------------------------------------------------------------- clearing one profile everywhere

  function ProfileLeasesOutside<B>(cs: map<Token, Consumer<B>>, profile: string,
                                   pending: set<Token>): set<(Token, string)>
  {
    set x | x in ProfileLeases(cs, profile) && x.0 !in pending
  }

  ghost predicate ProfileAt<B>(s: State<B>, es: seq<Ending>, at: int, profile: string, detail: string,
                               pending: set<Token>)
  {
    && pending <= s.consumers.Keys
    && Progress(s, es, at, ProfileLeasesOutside(s.consumers, profile, pending), {})
    && forall e :: e in es ==> RevocationNote(s.consumers, e, detail)
  }

  lemma ProfileStart<B>(s: State<B>, at: int, profile: string, detail: string)
    ensures ProfileAt(s, [], at, profile, detail, s.consumers.Keys)
  {
    assert ProfileLeasesOutside(s.consumers, profile, s.consumers.Keys) == {};
    ProgressStart(s, at);
  }

  lemma ProfileKeeps<B>(s: State<B>, es: seq<Ending>, at: int, profile: string, detail: string, pending: set<Token>,
                        token: Token)
    requires ProfileAt(s, es, at, profile, detail, pending) && token in pending
    ensures var cs := EndAll(s, es, at).consumers; token in cs && cs[token] == s.consumers[token]
  {
    ProgressKeeps(s, es, at, ProfileLeasesOutside(s.consumers, profile, pending), {});
    var cs := EndAll(s, es, at).consumers;
    assert cs[token].leases == s.consumers[token].leases;
  }

  lemma ProfileTurn<B>(s: State<B>, es: seq<Ending>, fs: seq<Ending>, at: int, profile: string, detail: string,
                       pending: set<Token>, token: Token)
    requires ProfileAt(s, es, at, profile, detail, pending) && token in pending
    requires var s1 := EndAll(s, es, at);
             token in s1.consumers && s1.consumers[token] == s.consumers[token] &&
             Progress(s1, fs, at, Chosen(s1.consumers, token, OfProfile(profile)), {}) &&
             var c := s.consumers[token].meta;
             forall e :: e in fs ==>
               NoteBy(s1.consumers, e, token, OfProfile(profile), Author(Revoked, c.id, c.title, detail))
    ensures ProfileAt(s, es + fs, at, profile, detail, pending - {token})
    ensures EndAll(s, es + fs, at) == EndAll(EndAll(s, es, at), fs, at)
  {
    var ls := ProfileLeasesOutside(s.consumers, profile, pending);
    var ms := Chosen(s.consumers, token, OfProfile(profile));
    assert Chosen(EndAll(s, es, at).consumers, token, OfProfile(profile)) == ms;
    ProgressPlus(s, es, fs, at, ls, {}, ms, {});
    assert ls + ms == ProfileLeasesOutside(s.consumers, profile, pending - {token});
  }

  lemma ProfileDone<B>(s: State<B>, es: seq<Ending>, at: int, profile: string, detail: string)
    requires ProfileAt(s, es, at, profile, detail, {})
    ensures ProfilePlan(s, es, profile, detail, at)
  {
    assert ProfileLeasesOutside(s.consumers, profile, {}) == ProfileLeases(s.consumers, profile);
  }

  lemma ReplacePlanned<B>(s: State<B>, es: seq<Ending>, g: Ticket, profile: string, at: int)
    requires g.token in s.consumers
    requires Progress(s, es, at, Chosen(s.consumers, g.token, OfProfile(profile)), {})
    requires forall e :: e in es ==>
               NoteBy(s.consumers, e, g.token, OfProfile(profile), Author(Revoked, g.id, g.title, REPLACED))
    ensures ReplacePlan(s, es, g.token, g, profile, at)
    ensures g.token in EndAll(s, es, at).consumers
  {
    ProgressKeeps(s, es, at, Chosen(s.consumers, g.token, OfProfile(profile)), {});
    assert Chosen(s.consumers, g.token, OfProfile(profile)) ==
           LeasesOf(s.consumers, g.token) * ProfileLeases(s.consumers, profile);
  }

  // ---------------------------------------------------------------- management sessions

  datatype WhichSession = EverySession | StaleSession(now: int) | SessionFor(profile: string)

  predicate MatchesSession<B>(which: WhichSession, session: Session<B>) {
    match which
    case EverySession => true
    case StaleSession(now) => !(now < session.expiresAt)
    case SessionFor(profile) => session.profile == profile
  }

  function SessionsLeft<B>(s: State<B>, which: WhichSession): State<B> {
    s.(management := map t | t in s.management && !MatchesSession(which, s.management[t]) :: s.management[t])
  }

  /** The sessions the loop has kept, with `pending` not looked at yet. */
  ghost predicate SessionsAt<B>(m: map<Token, Session<B>>, left: map<Token, Session<B>>, which: WhichSession,
                                pending: set<Token>)
  {
    && pending <= m.Keys && left.Keys <= m.Keys
    && (forall t :: t in m ==> (t in left <==> t in pending || !MatchesSession(which, m[t])))
    && (forall t :: t in m && t in left ==> left[t] == m[t])
  }

  lemma SessionsDone<B>(m: map<Token, Session<B>>, left: map<Token, Session<B>>, which: WhichSession)
    requires SessionsAt(m, left, which, {})
    ensures left == map t | t in m && !MatchesSession(which, m[t]) :: m[t]
  {
  }

  // ---------------------------------------------------------------- the sections as a whole

  lemma SweptHolds<B>(s: State<B>, s': State<B>, now: int, at: int)
    requires Swept(s, s', now, at)
    ensures HoldsOnly(s', s) && s'.consumers == Unexpired(s.consumers, now) && s'.management == s.management
  {
    var es :| SweepPlan(s, es, now, at) && s' == EndAll(s, es, at);
    SweepLeaves(s, es, now, at);
    EndAllHolds(s, es, at);
  }

  /** Whatever the order of the sweep, it leaves exactly what has not expired. */
  lemma SweepLeaves<B>(s: State<B>, es: seq<Ending>, now: int, at: int)
    requires SweepPlan(s, es, now, at)
    ensures EndAll(s, es, at).consumers == Unexpired(s.consumers, now)
    ensures EndAll(s, es, at).management == s.management
  {
    EndAllRemoves(s, es, at);
    var left := Unexpired(s.consumers, now);
    var without := Without(s.consumers, LeaseKeys(es), TokenKeys(es));
    assert without.Keys == left.Keys;
    forall t | t in left ensures without[t] == left[t] {
      assert without[t].leases == left[t].leases;
    }
  }

  // ---------------------------------------------------------------- closing

  function DropSet<B>(s: State<B>, token: Token, ids: set<string>): State<B>
    requires token in s.consumers
  {
    var c := s.consumers[token];
    s.(consumers := s.consumers[token := c.(leases := c.leases - ids)], revision := s.revision + |ids|)
  }

  lemma DropSetStart<B>(s: State<B>, token: Token)
    requires token in s.consumers
    ensures DropSet(s, token, {}) == s
  {
    assert s.consumers[token].leases - {} == s.consumers[token].leases;
  }

  lemma DropSetTurn<B>(s: State<B>, token: Token, ids: set<string>, id: string)
    requires token in s.consumers && id in s.consumers[token].leases && id !in ids
    ensures DropLease(DropSet(s, token, ids), token, id) == DropSet(s, token, ids + {id})
  {
    var leases := s.consumers[token].leases;
    assert leases - ids - {id} == leases - (ids + {id});
  }

  /** The loop has dropped all of the consumer's leases but `pending`. */
  ghost predicate DropAt<B>(s: State<B>, now: State<B>, token: Token, pending: set<string>) {
    && token in s.consumers && pending <= s.consumers[token].leases.Keys
    && now == DropSet(s, token, s.consumers[token].leases.Keys - pending)
  }

  lemma DropAtStart<B>(s: State<B>, token: Token)
    requires token in s.consumers
    ensures DropAt(s, s, token, s.consumers[token].leases.Keys)
  {
    var ids := s.consumers[token].leases.Keys;
    assert ids - ids == {};
    DropSetStart(s, token);
  }

  lemma DropAtTurn<B>(s: State<B>, now: State<B>, token: Token, pending: set<string>, id: string)
    requires DropAt(s, now, token, pending) && id in pending
    ensures DropAt(s, DropLease(now, token, id), token, pending - {id})
  {
    var ids := s.consumers[token].leases.Keys;
    DropSetTurn(s, token, ids - pending, id);
    assert ids - (pending - {id}) == (ids - pending) + {id};
  }

  lemma DropAtDone<B>(s: State<B>, now: State<B>, token: Token)
    requires DropAt(s, now, token, {})
    ensures now == DropSet(s, token, s.consumers[token].leases.Keys)
  {
    var ids := s.consumers[token].leases.Keys;
    assert ids - {} == ids;
  }

  lemma IdsSize(token: Token, ids: set<string>)
    ensures |Ids(token, ids)| == |ids|
  {
    if ids != {} {
      var id :| id in ids;
      IdsSize(token, ids - {id});
      assert Ids(token, ids) == Ids(token, ids - {id}) + {(token, id)};
    }
  }

  /** Taking out a consumer whose leases were dropped: the count of live leases falls by its leases. */
  lemma ConsumerDropped<B>(ds: map<Token, Consumer<B>>, cs: map<Token, Consumer<B>>, token: Token)
    requires token in cs && token in ds && ds[token].leases.Keys == {}
    requires ds == cs[token := ds[token]]
    ensures |LiveLeases(cs)| == |LiveLeases(ds - {token})| + |cs[token].leases.Keys|
  {
    IdsSize(token, cs[token].leases.Keys);
    LivesApart(cs, token);
    assert ds - {token} == cs - {token};
  }

  lemma LivesApart<B>(cs: map<Token, Consumer<B>>, token: Token)
    requires token in cs
    ensures LiveLeases(cs) == LiveLeases(cs - {token}) + Ids(token, cs[token].leases.Keys)
    ensures LiveLeases(cs - {token}) !! Ids(token, cs[token].leases.Keys)
  {
    var ids := cs[token].leases.Keys;
    forall t, id ensures (t, id) in LiveLeases(cs) <==> (t, id) in LiveLeases(cs - {token}) + Ids(token, ids) {}
  }

  // ---------------------------------------------------------------- granting

  lemma AdmitNew<B>(s: State<B>, g: Ticket, now: int, at: int)
    requires g.isNew && g.token !in s.consumers
    ensures Admit(s, g, now, at).Some?
    ensures forall o :: Holds(Admit(s, g, now, at).value, o) == Holds(s, o)
  {
  }

  lemma InstallHolds<B>(s: State<B>, g: Ticket, lease: Lease, secret: B, at: int)
    requires g.token in s.consumers
    ensures forall o :: Holds(Install(s, g, lease, secret, at), o) ==
                        if o == LeaseOwner(g.token, lease.id) then Some(secret) else Holds(s, o)
  {
  }

  lemma OpenHolds<B>(s: State<B>, token: Token, session: Session<B>, now: int, at: int)
    ensures forall o :: Holds(SessionOpened(s, token, session, now, at), o) ==
                        if o == SessionOwner(token) then Some(session.secret) else Holds(SessionsSwept(s, now), o)
  {
  }
}
