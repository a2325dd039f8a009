/**
  What each critical section of the daemon does to the guarded state, as relations between the
  state before and after. The class Service is verified against these relations and the
  interleaved machine takes its steps from them.
*/
module DaemonSections {
  import opened Common
  import opened DaemonState

  // ---------------------------------------------------------------- ownership of buffers

  datatype Owner = LeaseOwner(token: Token, id: string) | SessionOwner(session: Token)

  function Holds<B>(s: State<B>, o: Owner): Option<B> {
    match o
    case LeaseOwner(t, id) => if Live(s.consumers, t, id) then Some(s.consumers[t].leases[id].secret) else None
    case SessionOwner(t) => if t in s.management then Some(s.management[t].secret) else None
  }

  /** No buffer has two owners. */
  ghost predicate Separate<B>(s: State<B>) {
    forall o1, o2 :: Holds(s, o1).Some? && Holds(s, o1) == Holds(s, o2) ==> o1 == o2
  }

  // ---------------------------------------------------------------- journal notes

  function LeaseNote(kind: EventKind, consumerId: string, consumerLabel: string, lease: Lease, detail: string): Note {
    Note(kind, lease.profile, consumerId, consumerLabel, lease.reason, detail)
  }

  function ConsumerNote(kind: EventKind, id: string, title: string, detail: string): Note {
    Note(kind, "", id, title, "", detail)
  }

  function OpenedNote(profile: string): Note {
    Note(ManagementStarted, profile, "", APP, HUMAN, "Five-minute management session approved")
  }

  function UpdatedNote(profile: string): Note {
    Note(ProfileUpdated, profile, "", APP, HUMAN, "Profile updated in an approved management session")
  }

  /** `e` revokes a lease, or ends a consumer, that is in `cs`, and is journalled with `detail`. */
  predicate RevocationNote<B>(cs: map<Token, Consumer<B>>, e: Ending, detail: string) {
    match e
    case EndLease(t, id, note) =>
      Live(cs, t, id) &&
      note == LeaseNote(Revoked, cs[t].meta.id, cs[t].meta.title, cs[t].leases[id].meta, detail)
    case EndConsumer(t, note) =>
      t in cs && note == ConsumerNote(ConsumerEnded, cs[t].meta.id, cs[t].meta.title, detail)
  }

  /** A swept lease is journalled as expired; one whose consumer alone has expired, as revoked. */
  predicate SweepNote<B>(cs: map<Token, Consumer<B>>, e: Ending, now: int) {
    if e.EndLease? && Live(cs, e.token, e.id) && !(now < cs[e.token].leases[e.id].meta.expiresAt) then
      e.note == LeaseNote(Expired, cs[e.token].meta.id, cs[e.token].meta.title,
                          cs[e.token].leases[e.id].meta, LEASE_EXPIRED)
    else
      RevocationNote(cs, e, CONSUMER_EXPIRED)
  }

  // ---------------------------------------------------------------- the loops, as plans

  function DueTokens<B>(cs: map<Token, Consumer<B>>, now: int): set<Token> {
    set t | t in cs && !(now < cs[t].meta.expiresAt)
  }

  function DueLeases<B>(cs: map<Token, Consumer<B>>, now: int): set<(Token, string)> {
    set t, id | t in cs && id in cs[t].leases &&
                (!(now < cs[t].leases[id].meta.expiresAt) || !(now < cs[t].meta.expiresAt)) :: (t, id)
  }

  /** What is left at `now`: the consumers not yet expired, each with its leases not yet expired. */
  function Unexpired<B>(cs: map<Token, Consumer<B>>, now: int): map<Token, Consumer<B>> {
    map t | t in cs && now < cs[t].meta.expiresAt ::
      cs[t].(leases := map id | id in cs[t].leases && now < cs[t].leases[id].meta.expiresAt :: cs[t].leases[id])
  }

  ghost predicate SweepPlan<B>(s: State<B>, es: seq<Ending>, now: int, at: int) {
    && Feasible(s, es, at)
    && LeaseKeys(es) == DueLeases(s.consumers, now)
    && TokenKeys(es) == DueTokens(s.consumers, now)
    && forall e :: e in es ==> SweepNote(s.consumers, e, now)
  }

  ghost predicate Swept<B>(s: State<B>, s': State<B>, now: int, at: int) {
    exists es :: SweepPlan(s, es, now, at) && s' == EndAll(s, es, at)
  }

  function LeasesOf<B>(cs: map<Token, Consumer<B>>, token: Token): set<(Token, string)> {
    set id | token in cs && id in cs[token].leases :: (token, id)
  }

  function ProfileLeases<B>(cs: map<Token, Consumer<B>>, profile: string): set<(Token, string)> {
    set t, id | t in cs && id in cs[t].leases && cs[t].leases[id].meta.profile == profile :: (t, id)
  }

  ghost predicate ConsumerPlan<B>(s: State<B>, es: seq<Ending>, token: Token, detail: string, at: int) {
    && Feasible(s, es, at)
    && LeaseKeys(es) == LeasesOf(s.consumers, token)
    && TokenKeys(es) == {token}
    && forall e :: e in es ==> RevocationNote(s.consumers, e, detail)
  }

  ghost predicate ConsumerCleared<B>(s: State<B>, s': State<B>, token: Token, detail: string, at: int) {
    exists es :: ConsumerPlan(s, es, token, detail, at) && s' == EndAll(s, es, at)
  }

  ghost predicate ProfilePlan<B>(s: State<B>, es: seq<Ending>, profile: string, detail: string, at: int) {
    && Feasible(s, es, at)
    && LeaseKeys(es) == ProfileLeases(s.consumers, profile)
    && TokenKeys(es) == {}
    && forall e :: e in es ==> RevocationNote(s.consumers, e, detail)
  }

  predicate ReplaceNote<B>(cs: map<Token, Consumer<B>>, e: Ending, g: Ticket) {
    e.EndLease? && Live(cs, e.token, e.id) &&
    e.note == LeaseNote(Revoked, g.id, g.title, cs[e.token].leases[e.id].meta, REPLACED)
  }

  /** The consumer's leases for the profile being granted, journalled under the names the grant looked up. */
  ghost predicate ReplacePlan<B>(s: State<B>, es: seq<Ending>, token: Token, g: Ticket, profile: string, at: int) {
    && Feasible(s, es, at)
    && LeaseKeys(es) == LeasesOf(s.consumers, token) * ProfileLeases(s.consumers, profile)
    && TokenKeys(es) == {}
    && forall e :: e in es ==> ReplaceNote(s.consumers, e, g)
  }

  /** Closing drops every consumer and lease, in any order, and journals nothing. */
  function Closed<B>(s: State<B>): State<B> {
    s.(consumers := map[], management := map[], revision := s.revision + |LiveLeases(s.consumers)|)
  }

  function LiveLeases<B>(cs: map<Token, Consumer<B>>): set<(Token, string)> {
    set t, id | t in cs && id in cs[t].leases :: (t, id)
  }

  function SessionsSwept<B>(s: State<B>, now: int): State<B> {
    s.(management := map t | t in s.management && now < s.management[t].expiresAt :: s.management[t])
  }

  function SessionsWithout<B>(s: State<B>, profile: string): State<B> {
    s.(management := map t | t in s.management && s.management[t].profile != profile :: s.management[t])
  }

  // ---------------------------------------------------------------- the critical sections

  /** What `Grant` knows of the consumer before it asks for approval. */
  datatype Ticket = Ticket(token: Token, id: string, title: string, expiresAt: int, isNew: bool)

  datatype Lookup = Found(id: string, title: string, expiresAt: int) | NotFound

  /** The first section of `Grant`, for a caller that presents a token. */
  ghost predicate GrantLooksUp<B>(s: State<B>, s': State<B>, token: Token, now: int, at: int, answer: Lookup) {
    Swept(s, s', now, at) &&
    answer == if token != "" && token in s'.consumers
              then var m := s'.consumers[token].meta; Found(m.id, m.title, m.expiresAt) else NotFound
  }

  /** The consumer the lease goes to, or nothing when the capability is no longer good. */
  function Admit<B>(s: State<B>, g: Ticket, now: int, at: int): Option<State<B>> {
    if g.isNew then
      if g.token in s.consumers then None
      else
        var c := Consumer(ConsumerMeta(g.id, g.title, now, g.expiresAt), map[]);
        Some(Record(s.(consumers := s.consumers[g.token := c]),
                    ConsumerNote(ConsumerStarted, g.id, g.title, "Consumer capability created"), at))
    else if g.token in s.consumers && s.consumers[g.token].meta.id == g.id then Some(s)
    else None
  }

  function Install<B>(s: State<B>, g: Ticket, lease: Lease, secret: B, at: int): State<B>
    requires g.token in s.consumers
  {
    var c := s.consumers[g.token];
    var s1 := s.(consumers := s.consumers[g.token := c.(leases := c.leases[lease.id := ActiveLease(lease, secret)])],
                 revision := s.revision + 1);
    Record(s1, LeaseNote(Granted, g.id, g.title, lease, "Lease approved"), at)
  }

  /** The last section of `Grant`. The lease was stamped `now` before the lock was taken. */
  ghost predicate GrantInstalls<B>(s: State<B>, s': State<B>, g: Ticket, lease: Lease, secret: B,
                                   now: int, at: int, granted: bool)
  {
    exists es :: SweepPlan(s, es, now, at) &&
                 InstallsAfterSweep(EndAll(s, es, at), s', g, lease, secret, now, at, granted)
  }

  ghost predicate InstallsAfterSweep<B>(s1: State<B>, s': State<B>, g: Ticket, lease: Lease, secret: B,
                                        now: int, at: int, granted: bool)
  {
    var admitted := Admit(s1, g, now, at);
    if admitted.None? then !granted && s' == s1
    else granted && exists es :: InstallsOver(admitted.value, es, s', g, lease, secret, at)
  }

  ghost predicate InstallsOver<B>(s1: State<B>, es: seq<Ending>, s': State<B>, g: Ticket, lease: Lease, secret: B,
                                  at: int)
  {
    ReplacePlan(s1, es, g.token, g, lease.profile, at) &&
    var s2 := EndAll(s1, es, at);
    g.token in s2.consumers && s' == Install(s2, g, lease, secret, at)
  }

  ghost predicate LeaseRevoked<B>(s: State<B>, s': State<B>, token: Token, id: string, detail: string, at: int) {
    Live(s.consumers, token, id) &&
    var c := s.consumers[token];
    s' == End(s, EndLease(token, id, LeaseNote(Revoked, c.meta.id, c.meta.title, c.leases[id].meta, detail)), at)
  }

  ghost predicate RevokesAfterSweep<B>(s1: State<B>, s': State<B>, token: Token, id: string,
                                       consumerDetail: string, leaseDetail: string, at: int, answer: bool)
  {
    if token !in s1.consumers then !answer && s' == s1
    else if id == "" then answer && ConsumerCleared(s1, s', token, consumerDetail, at)
    else if id in s1.consumers[token].leases then answer && LeaseRevoked(s1, s', token, id, leaseDetail, at)
    else !answer && s' == s1
  }

  ghost predicate Revokes<B>(s: State<B>, s': State<B>, token: Token, id: string, now: int, at: int, answer: bool) {
    exists es :: SweepPlan(s, es, now, at) &&
                 RevokesAfterSweep(EndAll(s, es, at), s', token, id, ENDED_BY_HOLDER, REVOKED_BY_HOLDER, at, answer)
  }

  /** The app names a consumer by its public identifier; the first one found is the one revoked. */
  ghost predicate AdminRevokes<B>(s: State<B>, s': State<B>, consumerId: string, id: string,
                                  now: int, at: int, answer: bool)
  {
    exists es :: SweepPlan(s, es, now, at) && AdminRevokesAfterSweep(EndAll(s, es, at), s', consumerId, id, at, answer)
  }

  ghost predicate AdminRevokesAfterSweep<B>(s1: State<B>, s': State<B>, consumerId: string, id: string,
                                            at: int, answer: bool)
  {
    if forall t :: t in s1.consumers ==> s1.consumers[t].meta.id != consumerId then !answer && s' == s1
    else exists t :: t in s1.consumers && s1.consumers[t].meta.id == consumerId &&
                     RevokesAfterSweep(s1, s', t, id, ENDED_BY_APP, REVOKED_BY_APP, at, answer)
  }

  /** The consumer as the API shows it: its leases without their secrets. */
  datatype PublicConsumer = PublicConsumer(meta: ConsumerMeta, leases: map<string, Lease>)

  function Public<B>(c: Consumer<B>): PublicConsumer {
    PublicConsumer(c.meta, map id | id in c.leases :: c.leases[id].meta)
  }

  ghost predicate Reports<B>(s: State<B>, s': State<B>, token: Token, now: int, at: int,
                             answer: Option<PublicConsumer>)
  {
    Swept(s, s', now, at) &&
    answer == if token != "" && token in s'.consumers then Some(Public(s'.consumers[token])) else None
  }

  /** The lookup of `Execute`: the lease whose secret and variable the child is given. */
  ghost predicate LooksUpLease<B>(s: State<B>, s': State<B>, token: Token, id: string, now: int, at: int,
                                  answer: Option<ActiveLease<B>>)
  {
    Swept(s, s', now, at) &&
    answer == if token != "" && Live(s'.consumers, token, id) && s'.consumers[token].leases[id].meta.kind != Ssh
              then Some(s'.consumers[token].leases[id]) else None
  }

  /** The section of `BeginProfileManagement`. */
  function SessionOpened<B>(s: State<B>, token: Token, session: Session<B>, now: int, at: int): State<B> {
    var s1 := SessionsSwept(s, now);
    Record(s1.(management := s1.management[token := session]),
           OpenedNote(session.profile), at)
  }

  predicate Authorises<B>(s: State<B>, name: string, token: Token, now: int) {
    var m := SessionsSwept(s, now).management;
    token in m && m[token].profile == name
  }

  /** `consumeManagementSession`: a good token is used up, a bad one changes nothing but the sweep. */
  function SessionConsumed<B>(s: State<B>, name: string, token: Token, now: int): State<B> {
    var s1 := SessionsSwept(s, now);
    if Authorises(s, name, token, now) then s1.(management := s1.management - {token}) else s1
  }

  function SessionEnded<B>(s: State<B>, name: string, token: Token): State<B> {
    if token in s.management && s.management[token].profile == name
    then s.(management := s.management - {token}) else s
  }

  /** The last section of `UpdateProfile`. */
  ghost predicate UpdateCommits<B>(s: State<B>, s': State<B>, name: string, at: int) {
    exists es :: ProfilePlan(s, es, name, PROFILE_CHANGED, at) &&
                 s' == Record(EndAll(s, es, at), UpdatedNote(name), at)
  }

  /** The first section of `deleteProfile`. */
  ghost predicate DeleteClears<B>(s: State<B>, s': State<B>, name: string, at: int) {
    exists es :: ProfilePlan(s, es, name, PROFILE_DELETED, at) && s' == SessionsWithout(EndAll(s, es, at), name)
  }
}
