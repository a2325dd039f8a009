/**
  The journal and the revision: every lease and consumer that comes or goes is journalled exactly
  once, the journal keeps the newest events of the whole history, and the revision is a version stamp.
*/
module DaemonJournal {
  import opened Common
  import opened DaemonState
  import opened DaemonSections
  import opened DaemonSectionLemmas

  function Count(history: seq<Event>, kind: EventKind): nat {
    if history == [] then 0
    else Count(history[..|history| - 1], kind) + (if history[|history| - 1].note.kind == kind then 1 else 0)
  }

  /** Live leases are those granted and not yet revoked or expired; live consumers, those started and not ended. */
  ghost predicate Balanced<B>(s: State<B>) {
    && Count(s.history, Granted) == Count(s.history, Revoked) + Count(s.history, Expired) + |LiveLeases(s.consumers)|
    && Count(s.history, ConsumerStarted) == Count(s.history, ConsumerEnded) + |s.consumers.Keys|
  }

  /** The journal is what was loaded until the first event, then the newest of everything; serials rise. */
  ghost predicate Chronicle<B>(loaded: seq<Event>, s: State<B>) {
    && s.events == (if s.history == [] then loaded else Newest(loaded + s.history))
    && (forall i :: 0 <= i < |s.history| ==> s.history[i].serial <= s.revision)
    && (forall i, j :: 0 <= i < j < |s.history| ==> s.history[i].serial < s.history[j].serial)
  }

  ghost predicate InOrder<B>(loaded: seq<Event>, s: State<B>) {
    Balanced(s) && Chronicle(loaded, s)
  }

  /** The revision never falls, and stands still only while consumers, leases and journal do. */
  ghost predicate Later<B>(s: State<B>, s': State<B>) {
    && s.revision <= s'.revision && s.history <= s'.history
    && (s.revision == s'.revision ==>
          s'.consumers == s.consumers && s'.history == s.history && s'.events == s.events)
  }

  lemma LaterOn<B>(s: State<B>, s1: State<B>, s2: State<B>)
    requires Later(s, s1) && Later(s1, s2)
    ensures Later(s, s2)
  {
  }

  lemma CountSnoc(history: seq<Event>, e: Event, kind: EventKind)
    ensures Count(history + [e], kind) == Count(history, kind) + (if e.note.kind == kind then 1 else 0)
  {
    assert (history + [e])[..|history|] == history;
  }

  lemma RecordCounts<B>(s: State<B>, note: Note, at: int)
    ensures forall kind :: Count(Record(s, note, at).history, kind) ==
                           Count(s.history, kind) + (if note.kind == kind then 1 else 0)
  {
    forall kind ensures Count(Record(s, note, at).history, kind) ==
                        Count(s.history, kind) + (if note.kind == kind then 1 else 0)
    {
      CountSnoc(s.history, Event(s.revision + 1, note, at), kind);
    }
  }

  /** Trimming as one goes keeps the same events as trimming at the end. */
  lemma NewestSnoc(events: seq<Event>, e: Event)
    ensures Newest(Newest(events) + [e]) == Newest(events + [e])
  {
  }

  lemma RecordChronicle<B>(loaded: seq<Event>, s: State<B>, note: Note, at: int)
    requires Chronicle(loaded, s)
    ensures Chronicle(loaded, Record(s, note, at))
  {
    var e := Event(s.revision + 1, note, at);
    JournalGoesOn(loaded, s.history, s.events, e);
    assert forall i :: 0 <= i < |s.history| ==> (s.history + [e])[i] == s.history[i];
  }

  lemma JournalGoesOn(loaded: seq<Event>, history: seq<Event>, events: seq<Event>, e: Event)
    requires events == if history == [] then loaded else Newest(loaded + history)
    ensures Newest(events + [e]) == Newest(loaded + (history + [e]))
  {
    assert loaded + (history + [e]) == (loaded + history) + [e];
    if history == [] {
      assert loaded + history == loaded;
    } else {
      NewestSnoc(loaded + history, e);
    }
  }

  /** A section may change sessions, and may take a revision without an event, as dropping a lease does. */
  lemma ChronicleOf<B>(loaded: seq<Event>, s: State<B>, s': State<B>)
    requires Chronicle(loaded, s) && s'.events == s.events && s'.history == s.history && s.revision <= s'.revision
    ensures Chronicle(loaded, s')
  {
  }

  // ---------------------------------------------------------------- clearing loops

  /** How an event of a kind moves the number of live leases. */
  function LeaseMove(kind: EventKind): int {
    if kind == Granted then 1 else if kind == Revoked || kind == Expired then -1 else 0
  }

  function ConsumerMove(kind: EventKind): int {
    if kind == ConsumerStarted then 1 else if kind == ConsumerEnded then -1 else 0
  }

  /** A change journalled by the event that fits it keeps the books. */
  lemma ChangeKeeps<B>(loaded: seq<Event>, s: State<B>, s1: State<B>, note: Note, at: int)
    requires InOrder(loaded, s) && s1.events == s.events && s1.history == s.history && s.revision <= s1.revision
    requires |LiveLeases(s1.consumers)| == |LiveLeases(s.consumers)| + LeaseMove(note.kind)
    requires |s1.consumers.Keys| == |s.consumers.Keys| + ConsumerMove(note.kind)
    ensures InOrder(loaded, Record(s1, note, at))
  {
    ChronicleOf(loaded, s, s1);
    RecordChronicle(loaded, s1, note, at);
    RecordCounts(s1, note, at);
  }

  lemma EndKeeps<B>(loaded: seq<Event>, s: State<B>, e: Ending, at: int)
    requires InOrder(loaded, s) && CanEnd(s, e)
    ensures InOrder(loaded, End(s, e, at))
  {
    match e {
      case EndLease(token, id, note) =>
        var s1 := DropLease(s, token, id);
        assert LiveLeases(s1.consumers) == LiveLeases(s.consumers) - {(token, id)};
        assert s1.consumers.Keys == s.consumers.Keys;
        ChangeKeeps(loaded, s, s1, note, at);
      case EndConsumer(token, note) =>
        var s1 := s.(consumers := s.consumers - {token});
        assert LiveLeases(s.consumers) == LiveLeases(s1.consumers);
        assert s1.consumers.Keys == s.consumers.Keys - {token};
        ChangeKeeps(loaded, s, s1, note, at);
    }
  }

  lemma {:induction false} EndAllKeeps<B>(loaded: seq<Event>, s: State<B>, es: seq<Ending>, at: int)
    requires InOrder(loaded, s) && Feasible(s, es, at)
    ensures InOrder(loaded, EndAll(s, es, at))
    decreases |es|
  {
    if es != [] {
      EndAllKeeps(loaded, s, es[..|es| - 1], at);
      EndKeeps(loaded, EndAll(s, es[..|es| - 1], at), es[|es| - 1], at);
    }
  }

  lemma {:induction false} EndAllLater<B>(s: State<B>, es: seq<Ending>, at: int)
    ensures Later(s, EndAll(s, es, at))
    decreases |es|
  {
    if es != [] {
      EndAllLater(s, es[..|es| - 1], at);
      LaterOn(s, EndAll(s, es[..|es| - 1], at), EndAll(s, es, at));
    }
  }

  /** The sweep journals a lease as expired, and never as revoked when it does not outlive its consumer. */
  lemma SweepRevokesNothing<B>(s: State<B>, es: seq<Ending>, now: int, at: int)
    requires SweepPlan(s, es, now, at)
    requires forall t, id :: Live(s.consumers, t, id) ==>
               s.consumers[t].leases[id].meta.expiresAt <= s.consumers[t].meta.expiresAt
    ensures forall e :: e in es ==> e.note.kind == if e.EndLease? then Expired else ConsumerEnded
  {
    forall e | e in es ensures e.note.kind == if e.EndLease? then Expired else ConsumerEnded {
      assert SweepNote(s.consumers, e, now);
      if e.EndLease? {
        assert (e.token, e.id) in LeaseKeys(es);
      }
    }
  }

  // ---------------------------------------------------------------- granting

  lemma NewConsumerLives<B>(cs: map<Token, Consumer<B>>, token: Token, c: Consumer<B>)
    requires token !in cs && c.leases == map[]
    ensures LiveLeases(cs[token := c]) == LiveLeases(cs)
  {
  }

  lemma NewLeaseLives<B>(cs: map<Token, Consumer<B>>, token: Token, id: string, lease: ActiveLease<B>)
    requires token in cs && id !in cs[token].leases
    ensures var c := cs[token];
            var cs' := cs[token := c.(leases := c.leases[id := lease])];
            |LiveLeases(cs')| == |LiveLeases(cs)| + 1 && cs'.Keys == cs.Keys
  {
    var c := cs[token];
    var cs' := cs[token := c.(leases := c.leases[id := lease])];
    assert cs'.Keys == cs.Keys + {token} == cs.Keys;
    assert LiveLeases(cs') == LiveLeases(cs) + {(token, id)};
  }

  lemma AdmitKept<B>(loaded: seq<Event>, s: State<B>, g: Ticket, now: int, at: int)
    requires InOrder(loaded, s) && Admit(s, g, now, at).Some?
    ensures InOrder(loaded, Admit(s, g, now, at).value)
  {
    if g.isNew {
      var c := Consumer(ConsumerMeta(g.id, g.title, now, g.expiresAt), map[]);
      var s1 := s.(consumers := s.consumers[g.token := c]);
      NewConsumerLives(s.consumers, g.token, c);
      assert s1.consumers.Keys == s.consumers.Keys + {g.token};
      ChangeKeeps(loaded, s, s1, ConsumerNote(ConsumerStarted, g.id, g.title, "Consumer capability created"), at);
    }
  }

  lemma InstallKept<B>(loaded: seq<Event>, s: State<B>, g: Ticket, lease: Lease, secret: B, at: int)
    requires InOrder(loaded, s) && g.token in s.consumers && lease.id !in s.consumers[g.token].leases
    ensures InOrder(loaded, Install(s, g, lease, secret, at))
  {
    var c, active := s.consumers[g.token], ActiveLease(lease, secret);
    var cs := s.consumers[g.token := c.(leases := c.leases[lease.id := active])];
    var s1 := s.(consumers := cs, revision := s.revision + 1);
    NewLeaseLives(s.consumers, g.token, lease.id, active);
    var note := LeaseNote(Granted, g.id, g.title, lease, "Lease approved");
    ChangeKeeps(loaded, s, s1, note, at);
    assert Install(s, g, lease, secret, at) == Record(s1, note, at);
  }
}
