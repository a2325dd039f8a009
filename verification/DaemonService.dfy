/**
  The daemon's `Service`: the fields guarded by `mu`, and one method for each critical section.
  Secrets are real byte arrays that the methods zero in place; the methods are verified against
  the relations of DaemonSections, and each says which arrays it zeroes and which it leaves alone.
*/
module DaemonService {
  import opened Common
  import opened DaemonState
  import opened DaemonSections
  import opened DaemonSectionLemmas

  type Buffer = array<Byte>

  /** Overwrites a secret in place. */
  method ClearBytes(contents: Buffer)
    modifies contents
    ensures AllZero(contents[..])
  {
    for index := 0 to contents.Length
      invariant forall i :: 0 <= i < index ==> contents[i] == 0
    {
      contents[index] := 0;
    }
  }

  method CopyOf(contents: Buffer) returns (copy: Buffer)
    ensures fresh(copy) && copy[..] == contents[..]
  {
    copy := new Byte[contents.Length](i requires 0 <= i < contents.Length reads contents => contents[i]);
  }

  class Service {
    var consumers: map<Token, Consumer<Buffer>>
    var management: map<Token, Session<Buffer>>
    var events: seq<Event>
    var revision: int
    ghost var history: seq<Event>

    ghost function St(): State<Buffer>
      reads this
    {
      State(consumers, management, events, history, revision)
    }

    /** No two leases or sessions share a secret buffer. */
    ghost predicate Valid()
      reads this
    {
      Separate(St())
    }

    ghost function LeaseBuffers(): set<Buffer>
      reads this
    {
      set t, id | t in consumers && id in consumers[t].leases :: consumers[t].leases[id].secret
    }

    ghost function SessionBuffers(): set<Buffer>
      reads this
    {
      set t | t in management :: management[t].secret
    }

    /** The bytes of every buffer that is owned now. */
    ghost function Contents(): map<Buffer, Bytes>
      reads this, LeaseBuffers(), SessionBuffers()
    {
      map b | b in LeaseBuffers() + SessionBuffers() :: b[..]
    }

    /**
      Since state `s`, when the buffers held `was`, every owner either still holds its buffer, with
      the bytes untouched, or holds nothing any more and the buffer it held is all zero.
    */
    ghost predicate Follows(s: State<Buffer>, was: map<Buffer, Bytes>)
      reads *
    {
      forall o: Owner :: Holds(s, o).Some? ==>
        var b := Holds(s, o).value;
        b in was && if Holds(St(), o).None? then AllZero(b[..]) else Holds(St(), o) == Some(b) && b[..] == was[b]
    }

    constructor (loaded: seq<Event>)
      ensures Valid()
      ensures St() == State(map[], map[], loaded, [], 1)
    {
      consumers, management, events, revision := map[], map[], loaded, 1;
      history := [];
    }

    method RecordLocked(note: Note, at: int)
      modifies this`events, this`revision, this`history
      ensures St() == Record(old(St()), note, at)
    {
      revision := revision + 1;
      var event := Event(revision, note, at);
      events := events + [event];
      if |events| > JOURNAL_LIMIT {
        events := events[|events| - JOURNAL_LIMIT..];
      }
      history := history + [event];
    }

    /** Zeroes a lease's secret and forgets the lease, in a section that began in `before`. */
    method ClearLeaseLocked(token: Token, id: string, ghost before: State<Buffer>, ghost was: map<Buffer, Bytes>)
      requires Valid()
      requires Separate(before) && HoldsOnly(St(), before) && Follows(before, was)
      modifies this`consumers, this`revision, LeaseBuffers()
      ensures Valid() && LeaseBuffers() <= old(LeaseBuffers())
      ensures St() == DropLease(old(St()), token, id)
      ensures HoldsOnly(St(), before) && Follows(before, was)
    {
      if token !in consumers || id !in consumers[token].leases {
        return;
      }
      ghost var s := St();
      assert Holds(s, LeaseOwner(token, id)).Some?;
      ClearBytes(consumers[token].leases[id].secret);
      var c := consumers[token];
      consumers := consumers[token := c.(leases := c.leases - {id})];
      revision := revision + 1;
      DropLeaseHolds(s, token, id);
      assert LeaseBuffers() <= old(LeaseBuffers());
      forall o: Owner | Holds(before, o).Some? && Holds(s, o).None?
        ensures AllZero(Holds(before, o).value[..])
      {
        assert Holds(before, LeaseOwner(token, id)) == Some(c.leases[id].secret);
      }
    }

    /** One turn of a clearing loop: the lease is cleared and its end journalled. */
    method EndLeaseLocked(token: Token, id: string, note: Note, at: int,
                          ghost before: State<Buffer>, ghost was: map<Buffer, Bytes>)
      requires Valid() && Live(consumers, token, id)
      requires Separate(before) && HoldsOnly(St(), before) && Follows(before, was)
      modifies this`consumers, this`revision, this`events, this`history, LeaseBuffers()
      ensures Valid() && LeaseBuffers() <= old(LeaseBuffers())
      ensures St() == End(old(St()), EndLease(token, id, note), at)
      ensures HoldsOnly(St(), before) && Follows(before, was)
    {
      ClearLeaseLocked(token, id, before, was);
      RecordHolds(St(), note, at);
      RecordLocked(note, at);
    }

    method EndConsumerLocked(token: Token, note: Note, at: int)
      requires Valid() && token in consumers && consumers[token].leases == map[]
      modifies this`consumers, this`revision, this`events, this`history
      ensures Valid()
      ensures St() == End(old(St()), EndConsumer(token, note), at)
      ensures forall o :: Holds(St(), o) == old(Holds(St(), o))
    {
      ghost var s := St();
      EndConsumerHolds(s, token, note, at);
      consumers := consumers - {token};
      RecordLocked(note, at);
      FewerStaySeparate(s, St());
    }

    /**
      The loop over one consumer's leases that ends those chosen by `which`. The daemon writes it
      four times: when sweeping, clearing a consumer, clearing a profile and replacing a lease.
    */
    method EndLeasesLocked(token: Token, which: Which, who: Author, at: int,
                           ghost before: State<Buffer>, ghost was: map<Buffer, Bytes>)
      returns (ghost es: seq<Ending>)
      requires Valid() && token in consumers && who.kind in {Revoked, Expired}
      requires Separate(before) && HoldsOnly(St(), before) && Follows(before, was)
      modifies this`consumers, this`revision, this`events, this`history, LeaseBuffers()
      ensures Valid()
      ensures Progress(old(St()), es, at, Chosen(old(consumers), token, which), {})
      ensures St() == EndAll(old(St()), es, at)
      ensures forall e :: e in es ==> NoteBy(old(consumers), e, token, which, who)
      ensures LeaseBuffers() <= old(LeaseBuffers())
      ensures HoldsOnly(St(), before) && Follows(before, was)
    {
      ghost var s := St();
      var c := consumers[token];
      var pending := c.leases.Keys;
      es := [];
      LoopStart(s, at, token, which, who);
      while pending != {}
        invariant Valid() && HoldsOnly(St(), before) && Follows(before, was)
        invariant LeaseBuffers() <= old(LeaseBuffers())
        invariant LoopAt(s, es, at, token, which, who, pending) && St() == EndAll(s, es, at)
      {
        var id :| id in pending;
        var lease := c.leases[id].meta;
        if Matches(which, lease) {
          var note := LeaseNote(who.kind, who.consumerId, who.consumerLabel, lease, who.detail);
          LoopTurn(s, es, at, token, which, who, pending, id);
          EndLeaseLocked(token, id, note, at, before, was);
          es := es + [EndLease(token, id, note)];
        } else {
          LoopSkip(s, es, at, token, which, who, pending, id);
        }
        pending := pending - {id};
      }
      LoopDone(s, es, at, token, which, who);
    }

    method ClearConsumerLocked(token: Token, detail: string, at: int,
                               ghost before: State<Buffer>, ghost was: map<Buffer, Bytes>)
      returns (ghost es: seq<Ending>)
      requires Valid() && token in consumers
      requires Separate(before) && HoldsOnly(St(), before) && Follows(before, was)
      modifies this`consumers, this`revision, this`events, this`history, LeaseBuffers()
      ensures Valid() && LeaseBuffers() <= old(LeaseBuffers())
      ensures ConsumerPlan(old(St()), es, token, detail, at) && St() == EndAll(old(St()), es, at)
      ensures HoldsOnly(St(), before) && Follows(before, was)
    {
      ghost var s := St();
      var c := consumers[token].meta;
      es := EndLeasesLocked(token, Every, Author(Revoked, c.id, c.title, detail), at, before, was);
      var note := ConsumerNote(ConsumerEnded, c.id, c.title, detail);
      ConsumerPlanned(s, es, token, detail, at);
      EndConsumerLocked(token, note, at);
      es := es + [EndConsumer(token, note)];
    }

    method ExpireLocked(now: int, at: int, ghost before: State<Buffer>, ghost was: map<Buffer, Bytes>)
      returns (ghost es: seq<Ending>)
      requires Valid()
      requires Separate(before) && HoldsOnly(St(), before) && Follows(before, was)
      modifies this`consumers, this`revision, this`events, this`history, LeaseBuffers()
      ensures Valid() && LeaseBuffers() <= old(LeaseBuffers())
      ensures SweepPlan(old(St()), es, now, at) && St() == EndAll(old(St()), es, at)
      ensures HoldsOnly(St(), before) && Follows(before, was)
    {
      ghost var s := St();
      var pending := consumers.Keys;
      es := [];
      SweepStart(s, at, now);
      while pending != {}
        invariant Valid() && HoldsOnly(St(), before) && Follows(before, was)
        invariant LeaseBuffers() <= old(LeaseBuffers())
        invariant SweepAt(s, es, at, now, pending) && St() == EndAll(s, es, at)
      {
        var token :| token in pending;
        SweepKeeps(s, es, at, now, pending, token);
        var c := consumers[token].meta;
        ghost var fs := EndLeasesLocked(token, ExpiredBy(now), Author(Expired, c.id, c.title, LEASE_EXPIRED),
                                        at, before, was);
        SweepLeases(s, es, fs, at, now, pending, token);
        es := es + fs;
        if !(now < c.expiresAt) {
          fs := ClearConsumerLocked(token, CONSUMER_EXPIRED, at, before, was);
          SweepConsumer(s, es, fs, at, now, pending, token);
          es := es + fs;
        } else {
          SweepOn(s, es, at, now, pending, token);
        }
        pending := pending - {token};
      }
      SweepDone(s, es, at, now);
    }

    method ClearProfileLeasesLocked(profile: string, detail: string, at: int,
                                    ghost before: State<Buffer>, ghost was: map<Buffer, Bytes>)
      returns (ghost es: seq<Ending>)
      requires Valid()
      requires Separate(before) && HoldsOnly(St(), before) && Follows(before, was)
      modifies this`consumers, this`revision, this`events, this`history, LeaseBuffers()
      ensures Valid() && LeaseBuffers() <= old(LeaseBuffers())
      ensures ProfilePlan(old(St()), es, profile, detail, at) && St() == EndAll(old(St()), es, at)
      ensures HoldsOnly(St(), before) && Follows(before, was)
    {
      ghost var s := St();
      var pending := consumers.Keys;
      es := [];
      ProfileStart(s, at, profile, detail);
      while pending != {}
        invariant Valid() && HoldsOnly(St(), before) && Follows(before, was)
        invariant LeaseBuffers() <= old(LeaseBuffers())
        invariant ProfileAt(s, es, at, profile, detail, pending) && St() == EndAll(s, es, at)
      {
        var token :| token in pending;
        ProfileKeeps(s, es, at, profile, detail, pending, token);
        var c := consumers[token].meta;
        ghost var fs := EndLeasesLocked(token, OfProfile(profile), Author(Revoked, c.id, c.title, detail),
                                        at, before, was);
        ProfileTurn(s, es, fs, at, profile, detail, pending, token);
        es := es + fs;
        pending := pending - {token};
      }
      ProfileDone(s, es, at, profile, detail);
    }

    /**
      The loop over management sessions that ends those chosen by `which`: on expiry, for a deleted
      profile, and on closing.
    */
    method EndSessionsLocked(which: WhichSession, ghost before: State<Buffer>, ghost was: map<Buffer, Bytes>)
      requires Valid()
      requires Separate(before) && HoldsOnly(St(), before) && Follows(before, was)
      modifies this`management, SessionBuffers()
      ensures Valid() && SessionBuffers() <= old(SessionBuffers())
      ensures St() == SessionsLeft(old(St()), which)
      ensures HoldsOnly(St(), before) && Follows(before, was)
    {
      ghost var s := St();
      var pending := management.Keys;
      while pending != {}
        invariant Valid() && HoldsOnly(St(), before) && Follows(before, was)
        invariant SessionBuffers() <= old(SessionBuffers())
        invariant SessionsAt(s.management, management, which, pending)
      {
        var token :| token in pending;
        pending := pending - {token};
        if MatchesSession(which, management[token]) {
          EndSessionLocked(token, before, was);
        }
      }
      SessionsDone(s.management, management, which);
    }

    method EndSessionLocked(token: Token, ghost before: State<Buffer>, ghost was: map<Buffer, Bytes>)
      requires Valid() && token in management
      requires Separate(before) && HoldsOnly(St(), before) && Follows(before, was)
      modifies this`management, SessionBuffers()
      ensures Valid() && SessionBuffers() <= old(SessionBuffers())
      ensures St() == old(St()).(management := old(management) - {token})
      ensures HoldsOnly(St(), before) && Follows(before, was)
    {
      ghost var s := St();
      assert Holds(s, SessionOwner(token)).Some?;
      ClearBytes(management[token].secret);
      management := management - {token};
      assert forall o :: Holds(St(), o) == if o == SessionOwner(token) then None else Holds(s, o);
      forall o: Owner | Holds(before, o).Some? && Holds(s, o).None?
        ensures AllZero(Holds(before, o).value[..])
      {
        var b := Holds(before, o).value;
        assert Holds(before, SessionOwner(token)) == Some(s.management[token].secret);
      }
    }

    /** The inner loop of closing: one consumer's leases are cleared, and nothing is journalled. */
    method DropLeasesLocked(token: Token, ghost before: State<Buffer>, ghost was: map<Buffer, Bytes>)
      requires Valid() && token in consumers
      requires Separate(before) && HoldsOnly(St(), before) && Follows(before, was)
      modifies this`consumers, this`revision, LeaseBuffers()
      ensures Valid() && LeaseBuffers() <= old(LeaseBuffers())
      ensures St() == DropSet(old(St()), token, old(consumers)[token].leases.Keys)
      ensures HoldsOnly(St(), before) && Follows(before, was)
    {
      ghost var s := St();
      var pending := consumers[token].leases.Keys;
      DropAtStart(s, token);
      while pending != {}
        invariant Valid() && HoldsOnly(St(), before) && Follows(before, was)
        invariant LeaseBuffers() <= old(LeaseBuffers())
        invariant DropAt(s, St(), token, pending)
      {
        var id :| id in pending;
        DropAtTurn(s, St(), token, pending, id);
        ClearLeaseLocked(token, id, before, was);
        pending := pending - {id};
      }
      DropAtDone(s, St(), token);
    }

    method ForgetEmptyConsumer(token: Token)
      requires Valid() && token in consumers && consumers[token].leases == map[]
      modifies this`consumers
      ensures Valid() && LeaseBuffers() <= old(LeaseBuffers())
      ensures consumers == old(consumers) - {token}
      ensures forall o :: Holds(St(), o) == old(Holds(St(), o))
    {
      ghost var s := St();
      consumers := consumers - {token};
      assert forall o :: Holds(St(), o) == Holds(s, o);
    }

    /** Drops every lease and consumer, journalling nothing. */
    method ClearConsumersLocked(ghost before: State<Buffer>, ghost was: map<Buffer, Bytes>)
      requires Valid()
      requires Separate(before) && HoldsOnly(St(), before) && Follows(before, was)
      modifies this`consumers, this`revision, LeaseBuffers()
      ensures Valid() && consumers == map[]
      ensures revision == old(revision) + |LiveLeases(old(consumers))|
      ensures HoldsOnly(St(), before) && Follows(before, was)
    {
      ghost var s := St();
      var pending := consumers.Keys;
      while pending != {}
        invariant Valid() && HoldsOnly(St(), before) && Follows(before, was)
        invariant LeaseBuffers() <= old(LeaseBuffers())
        invariant consumers.Keys == pending
        invariant revision + |LiveLeases(consumers)| == s.revision + |LiveLeases(s.consumers)|
      {
        var token :| token in pending;
        pending := pending - {token};
        ghost var cs := consumers;
        DropLeasesLocked(token, before, was);
        ConsumerDropped(consumers, cs, token);
        ForgetEmptyConsumer(token);
      }
      assert LiveLeases(consumers) == {};
    }

    // -------------------------------------------------------------- the critical sections

    /** Everything is zeroed and forgotten. */
    method Close()
      requires Valid()
      modifies this, LeaseBuffers(), SessionBuffers()
      ensures Valid() && St() == Closed(old(St()))
      ensures forall o :: old(Holds(St(), o)).Some? ==> AllZero(old(Holds(St(), o)).value[..])
    {
      ghost var s, was := St(), Contents();
      ClearConsumersLocked(s, was);
      assert consumers == map[];
      EndSessionsLocked(EverySession, s, was);
      assert St().consumers == map[] && St().management == map[];
      AllLetGo(s, was);
      assert St() == Closed(s);
    }

    lemma AllLetGo(s: State<Buffer>, was: map<Buffer, Bytes>)
      requires consumers == map[] && management == map[] && Follows(s, was)
      ensures forall o :: Holds(s, o).Some? ==> AllZero(Holds(s, o).value[..])
    {
      forall o | Holds(s, o).Some? ensures AllZero(Holds(s, o).value[..]) {
        assert Holds(St(), o).None?;
      }
    }

    /** The one-second sweep, and the sweep that opens a snapshot. */
    method Sweep(now: int, at: int)
      requires Valid()
      modifies this, LeaseBuffers(), SessionBuffers()
      ensures Valid()
      ensures exists s1: State<Buffer> {:trigger Swept(old(St()), s1, now, at)} ::
                Swept(old(St()), s1, now, at) && St() == SessionsSwept(s1, now)
      ensures Follows(old(St()), old(Contents()))
    {
      ghost var s, was := St(), Contents();
      ghost var es := ExpireLocked(now, at, s, was);
      ghost var s1 := St();
      assert Swept(s, s1, now, at);
      EndSessionsLocked(StaleSession(now), s, was);
      assert St() == SessionsSwept(s1, now);
    }

    method ConsumerStatus(token: Token, now: int, at: int) returns (answer: Option<PublicConsumer>)
      requires Valid()
      modifies this, LeaseBuffers()
      ensures Valid() && Reports(old(St()), St(), token, now, at, answer)
      ensures Follows(old(St()), old(Contents()))
    {
      ghost var es := ExpireLocked(now, at, St(), Contents());
      if token == "" || token !in consumers {
        return None;
      }
      return Some(Public(consumers[token]));
    }

    method GrantLookUp(token: Token, now: int, at: int) returns (answer: Lookup)
      requires Valid()
      modifies this, LeaseBuffers()
      ensures Valid() && GrantLooksUp(old(St()), St(), token, now, at, answer)
      ensures Follows(old(St()), old(Contents()))
    {
      ghost var es := ExpireLocked(now, at, St(), Contents());
      if token == "" || token !in consumers {
        return NotFound;
      }
      var c := consumers[token].meta;
      return Found(c.id, c.title, c.expiresAt);
    }

    /** One consumer or one lease of it is ended, or nothing is. */
    method RevokeLocked(token: Token, id: string, consumerDetail: string, leaseDetail: string, at: int,
                        ghost before: State<Buffer>, ghost was: map<Buffer, Bytes>) returns (answer: bool)
      requires Valid()
      requires Separate(before) && HoldsOnly(St(), before) && Follows(before, was)
      modifies this, LeaseBuffers()
      ensures Valid() && HoldsOnly(St(), before) && Follows(before, was)
      ensures RevokesAfterSweep(old(St()), St(), token, id, consumerDetail, leaseDetail, at, answer)
    {
      if token !in consumers {
        return false;
      }
      if id == "" {
        ghost var es := ClearConsumerLocked(token, consumerDetail, at, before, was);
        return true;
      }
      if id !in consumers[token].leases {
        return false;
      }
      var c := consumers[token];
      var note := LeaseNote(Revoked, c.meta.id, c.meta.title, c.leases[id].meta, leaseDetail);
      EndLeaseLocked(token, id, note, at, before, was);
      return true;
    }

    method Revoke(token: Token, id: string, now: int, at: int) returns (answer: bool)
      requires Valid()
      modifies this, LeaseBuffers()
      ensures Valid() && Revokes(old(St()), St(), token, id, now, at, answer)
      ensures Follows(old(St()), old(Contents()))
    {
      ghost var s, was := St(), Contents();
      ghost var es := ExpireLocked(now, at, s, was);
      answer := RevokeLocked(token, id, ENDED_BY_HOLDER, REVOKED_BY_HOLDER, at, s, was);
    }

    method AdminRevoke(consumerId: string, id: string, now: int, at: int) returns (answer: bool)
      requires Valid()
      modifies this, LeaseBuffers()
      ensures Valid() && AdminRevokes(old(St()), St(), consumerId, id, now, at, answer)
      ensures Follows(old(St()), old(Contents()))
    {
      ghost var s, was := St(), Contents();
      ghost var es := ExpireLocked(now, at, s, was);
      ghost var s1 := St();
      var pending := consumers.Keys;
      while pending != {}
        invariant pending <= consumers.Keys
        invariant Valid() && HoldsOnly(St(), s) && Follows(s, was) && St() == s1
        invariant LeaseBuffers() <= old(LeaseBuffers())
        invariant forall t :: t in consumers && t !in pending ==> consumers[t].meta.id != consumerId
      {
        var token :| token in pending;
        pending := pending - {token};
        if consumers[token].meta.id == consumerId {
          answer := RevokeLocked(token, id, ENDED_BY_APP, REVOKED_BY_APP, at, s, was);
          return;
        }
      }
      return false;
    }

    /**
      The end of `Grant`. The secret was just read, so nothing owns it yet, and the lease identifier
      is new. A secret that finds no consumer to go to is zeroed.
    */
    method GrantInstall(g: Ticket, lease: Lease, secret: Buffer, now: int, at: int) returns (granted: bool)
      requires Valid()
      requires secret !in LeaseBuffers() && secret !in SessionBuffers()
      requires forall t :: !Live(consumers, t, lease.id)
      modifies this, LeaseBuffers(), secret
      ensures Valid() && GrantInstalls(old(St()), St(), g, lease, secret, now, at, granted)
      ensures Follows(old(St()), old(Contents()))
      ensures granted ==> secret[..] == old(secret[..]) && Holds(St(), LeaseOwner(g.token, lease.id)) == Some(secret)
      ensures !granted ==> AllZero(secret[..])
    {
      ghost var s, was := St(), Contents();
      ghost var es := ExpireLocked(now, at, s, was);
      ghost var s1 := St();
      granted := AdmitLocked(g, now, at, s, was);
      if !granted {
        ClearBytes(secret);
        return;
      }
      ghost var fs := InstallLocked(g, lease, secret, at, s, was);
      assert InstallsOver(Admit(s1, g, now, at).value, fs, St(), g, lease, secret, at);
    }

    method AdmitLocked(g: Ticket, now: int, at: int, ghost before: State<Buffer>, ghost was: map<Buffer, Bytes>)
      returns (admitted: bool)
      requires Valid()
      requires Separate(before) && HoldsOnly(St(), before) && Follows(before, was)
      modifies this`consumers, this`revision, this`events, this`history
      ensures Valid() && LeaseBuffers() <= old(LeaseBuffers())
      ensures HoldsOnly(St(), before) && Follows(before, was)
      ensures admitted <==> Admit(old(St()), g, now, at).Some?
      ensures St() == if admitted then Admit(old(St()), g, now, at).value else old(St())
      ensures admitted ==> g.token in consumers
    {
      if g.isNew {
        if g.token in consumers {
          return false;
        }
        AdmitNew(St(), g, now, at);
        consumers := consumers[g.token := Consumer(ConsumerMeta(g.id, g.title, now, g.expiresAt), map[])];
        RecordLocked(ConsumerNote(ConsumerStarted, g.id, g.title, "Consumer capability created"), at);
        return true;
      }
      return g.token in consumers && consumers[g.token].meta.id == g.id;
    }

    method InstallLocked(g: Ticket, lease: Lease, secret: Buffer, at: int,
                         ghost before: State<Buffer>, ghost was: map<Buffer, Bytes>)
      returns (ghost es: seq<Ending>)
      requires Valid() && g.token in consumers
      requires Separate(before) && HoldsOnly(St(), before) && Follows(before, was)
      requires forall o :: Holds(before, o) != Some(secret)
      requires Holds(before, LeaseOwner(g.token, lease.id)).None?
      modifies this`consumers, this`revision, this`events, this`history, LeaseBuffers()
      ensures Valid() && InstallsOver(old(St()), es, St(), g, lease, secret, at)
      ensures Follows(before, was)
      ensures Holds(St(), LeaseOwner(g.token, lease.id)) == Some(secret)
    {
      ghost var s := St();
      es := EndLeasesLocked(g.token, OfProfile(lease.profile), Author(Revoked, g.id, g.title, REPLACED),
                            at, before, was);
      ReplacePlanned(s, es, g, lease.profile, at);
      InstallHolds(St(), g, lease, secret, at);
      var c := consumers[g.token];
      consumers := consumers[g.token := c.(leases := c.leases[lease.id := ActiveLease(lease, secret)])];
      revision := revision + 1;
      RecordLocked(LeaseNote(Granted, g.id, g.title, lease, "Lease approved"), at);
      assert St() == Install(EndAll(s, es, at), g, lease, secret, at);
    }

    /** The lookup of `Execute`: the child gets a copy of the secret, never the buffer the lease owns. */
    method ExecuteLookUp(token: Token, id: string, now: int, at: int)
      returns (answer: Option<(Buffer, string)>, ghost lease: Option<ActiveLease<Buffer>>)
      requires Valid()
      modifies this, LeaseBuffers()
      ensures Valid() && LooksUpLease(old(St()), St(), token, id, now, at, lease)
      ensures Follows(old(St()), old(Contents()))
      ensures answer.Some? <==> lease.Some?
      ensures answer.Some? ==> fresh(answer.value.0) && answer.value.0[..] == lease.value.secret[..] &&
                               answer.value.1 == lease.value.meta.environmentVariable
    {
      ghost var es := ExpireLocked(now, at, St(), Contents());
      if token == "" || token !in consumers || id !in consumers[token].leases {
        return None, None;
      }
      var found := consumers[token].leases[id];
      if found.meta.kind == Ssh {
        return None, None;
      }
      var copy := CopyOf(found.secret);
      return Some((copy, found.meta.environmentVariable)), Some(found);
    }

    /** The end of `BeginProfileManagement`, under a new token and with a secret just read. */
    method OpenSession(token: Token, session: Session<Buffer>, now: int, at: int)
      requires Valid() && token !in management
      requires session.secret !in LeaseBuffers() && session.secret !in SessionBuffers()
      modifies this`management, this`events, this`revision, this`history, SessionBuffers()
      ensures Valid() && St() == SessionOpened(old(St()), token, session, now, at)
      ensures Follows(old(St()), old(Contents()))
      ensures session.secret[..] == old(session.secret[..])
    {
      ghost var s, was := St(), Contents();
      assert Holds(s, SessionOwner(token)).None?;
      EndSessionsLocked(StaleSession(now), s, was);
      assert St() == SessionsSwept(s, now);
      AddSession(token, session, at, s, was);
    }

    /** The session joins the others, none of which owns its secret. */
    method AddSession(token: Token, session: Session<Buffer>, at: int, ghost before: State<Buffer>,
                      ghost was: map<Buffer, Bytes>)
      requires Valid() && token !in management && session.secret !in LeaseBuffers() + SessionBuffers()
      requires Follows(before, was) && Holds(before, SessionOwner(token)).None?
      modifies this`management, this`events, this`revision, this`history
      ensures Valid() && Follows(before, was)
      ensures St() == Record(old(St()).(management := old(management)[token := session]),
                             OpenedNote(session.profile), at)
    {
      ghost var s := St();
      management := management[token := session];
      RecordLocked(OpenedNote(session.profile), at);
      assert forall o :: Holds(St(), o) == if o == SessionOwner(token) then Some(session.secret) else Holds(s, o);
    }

    method ConsumeSession(name: string, token: Token, now: int) returns (ok: bool)
      requires Valid()
      modifies this, SessionBuffers()
      ensures Valid() && St() == SessionConsumed(old(St()), name, token, now)
      ensures ok <==> Authorises(old(St()), name, token, now)
      ensures Follows(old(St()), old(Contents()))
    {
      ghost var s, was := St(), Contents();
      EndSessionsLocked(StaleSession(now), s, was);
      if token !in management || management[token].profile != name {
        return false;
      }
      EndSessionLocked(token, s, was);
      return true;
    }

    method EndProfileManagement(name: string, token: Token) returns (ok: bool)
      requires Valid()
      modifies this, SessionBuffers()
      ensures Valid() && St() == SessionEnded(old(St()), name, token)
      ensures ok <==> token in old(management) && old(management)[token].profile == name
      ensures Follows(old(St()), old(Contents()))
    {
      if token !in management || management[token].profile != name {
        return false;
      }
      EndSessionLocked(token, St(), Contents());
      return true;
    }

    /** The end of `UpdateProfile`. */
    method CommitUpdate(name: string, at: int)
      requires Valid()
      modifies this, LeaseBuffers()
      ensures Valid() && UpdateCommits(old(St()), St(), name, at)
      ensures Follows(old(St()), old(Contents()))
    {
      ghost var s, was := St(), Contents();
      ghost var es := ClearProfileLeasesLocked(name, PROFILE_CHANGED, at, s, was);
      ghost var cleared := St();
      assert ProfilePlan(s, es, name, PROFILE_CHANGED, at) && cleared == EndAll(s, es, at);
      RecordHolds(cleared, UpdatedNote(name), at);
      RecordLocked(UpdatedNote(name), at);
      assert St() == Record(cleared, UpdatedNote(name), at);
      assert Follows(s, was);
    }

    /** The first section of `deleteProfile`. */
    method ClearDeleted(name: string, at: int)
      requires Valid()
      modifies this, LeaseBuffers(), SessionBuffers()
      ensures Valid() && DeleteClears(old(St()), St(), name, at)
      ensures Follows(old(St()), old(Contents()))
    {
      ghost var s, was := St(), Contents();
      ghost var es := ClearProfileLeasesLocked(name, PROFILE_DELETED, at, s, was);
      EndSessionsLocked(SessionFor(name), s, was);
      assert St() == SessionsWithout(EndAll(s, es, at), name);
    }
  }
}
