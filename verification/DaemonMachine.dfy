/**
  The daemon as an interleaved step machine. Every critical section under `mu` is one step, and
  `profileMu` is a lock with an explicit owner, held across the human approval. Between two steps of
  one call any other call may step.

  The outside world is the choice of the steps: a clock that never goes back, fresh random tokens and
  identifiers, a keychain that may refuse, and a `Save` that may fail with or without having taken
  effect. A buffer is a number; `mem` holds the bytes of every buffer that `keychain.Read` returned or
  that `Execute` copied. Deriving a public key from a stored secret is the parameter `derive`.
*/
module DaemonMachine {
  import opened Common
  import opened DaemonState
  import opened DaemonSections
  import opened DaemonDurations

  datatype Job = StoreJob | UpdateJob | SshJob

  datatype WriteStage = Unauthorised | Ready | Kept | Saved

  datatype DeleteStage = Unapproved | Approved | Cleared | Removed

  /** Where a call in flight has got to. Only the first grant stage and `Executing` are without `profileMu`. */
  datatype Call =
    | GrantWaiting(g: Ticket, name: string, reason: string, seconds: int)
    | GrantAsking(g: Ticket, name: string, reason: string, profile: Profile, duration: int)
    | GrantChecking(g: Ticket, name: string, reason: string, profile: Profile, duration: int, buf: nat)
    | GrantStamped(g: Ticket, lease: Lease, buf: nat)
    | Executing(buf: nat)
    | BeginAsking(name: string)
    | BeginOpening(name: string, buf: nat)
    | Writing(job: Job, stage: WriteStage, name: string, profile: Profile, secret: Bytes, loaded: Config)
    | Deleting(step: DeleteStage, name: string, loaded: Config)

  predicate Holding(call: Call) {
    !call.GrantWaiting? && !call.Executing?
  }

  function BufferOf(call: Call): Option<nat> {
    match call
    case GrantChecking(_, _, _, _, _, buf) => Some(buf)
    case GrantStamped(_, _, buf) => Some(buf)
    case Executing(buf) => Some(buf)
    case BeginOpening(_, buf) => Some(buf)
    case _ => None
  }

  /**
    `issued` is every token and identifier drawn so far. `since` exists only in the model: the values
    the keychain has held for a profile since its last completed update or deletion.
  */
  datatype World = World(clock: int, svc: State<nat>, mem: map<nat, Bytes>, config: Config,
                         keychain: map<string, Bytes>, since: map<string, set<Bytes>>,
                         profileMu: Option<nat>, calls: map<nat, Call>, issued: set<string>)

  function Since(w: World, name: string): set<Bytes> {
    if name in w.since then w.since[name] else {}
  }

  datatype Action =
    | Tick(t: int)
    | Ticker(now: int)
    | Look
    | StartGrantNew(c: nat, g: Ticket, name: string, reason: string, seconds: int, consumerSeconds: int)
    | StartGrantKnown(c: nat, token: Token, now: int, name: string, reason: string, seconds: int)
    | LockGrant(c: nat)
    | ReadGrant(c: nat, buf: nat)
    | StampGrant(c: nat, leaseId: string)
    | InstallGrant(c: nat, granted: bool)
    | StartExec(c: nat, token: Token, id: string, buf: nat)
    | FinishExec(c: nat)
    | RevokeCall(token: Token, id: string)
    | AdminRevokeCall(consumerId: string, id: string)
    | LockBegin(c: nat, name: string)
    | ReadBegin(c: nat, buf: nat)
    | OpenBegin(c: nat, token: Token, stamp: int)
    | EndManagement(name: string, token: Token)
    | LockWrite(c: nat, job: Job, name: string, profile: Profile, secret: Bytes)
    | Authorise(c: nat, token: Token)
    | Keep(c: nat)
    | Save(c: nat)
    | Finish(c: nat)
    | LockDelete(c: nat, name: string)
    | ApproveDelete(c: nat)
    | ClearDelete(c: nat)
    | SaveDelete(c: nat)
    | FinishDelete(c: nat)
    | Fail(c: nat)
    | Shutdown

  // ---------------------------------------------------------------- what a section does to memory

  /** `b` had an owner among the leases and sessions that has none any more. */
  ghost predicate Dropped(s: State<nat>, s': State<nat>, b: nat) {
    exists o :: Holds(s, o) == Some(b) && Holds(s', o).None?
  }

  /** The buffers of dropped leases and sessions are zeroed; the class Service shows the same of its arrays. */
  ghost function Wiped(mem: map<nat, Bytes>, s: State<nat>, s': State<nat>): map<nat, Bytes> {
    map b | b in mem :: if Dropped(s, s', b) then Zeros(|mem[b]|) else mem[b]
  }

  ghost function Guarded(w: World, s': State<nat>): World {
    w.(svc := s', mem := Wiped(w.mem, w.svc, s'))
  }

  function Cleared1(mem: map<nat, Bytes>, buf: Option<nat>): map<nat, Bytes> {
    if buf.Some? && buf.value in mem then mem[buf.value := Zeros(|mem[buf.value]|)] else mem
  }

  /** The call returns: its own buffer is zeroed and its lock released, as its deferred calls do. */
  function Returned(w: World, c: nat): World
    requires c in w.calls
  {
    w.(calls := w.calls - {c},
       profileMu := if Holding(w.calls[c]) then None else w.profileMu,
       mem := Cleared1(w.mem, BufferOf(w.calls[c])))
  }

  /** The call has handed its buffer over, so nothing is zeroed. */
  function HandedOver(w: World, c: nat): World
    requires c in w.calls
  {
    w.(calls := w.calls - {c}, profileMu := None)
  }

  /**
    Where the code has an error return that leaves the guarded state alone; a waiting grant fails only
    once it has the lock.
  */
  predicate MayFail(w: World, call: Call) {
    !call.GrantStamped? && !call.Executing? && (call.GrantWaiting? ==> w.profileMu == None)
  }

  // ---------------------------------------------------------------- steps

  ghost predicate Step(derive: Bytes -> Option<PublicKey>, w: World, a: Action, w': World) {
    match a
    case Tick(t) => t >= w.clock && w' == w.(clock := t)
    case Ticker(now) => TickerStep(w, now, w')
    case Look => Swept(w.svc, w'.svc, w.clock, w.clock) && w' == Guarded(w, w'.svc)
    case StartGrantNew(c, g, name, reason, seconds, consumerSeconds) =>
      NewGrantStep(w, c, g, name, reason, seconds, consumerSeconds, w')
    case StartGrantKnown(c, token, now, name, reason, seconds) =>
      KnownGrantStep(w, c, token, now, name, reason, seconds, w')
    case LockGrant(c) => LockGrantStep(w, c, w')
    case ReadGrant(c, buf) => ReadGrantStep(w, c, buf, w')
    case StampGrant(c, leaseId) => StampStep(derive, w, c, leaseId, w')
    case InstallGrant(c, granted) => InstallGrantStep(w, c, granted, w')
    case StartExec(c, token, id, buf) => StartExecStep(w, c, token, id, buf, w')
    case FinishExec(c) => c in w.calls && w.calls[c].Executing? && w' == Returned(w, c)
    case RevokeCall(token, id) => RevokeStep(w, token, id, w')
    case AdminRevokeCall(consumerId, id) => AdminRevokeStep(w, consumerId, id, w')
    case LockBegin(c, name) => LockBeginStep(w, c, name, w')
    case ReadBegin(c, buf) => ReadBeginStep(w, c, buf, w')
    case OpenBegin(c, token, stamp) => OpenBeginStep(w, c, token, stamp, w')
    case EndManagement(name, token) => w' == Guarded(w, SessionEnded(w.svc, name, token))
    case LockWrite(c, job, name, profile, secret) => LockWriteStep(derive, w, c, job, name, profile, secret, w')
    case Authorise(c, token) => AuthoriseStep(w, c, token, w')
    case Keep(c) => KeepStep(w, c, w')
    case Save(c) => SaveStep(w, c, w')
    case Finish(c) => FinishStep(w, c, w')
    case LockDelete(c, name) => LockDeleteStep(w, c, name, w')
    case ApproveDelete(c) => ApproveDeleteStep(w, c, w')
    case ClearDelete(c) => ClearDeleteStep(w, c, w')
    case SaveDelete(c) => SaveDeleteStep(w, c, w')
    case FinishDelete(c) => FinishDeleteStep(w, c, w')
    case Fail(c) => c in w.calls && MayFail(w, w.calls[c]) && w' == Returned(w, c)
    case Shutdown => w' == Guarded(w, Closed(w.svc))
  }

  /** The one-second sweep; its instant was read before the lock was taken. */
  ghost predicate TickerStep(w: World, now: int, w': World) {
    now <= w.clock &&
    exists es :: SweepPlan(w.svc, es, now, w.clock) &&
                 w' == Guarded(w, SessionsSwept(EndAll(w.svc, es, w.clock), now))
  }

  // ---------------------------------------------------------------- the steps of Grant

  predicate NewGrantStep(w: World, c: nat, g: Ticket, name: string, reason: string, seconds: int, consumerSeconds: int,
                         w': World)
  {
    && c !in w.calls && g.isNew && g.token !in w.issued && g.id !in w.issued && g.token != g.id && g.token != ""
    && ConsumerDuration(consumerSeconds) == Some(g.expiresAt - w.clock)
    && w' == w.(calls := w.calls[c := GrantWaiting(g, name, reason, seconds)], issued := w.issued + {g.token, g.id})
  }

  /** The instant `now` was read before the lock was taken. */
  ghost predicate KnownGrantStep(w: World, c: nat, token: Token, now: int, name: string, reason: string, seconds: int,
                                 w': World)
  {
    c !in w.calls && now <= w.clock &&
    exists answer ::
      GrantLooksUp(w.svc, w'.svc, token, now, w.clock, answer) &&
      var w1 := Guarded(w, w'.svc);
      w' == match answer
            case NotFound => w1
            case Found(id, title, expiresAt) =>
              var g := Ticket(token, id, title, expiresAt, false);
              w1.(calls := w1.calls[c := GrantWaiting(g, name, reason, seconds)])
  }

  predicate LockGrantStep(w: World, c: nat, w': World) {
    && c in w.calls && w.calls[c].GrantWaiting? && w.profileMu == None
    && var k := w.calls[c];
       && k.name != "" && k.name in w.config
       && var profile := w.config[k.name];
          var d := LeaseDuration(k.seconds, profile.defaultLeaseSeconds, k.g.expiresAt - w.clock);
          d.Some? &&
          w' == w.(profileMu := Some(c), calls := w.calls[c := GrantAsking(k.g, k.name, k.reason, profile, d.value)])
  }

  predicate ReadGrantStep(w: World, c: nat, buf: nat, w': World) {
    && c in w.calls && w.calls[c].GrantAsking? && w.calls[c].name in w.keychain && buf !in w.mem
    && var k := w.calls[c];
       w' == w.(mem := w.mem[buf := w.keychain[k.name]],
                calls := w.calls[c := GrantChecking(k.g, k.name, k.reason, k.profile, k.duration, buf)])
  }

  predicate StampStep(derive: Bytes -> Option<PublicKey>, w: World, c: nat, leaseId: string, w': World) {
    && c in w.calls && w.calls[c].GrantChecking?
    && var k := w.calls[c];
       && leaseId !in w.issued && k.buf in w.mem
       && (k.profile.kind == Ssh ==> derive(w.mem[k.buf]) == Some(k.profile.publicKey))
       && var lease := Lease(leaseId, k.profile.kind, k.g.id, k.g.title, k.name, k.profile.environmentVariable,
                             k.reason, w.clock, Min(w.clock + k.duration, k.g.expiresAt));
          w' == w.(calls := w.calls[c := GrantStamped(k.g, lease, k.buf)], issued := w.issued + {leaseId})
  }

  ghost predicate InstallGrantStep(w: World, c: nat, granted: bool, w': World) {
    && c in w.calls && w.calls[c].GrantStamped?
    && GrantInstalls(w.svc, w'.svc, w.calls[c].g, w.calls[c].lease, w.calls[c].buf, w.calls[c].lease.grantedAt,
                     w.clock, granted)
    && w' == if granted then HandedOver(Guarded(w, w'.svc), c) else Returned(Guarded(w, w'.svc), c)
  }

  // ---------------------------------------------------------------- using and revoking leases

  ghost predicate StartExecStep(w: World, c: nat, token: Token, id: string, buf: nat, w': World) {
    c !in w.calls && buf !in w.mem &&
    exists answer ::
      LooksUpLease(w.svc, w'.svc, token, id, w.clock, w.clock, answer) &&
      var w1 := Guarded(w, w'.svc);
      if answer.None? then w' == w1
      else answer.value.secret in w1.mem &&
           w' == w1.(mem := w1.mem[buf := w1.mem[answer.value.secret]], calls := w1.calls[c := Executing(buf)])
  }

  ghost predicate RevokeStep(w: World, token: Token, id: string, w': World) {
    (exists answer :: Revokes(w.svc, w'.svc, token, id, w.clock, w.clock, answer)) && w' == Guarded(w, w'.svc)
  }

  ghost predicate AdminRevokeStep(w: World, consumerId: string, id: string, w': World) {
    (exists answer :: AdminRevokes(w.svc, w'.svc, consumerId, id, w.clock, w.clock, answer)) && w' == Guarded(w, w'.svc)
  }

  // ---------------------------------------------------------------- the steps of BeginProfileManagement

  predicate LockBeginStep(w: World, c: nat, name: string, w': World) {
    && c !in w.calls && w.profileMu == None && name in w.config && w.config[name].kind != Ssh
    && w' == w.(profileMu := Some(c), calls := w.calls[c := BeginAsking(name)])
  }

  predicate ReadBeginStep(w: World, c: nat, buf: nat, w': World) {
    && c in w.calls && w.calls[c].BeginAsking? && w.calls[c].name in w.keychain && buf !in w.mem
    && w' == w.(mem := w.mem[buf := w.keychain[w.calls[c].name]],
                calls := w.calls[c := BeginOpening(w.calls[c].name, buf)])
  }

  ghost predicate OpenBeginStep(w: World, c: nat, token: Token, stamp: int, w': World) {
    && c in w.calls && w.calls[c].BeginOpening? && token !in w.issued && stamp <= w.clock
    && var k := w.calls[c];
       var s' := SessionOpened(w.svc, token, Session(k.name, k.buf, stamp + MANAGEMENT_TTL), w.clock, w.clock);
       w' == HandedOver(Guarded(w, s'), c).(issued := w.issued + {token})
  }

  // ---------------------------------------------------------------- the steps of the profile writers

  predicate LockWriteStep(derive: Bytes -> Option<PublicKey>, w: World, c: nat, job: Job, name: string,
                          profile: Profile,
                          secret: Bytes, w': World)
  {
    && c !in w.calls && w.profileMu == None && WriteAllowed(derive, w.config, job, name, profile, secret)
    && var stage := if job == UpdateJob then Unauthorised else Ready;
       w' == w.(profileMu := Some(c), calls := w.calls[c := Writing(job, stage, name, profile, secret, w.config)])
  }

  predicate WritingAt(w: World, c: nat, stage: WriteStage) {
    c in w.calls && w.calls[c].Writing? && w.calls[c].stage == stage
  }

  ghost predicate AuthoriseStep(w: World, c: nat, token: Token, w': World) {
    && WritingAt(w, c, Unauthorised)
    && var k := w.calls[c];
       var w1 := Guarded(w, SessionConsumed(w.svc, k.name, token, w.clock));
       w' == if Authorises(w.svc, k.name, token, w.clock) then w1.(calls := w1.calls[c := k.(stage := Ready)])
             else Returned(w1, c)
  }

  predicate KeepStep(w: World, c: nat, w': World) {
    && WritingAt(w, c, Ready)
    && var k := w.calls[c];
       w' == w.(keychain := w.keychain[k.name := k.secret], since := w.since[k.name := Since(w, k.name) + {k.secret}],
                calls := w.calls[c := k.(stage := Kept)])
  }

  predicate SaveStep(w: World, c: nat, w': World) {
    && WritingAt(w, c, Kept)
    && var k := w.calls[c];
       w' == w.(config := k.loaded[k.name := k.profile], calls := w.calls[c := k.(stage := Saved)])
  }

  ghost predicate FinishStep(w: World, c: nat, w': World) {
    && WritingAt(w, c, Saved)
    && var k := w.calls[c];
       if k.job == UpdateJob then
         && k.name in w.keychain && UpdateCommits(w.svc, w'.svc, k.name, w.clock)
         && w' == Returned(Guarded(w, w'.svc), c).(since := w.since[k.name := {w.keychain[k.name]}])
       else
         w' == Returned(w.(svc := Record(w.svc, SavedNote(k.name, SavedDetail(k.job)), w.clock)), c)
  }

  // ---------------------------------------------------------------- the steps of deleteProfile

  predicate LockDeleteStep(w: World, c: nat, name: string, w': World) {
    && c !in w.calls && w.profileMu == None && name in w.config
    && w' == w.(profileMu := Some(c), calls := w.calls[c := Deleting(Unapproved, name, w.config)])
  }

  predicate DeletingAt(w: World, c: nat, step: DeleteStage) {
    c in w.calls && w.calls[c].Deleting? && w.calls[c].step == step
  }

  predicate ApproveDeleteStep(w: World, c: nat, w': World) {
    && DeletingAt(w, c, Unapproved)
    && var k := w.calls[c];
       w' == w.(keychain := w.keychain - {k.name}, calls := w.calls[c := k.(step := Approved)])
  }

  ghost predicate ClearDeleteStep(w: World, c: nat, w': World) {
    && DeletingAt(w, c, Approved)
    && DeleteClears(w.svc, w'.svc, w.calls[c].name, w.clock)
    && w' == Guarded(w, w'.svc).(since := w.since - {w.calls[c].name},
                                 calls := w.calls[c := w.calls[c].(step := Cleared)])
  }

  predicate SaveDeleteStep(w: World, c: nat, w': World) {
    && DeletingAt(w, c, Cleared)
    && var k := w.calls[c];
       w' == w.(config := k.loaded - {k.name}, calls := w.calls[c := k.(step := Removed)])
  }

  predicate FinishDeleteStep(w: World, c: nat, w': World) {
    && DeletingAt(w, c, Removed)
    && w' == Returned(w.(svc := Record(w.svc, RemovedNote(w.calls[c].name), w.clock)), c)
  }

  /** The checks of `StoreProfile`, `UpdateProfile` and `createSSHProfile` against the loaded configuration. */
  predicate WriteAllowed(derive: Bytes -> Option<PublicKey>, config: Config, job: Job, name: string, profile: Profile,
                         secret: Bytes)
  {
    && MINIMUM_LEASE <= Nanos(profile.defaultLeaseSeconds) <= MAXIMUM_LEASE
    && match job
       case StoreJob =>
         (name in config ==> config[name].kind != Ssh) && profile.kind == Plain("") && secret != [] && 0 !in secret
       case UpdateJob =>
         name in config && config[name].kind != Ssh && profile.kind == Plain("") && secret != [] && 0 !in secret
       case SshJob =>
         name !in config && profile.kind == Ssh && derive(secret) == Some(profile.publicKey)
  }

  function SavedDetail(job: Job): string {
    if job == SshJob then GENERATED else STORED
  }

  const STORED := "Profile stored in Keychain"
  const GENERATED := "SSH signing identity generated in Keychain; private key is not exportable through the API"

  function SavedNote(name: string, detail: string): Note {
    Note(ProfileSaved, name, "", "", "", detail)
  }

  function RemovedNote(name: string): Note {
    Note(ProfileRemoved, name, "", APP, HUMAN, "Profile removal approved with Touch ID")
  }

  // ---------------------------------------------------------------- runs

  /** A freshly started daemon: any configuration, keychain and journal it may find. */
  ghost predicate Init(w: World) {
    && w.svc.consumers == map[] && w.svc.management == map[] && w.svc.history == [] && w.svc.revision == 1
    && w.mem == map[] && w.profileMu == None && w.calls == map[] && w.issued == {}
    && (forall name :: name in w.keychain ==> name in w.since && w.since[name] == {w.keychain[name]})
  }

  ghost predicate StepAt(derive: Bytes -> Option<PublicKey>, run: seq<World>, acts: seq<Action>, i: int)
    requires 0 <= i < |acts| < |run|
  {
    Step(derive, run[i], acts[i], run[i + 1])
  }

  /** `run` passes through worlds by the actions `acts`. */
  ghost predicate Run(derive: Bytes -> Option<PublicKey>, run: seq<World>, acts: seq<Action>) {
    && |run| == |acts| + 1 && Init(run[0])
    && forall i :: 0 <= i < |acts| ==> StepAt(derive, run, acts, i)
  }
}
