/** The QUIC forwarder's goroutines, interleaved at the granularity of their critical sections:
    the read loop, set-up workers with their relays, the idle collector and one shutdown. */
module QuicMachine {
  import opened QuicAccount
  import opened Text

  datatype Ref = Ref(key: string, sess: Session)

  datatype Proc =
    | Starting                                    // Start past its closed test, holding s.mu
    | ReadLoop                                    // readLoop waiting for a datagram
    | Reserving(key: string, ip: string)          // tryReserveSession past its closed test, holding resourceMu
    | Reserved(key: string, ip: string)           // readLoop holding a reservation, worker not started
    | Setup(key: string, ip: string)              // setupSession before promotion
    | Promoting(key: string, ip: string)          // promoteSession past its closed test, holding resourceMu
    | Abandon(key: string, ip: string)            // setupSession about to run its deferred releasePending
    | Relay(key: string, sess: Session)           // relayBackendToClient
    | Collector(stale: set<Ref>)                  // gcLoop, with the idle sessions it has seen
    | Closing                                     // Shutdown after setting closed
    | Stopping                                    // ... with the listener closed
    | Snapping(refs: set<Ref>)                    // ... ranging over the sessions, holding resourceMu
    | Dropping(refs: set<Ref>)                    // ... dropping its snapshot
    | Waiting                                     // ... waiting for the loops
    | Draining                                    // ... waiting for the workers
    | Releasing(owed: string, next: Proc)         // dropSession between the delete and the release
    | Exited

  // The two locks with their holders, the goroutine running Shutdown, and how far things have come.
  datatype Flags = Flags(
    mu: Option<nat>,        // resourceMu
    smu: Option<nat>,       // s.mu, where Start and Shutdown meet
    closer: Option<nat>,
    started: bool,
    lapsed: bool,           // a promotion has found closed set
    stopped: bool,          // Shutdown has passed s.mu
    snapped: bool,          // Shutdown has taken its snapshot
    drained: bool,          // both loops have exited
    done: bool)

  datatype System = System(
    books: Account,
    procs: map<nat, Proc>,
    nextId: nat,            // identities below this are taken
    f: Flags)

  datatype Action =
    | StartTest(p: nat)
    | StartLoops(p: nat, q: nat, r: nat)
    | BeginReserve(p: nat, key: string, ip: string)
    | EndReserve(p: nat)
    | Spawn(p: nat, q: nat)
    | ReadExit(p: nat)
    | SetupFails(p: nat)
    | BeginPromote(p: nat)
    | EndPromote(p: nat)
    | Undo(p: nat)
    | RelayEnds(p: nat)
    | SeeIdle(p: nat, key: string)
    | DropIdle(p: nat, ref: Ref)
    | CollectorExit(p: nat)
    | BeginShutdown(p: nat)
    | StopListener(p: nat)
    | BeginSnapshot(p: nat)
    | Visit(p: nat, key: string)
    | EndSnapshot(p: nat)
    | DropListed(p: nat, ref: Ref)
    | AllDropped(p: nat)
    | Release(p: nat)
    | LoopsOver(p: nat)
    | Finish(p: nat)

  function ProcOf(s: System, p: nat): Proc {
    if p in s.procs then s.procs[p] else Exited
  }

  predicate Fresh(s: System, p: nat) {
    p !in s.procs
  }

  // Goroutines the loops' wait group counts.
  predicate InLoops(proc: Proc) {
    proc.ReadLoop? || proc.Reserving? || proc.Reserved? || proc.Collector? || (proc.Releasing? && proc.next.Collector?)
  }

  // Goroutines the workers' wait group counts.
  predicate InWorkers(proc: Proc) {
    proc.Setup? || proc.Promoting? || proc.Abandon? || proc.Relay? || (proc.Releasing? && proc.next.Exited?)
  }

  // The range over the session map visits every entry that is there throughout; nothing is added meanwhile, because
  // every store holds resourceMu.
  predicate Ranged(sessions: map<string, Session>, refs: set<Ref>) {
    forall k :: k in sessions ==> Ref(k, sessions[k]) in refs
  }

  predicate Enabled(s: System, a: Action) {
    match a
    case StartTest(p) => Fresh(s, p) && s.f.smu.None? && !s.books.closed && !s.f.started
    case StartLoops(p, q, r) => ProcOf(s, p).Starting? && Fresh(s, q) && Fresh(s, r) && q != r
    case BeginReserve(p, key, ip) => ProcOf(s, p).ReadLoop? && s.f.mu.None?
    case EndReserve(p) => ProcOf(s, p).Reserving?
    case Spawn(p, q) => ProcOf(s, p).Reserved? && Fresh(s, q)
    case ReadExit(p) => ProcOf(s, p).ReadLoop? && s.books.closed
    case SetupFails(p) => ProcOf(s, p).Setup?
    case BeginPromote(p) => ProcOf(s, p).Setup? && s.f.mu.None?
    case EndPromote(p) => ProcOf(s, p).Promoting?
    case Undo(p) => ProcOf(s, p).Abandon? && s.f.mu.None?
    case RelayEnds(p) => ProcOf(s, p).Relay?
    case SeeIdle(p, key) => ProcOf(s, p).Collector? && key in s.books.sessions
    case DropIdle(p, ref) => ProcOf(s, p).Collector? && ref in ProcOf(s, p).stale
    case CollectorExit(p) => ProcOf(s, p) == Collector({}) && s.books.closed
    case BeginShutdown(p) => !s.books.closed && Fresh(s, p)
    case StopListener(p) => ProcOf(s, p).Closing? && s.f.smu.None?
    case BeginSnapshot(p) => ProcOf(s, p).Stopping? && s.f.mu.None?
    case Visit(p, key) => ProcOf(s, p).Snapping? && key in s.books.sessions
    case EndSnapshot(p) => ProcOf(s, p).Snapping? && Ranged(s.books.sessions, ProcOf(s, p).refs)
    case DropListed(p, ref) => ProcOf(s, p).Dropping? && ref in ProcOf(s, p).refs
    case AllDropped(p) => ProcOf(s, p) == Dropping({})
    case Release(p) => ProcOf(s, p).Releasing? && s.f.mu.None?
    case LoopsOver(p) => ProcOf(s, p).Waiting? && forall q :: q in s.procs ==> !InLoops(s.procs[q])
    case Finish(p) => ProcOf(s, p).Draining? && forall q :: q in s.procs ==> !InWorkers(s.procs[q])
  }

  function Become(s: System, p: nat, proc: Proc): System {
    s.(procs := s.procs[p := proc])
  }

  // The atomic half of dropSession, which takes no lock; the release is still owed when the delete succeeded.
  function DropStep(s: System, p: nat, ref: Ref, next: Proc): System {
    if Holds(s.books, ref.key, ref.sess)
    then Become(s.(books := Detach(s.books, ref.key, ref.sess)), p, Releasing(ref.sess.ip, next))
    else Become(s, p, next)
  }

  function BeginReserveStep(s: System, p: nat, key: string, ip: string): System {
    if s.books.closed || key == "" || ip == "" then s
    else Become(s.(f := s.f.(mu := Some(p))), p, Reserving(key, ip))
  }

  function EndReserveStep(c: Caps, s: System, p: nat, key: string, ip: string): System {
    var free := s.(f := s.f.(mu := None));
    if Admits(c, s.books, key, ip)
    then Become(free.(books := Reserve(s.books, key, ip)), p, Reserved(key, ip))
    else Become(free, p, ReadLoop)
  }

  function BeginPromoteStep(s: System, p: nat, key: string, ip: string): System {
    if PendingIp(s.books, key) != ip then Become(s, p, Abandon(key, ip))
    else if s.books.closed then
      Become(s.(books := ReleaseCount(RemovePending(s.books, key), ip), f := s.f.(lapsed := true)), p, Abandon(key, ip))
    else Become(s.(books := RemovePending(s.books, key), f := s.f.(mu := Some(p))), p, Promoting(key, ip))
  }

  function EndPromoteStep(s: System, p: nat, key: string, ip: string): System {
    var sess := Session(s.nextId, ip);
    Become(s.(books := Store(s.books, key, sess), nextId := s.nextId + 1, f := s.f.(mu := None)), p, Relay(key, sess))
  }

  function Do(c: Caps, s: System, a: Action): System
    requires Enabled(s, a)
  {
    match a
    case StartTest(p) => Become(s.(f := s.f.(smu := Some(p))), p, Starting)
    case StartLoops(p, q, r) =>
      Become(Become(Become(s.(f := s.f.(smu := None, started := true)), q, ReadLoop), r, Collector({})), p, Exited)
    case BeginReserve(p, key, ip) => BeginReserveStep(s, p, key, ip)
    case EndReserve(p) => EndReserveStep(c, s, p, s.procs[p].key, s.procs[p].ip)
    case Spawn(p, q) => Become(Become(s, q, Setup(s.procs[p].key, s.procs[p].ip)), p, ReadLoop)
    case ReadExit(p) => Become(s, p, Exited)
    case SetupFails(p) => Become(s, p, Abandon(s.procs[p].key, s.procs[p].ip))
    case BeginPromote(p) => BeginPromoteStep(s, p, s.procs[p].key, s.procs[p].ip)
    case EndPromote(p) => EndPromoteStep(s, p, s.procs[p].key, s.procs[p].ip)
    case Undo(p) =>
      Become(s.(books := PendingReleased(s.books, s.procs[p].key, s.procs[p].ip)), p, Exited)
    case RelayEnds(p) => DropStep(s, p, Ref(s.procs[p].key, s.procs[p].sess), Exited)
    case SeeIdle(p, key) => Become(s, p, Collector(s.procs[p].stale + {Ref(key, s.books.sessions[key])}))
    case DropIdle(p, ref) => DropStep(s, p, ref, Collector(s.procs[p].stale - {ref}))
    case CollectorExit(p) => Become(s, p, Exited)
    case BeginShutdown(p) =>
      Become(s.(books := s.books.(closed := true), f := s.f.(closer := Some(p))), p, Closing)
    case StopListener(p) => Become(s.(f := s.f.(stopped := true)), p, Stopping)
    case BeginSnapshot(p) => Become(s.(f := s.f.(mu := Some(p))), p, Snapping({}))
    case Visit(p, key) => Become(s, p, Snapping(s.procs[p].refs + {Ref(key, s.books.sessions[key])}))
    case EndSnapshot(p) => Become(s.(f := s.f.(mu := None, snapped := true)), p, Dropping(s.procs[p].refs))
    case DropListed(p, ref) => DropStep(s, p, ref, Dropping(s.procs[p].refs - {ref}))
    case AllDropped(p) => Become(s, p, Waiting)
    case Release(p) => Become(s.(books := ReleaseCount(s.books, s.procs[p].owed)), p, s.procs[p].next)
    case LoopsOver(p) => Become(s.(f := s.f.(drained := true)), p, Draining)
    case Finish(p) => Become(s.(f := s.f.(done := true)), p, Exited)
  }

  predicate Init(s: System) {
    s == System(Account(false, map[], map[], 0, map[]), map[], 0,
                Flags(None, None, None, false, false, false, false, false, false))
  }

  ghost predicate Step(c: Caps, s: System, s': System) {
    exists a :: Enabled(s, a) && s' == Do(c, s, a)
  }

  ghost predicate Run(c: Caps, run: seq<System>) {
    && run != [] && Init(run[0])
    && forall i :: 0 <= i < |run| - 1 ==> Step(c, run[i], run[i + 1])
  }

  /** The two halves of each locked section, run without a shutdown in between, are the object's one section. */
  lemma HalvesMakeTheSection(c: Caps, s: System, p: nat, key: string, ip: string)
    requires ProcOf(s, p).ReadLoop? || ProcOf(s, p).Setup?
    ensures var s' := BeginReserveStep(s, p, key, ip);
            (if ProcOf(s', p).Reserving? then EndReserveStep(c, s', p, key, ip).books else s'.books)
            == if CanReserve(c, s.books, key, ip) then Reserve(s.books, key, ip) else s.books
    ensures var s' := BeginPromoteStep(s, p, key, ip);
            (if s'.procs[p].Promoting? then EndPromoteStep(s', p, key, ip).books else s'.books)
            == Promote(s.books, key, ip, Session(s.nextId, ip))
  {
  }

  // ---------- invariant ----------

  // Promoters and droppers owe a count the two maps no longer show.
  predicate Owes(proc: Proc) {
    proc.Releasing? || proc.Promoting?
  }

  function OwedIp(proc: Proc): string
    requires Owes(proc)
  {
    if proc.Releasing? then proc.owed else proc.ip
  }

  function Owed(procs: map<nat, Proc>): map<nat, string> {
    map p | p in procs && Owes(procs[p]) :: OwedIp(procs[p])
  }

  predicate OwnsKey(proc: Proc) {
    proc.Reserved? || proc.Setup? || proc.Abandon?
  }

  predicate SameKey(a: Proc, b: Proc) {
    OwnsKey(a) && OwnsKey(b) && a.key == b.key
  }

  ghost predicate CapsHold(c: Caps, a: Account) {
    && |a.pending| <= c.maxSetups && a.reserved <= c.maxSessions
    && forall ip :: PerIp(a, ip) <= c.maxPerIp
  }

  predicate ApartFrom(pending: map<string, string>, sessions: map<string, Session>, proc: Proc) {
    && (proc.Promoting? ==> proc.key !in pending && proc.key !in sessions)
    && (proc.Reserving? ==> proc.ip != "")
  }

  // The two maps and the key being promoted are disjoint.
  ghost predicate KeysApart(a: Account, procs: map<nat, Proc>) {
    && (forall k :: k in a.pending ==> k !in a.sessions)
    && (forall k :: k in a.pending ==> a.pending[k] != "")
    && (forall p :: p in procs ==> ApartFrom(a.pending, a.sessions, procs[p]))
  }

  ghost predicate HasOwner(procs: map<nat, Proc>, key: string) {
    exists p :: p in procs && OwnsKey(procs[p]) && procs[p].key == key
  }

  predicate OwnerFits(pending: map<string, string>, lapsed: bool, proc: Proc) {
    OwnsKey(proc) ==>
      proc.ip != ""
      && if proc.key in pending then pending[proc.key] == proc.ip else proc.Abandon? && lapsed
  }

  // Every reservation has exactly one goroutine, and it knows the address it was made for.
  ghost predicate Owners(procs: map<nat, Proc>, pending: map<string, string>, lapsed: bool) {
    && (forall p :: p in procs ==> OwnerFits(pending, lapsed, procs[p]))
    && (forall p, q :: p in procs && q in procs && SameKey(procs[p], procs[q]) ==> p == q)
    && (forall k :: k in pending ==> HasOwner(procs, k))
  }

  ghost predicate HasRelay(procs: map<nat, Proc>, key: string, sess: Session) {
    exists p :: p in procs && procs[p] == Relay(key, sess)
  }

  ghost predicate KnownProc(sessions: map<string, Session>, snapped: bool, nextId: nat, proc: Proc) {
    match proc
    case Relay(_, sess) => sess.id < nextId
    case Collector(stale) => forall r :: r in stale ==> r.sess.id < nextId
    case Snapping(refs) => forall r :: r in refs ==> r.sess.id < nextId
    case Dropping(refs) => snapped && (forall r :: r in refs ==> r.sess.id < nextId) && Ranged(sessions, refs)
    case Waiting => snapped && sessions == map[]
    case Draining => snapped && sessions == map[]
    case Releasing(_, next) => !Owes(next) && !OwnsKey(next) && KnownProc(sessions, snapped, nextId, next)
    case _ => true
  }

  // Every live session has its relay, and every remembered identity is an old one.
  ghost predicate Sessions(procs: map<nat, Proc>, sessions: map<string, Session>, snapped: bool, nextId: nat) {
    && (forall k :: k in sessions ==> sessions[k].id < nextId && HasRelay(procs, k, sessions[k]))
    && (forall p :: p in procs ==> KnownProc(sessions, snapped, nextId, procs[p]))
  }

  predicate HoldsMu(proc: Proc) {
    proc.Reserving? || proc.Promoting? || proc.Snapping?
  }

  predicate Closes(proc: Proc) {
    match proc
    case Closing => true
    case Stopping => true
    case Snapping(_) => true
    case Dropping(_) => true
    case Waiting => true
    case Draining => true
    case Releasing(_, next) => next.Dropping?
    case _ => false
  }

  // Where goroutine p can be, given how far things have come.
  predicate InPhase(closed: bool, f: Flags, p: nat, proc: Proc) {
    && (HoldsMu(proc) ==> f.mu == Some(p))
    && (proc.Starting? ==> f.smu == Some(p) && !f.stopped)
    && (Closes(proc) ==> f.closer == Some(p))
    && (proc.Reserving? ==> !f.lapsed)
    && (proc.Promoting? ==> !f.snapped)
    && (InLoops(proc) ==> !f.drained)
    && (proc.Closing? ==> closed)
    && (proc.Stopping? || proc.Snapping? ==> f.stopped)
    && (proc.Draining? ==> f.drained)
    && (f.done ==> proc.Exited?)
    && (proc.Releasing? ==> proc.next.Collector? || proc.next.Dropping? || proc.next.Exited?)
  }

  predicate FlagsOk(closed: bool, f: Flags) {
    && (f.lapsed || f.stopped || f.closer.Some? ==> closed) && (f.snapped ==> f.stopped)
    && (f.drained ==> f.snapped) && (f.done ==> f.drained)
  }

  ghost predicate Phases(closed: bool, f: Flags, procs: map<nat, Proc>) {
    && FlagsOk(closed, f)
    && (forall p :: p in procs ==> InPhase(closed, f, p, procs[p]))
  }

  ghost predicate Inv(c: Caps, s: System) {
    && Balanced(s.books, Owed(s.procs))
    && CapsHold(c, s.books)
    && KeysApart(s.books, s.procs)
    && Owners(s.procs, s.books.pending, s.f.lapsed)
    && Sessions(s.procs, s.books.sessions, s.f.snapped, s.nextId)
    && Phases(s.books.closed, s.f, s.procs)
  }

  // ---------- each part is kept by each step ----------

  lemma OwedBecome(procs: map<nat, Proc>, p: nat, proc: Proc)
    ensures Owed(procs[p := proc]) ==
            if Owes(proc) then Owed(procs)[p := OwedIp(proc)] else Owed(procs) - {p}
  {
  }

  lemma OwedSame(procs: map<nat, Proc>, p: nat, proc: Proc)
    requires !Owes(proc) && (p in procs ==> !Owes(procs[p]))
    ensures Owed(procs[p := proc]) == Owed(procs)
  {
    OwedBecome(procs, p, proc);
    assert p !in Owed(procs);
  }

  lemma DropBalanced(s: System, p: nat, ref: Ref, next: Proc)
    requires Balanced(s.books, Owed(s.procs))
    requires p in s.procs && !Owes(s.procs[p]) && !Owes(next)
    ensures var s' := DropStep(s, p, ref, next); Balanced(s'.books, Owed(s'.procs))
  {
    hide Balanced;
    if Holds(s.books, ref.key, ref.sess) {
      OwedBecome(s.procs, p, Releasing(ref.sess.ip, next));
      DetachBalanced(s.books, Owed(s.procs), ref.key, ref.sess, p);
    } else {
      OwedSame(s.procs, p, next);
    }
  }

  lemma ReserveBalance(c: Caps, s: System, p: nat)
    requires Balanced(s.books, Owed(s.procs)) && p in s.procs && s.procs[p].Reserving?
    ensures var s' := EndReserveStep(c, s, p, s.procs[p].key, s.procs[p].ip); Balanced(s'.books, Owed(s'.procs))
  {
    hide Balanced, Owed;
    var key, ip := s.procs[p].key, s.procs[p].ip;
    if Admits(c, s.books, key, ip) {
      ReserveBalanced(s.books, Owed(s.procs), key, ip);
      OwedSame(s.procs, p, Reserved(key, ip));
    } else {
      OwedSame(s.procs, p, ReadLoop);
    }
  }

  lemma BeginPromoteBalance(s: System, p: nat)
    requires Balanced(s.books, Owed(s.procs)) && p in s.procs && s.procs[p].Setup?
    requires s.procs[p].key in s.books.pending && s.books.pending[s.procs[p].key] == s.procs[p].ip
    ensures var s' := BeginPromoteStep(s, p, s.procs[p].key, s.procs[p].ip); Balanced(s'.books, Owed(s'.procs))
  {
    hide Balanced;
    var key, ip := s.procs[p].key, s.procs[p].ip;
    if s.books.closed {
      PendingReleasedBalanced(s.books, Owed(s.procs), key);
      OwedSame(s.procs, p, Abandon(key, ip));
    } else {
      assert p !in Owed(s.procs);
      UnpendBalanced(s.books, Owed(s.procs), key, p);
      OwedBecome(s.procs, p, Promoting(key, ip));
    }
  }

  lemma EndPromoteBalance(s: System, p: nat)
    requires Balanced(s.books, Owed(s.procs)) && p in s.procs && s.procs[p].Promoting?
    requires s.procs[p].key !in s.books.sessions
    ensures var s' := EndPromoteStep(s, p, s.procs[p].key, s.procs[p].ip); Balanced(s'.books, Owed(s'.procs))
  {
    hide Balanced;
    var key, ip := s.procs[p].key, s.procs[p].ip;
    OwedAt(s.procs, p);
    StoreBalanced(s.books, Owed(s.procs), key, Session(s.nextId, ip), p);
    OwedBecome(s.procs, p, Relay(key, Session(s.nextId, ip)));
  }

  lemma UndoBalance(s: System, p: nat)
    requires Balanced(s.books, Owed(s.procs)) && p in s.procs && s.procs[p].Abandon?
    requires s.procs[p].ip != ""
    ensures Balanced(PendingReleased(s.books, s.procs[p].key, s.procs[p].ip), Owed(s.procs[p := Exited]))
  {
    hide Balanced, Owed;
    if PendingIp(s.books, s.procs[p].key) == s.procs[p].ip {
      PendingReleasedBalanced(s.books, Owed(s.procs), s.procs[p].key);
    }
    OwedSame(s.procs, p, Exited);
  }

  lemma ReleaseBalance(s: System, p: nat)
    requires Balanced(s.books, Owed(s.procs)) && p in s.procs && s.procs[p].Releasing? && !Owes(s.procs[p].next)
    ensures Balanced(ReleaseCount(s.books, s.procs[p].owed), Owed(s.procs[p := s.procs[p].next]))
  {
    hide Balanced;
    OwedAt(s.procs, p);
    CountReleasedBalanced(s.books, Owed(s.procs), p);
    OwedBecome(s.procs, p, s.procs[p].next);
  }

  lemma BalanceKept(c: Caps, s: System, a: Action)
    requires Inv(c, s) && Enabled(s, a)
    ensures Balanced(Do(c, s, a).books, Owed(Do(c, s, a).procs))
  {
    hide Balanced, Owed, CapsHold, KeysApart, Sessions, Owners, Phases, BeginPromoteStep, EndPromoteStep, EndReserveStep,
         DropStep, PendingReleased, ReleaseCount, Ranged;
    match a {
      case StartLoops(p, q, r) =>
        OwedSame(s.procs, q, ReadLoop);
        OwedSame(s.procs[q := ReadLoop], r, Collector({}));
        OwedSame(s.procs[q := ReadLoop][r := Collector({})], p, Exited);
      case BeginReserve(p, key, ip) => OwedSame(s.procs, p, Reserving(key, ip));
      case EndReserve(p) => ReserveBalance(c, s, p);
      case Spawn(p, q) =>
        OwedSame(s.procs, q, Setup(s.procs[p].key, s.procs[p].ip));
        OwedSame(s.procs[q := Setup(s.procs[p].key, s.procs[p].ip)], p, ReadLoop);
      case BeginPromote(p) =>
        SetupPending(s, p);
        BeginPromoteBalance(s, p);
      case EndPromote(p) =>
        PromotingApart(s, p);
        EndPromoteBalance(s, p);
      case Undo(p) =>
        AbandonPending(s, p);
        UndoBalance(s, p);
      case RelayEnds(p) => DropBalanced(s, p, Ref(s.procs[p].key, s.procs[p].sess), Exited);
      case DropIdle(p, ref) => DropBalanced(s, p, ref, Collector(s.procs[p].stale - {ref}));
      case DropListed(p, ref) => DropBalanced(s, p, ref, Dropping(s.procs[p].refs - {ref}));
      case Release(p) =>
        Known(s, p);
        ReleaseBalance(s, p);
      case BeginShutdown(p) =>
        CloseBalanced(s.books, Owed(s.procs));
        OwedSame(s.procs, p, Closing);
      case _ => BalanceQuiet(c, s, a);
    }
  }

  // The remaining steps leave the books alone and move a goroutine that owes nothing.
  lemma BalanceQuiet(c: Caps, s: System, a: Action)
    requires Inv(c, s) && Enabled(s, a)
    requires a.StartTest? || a.ReadExit? || a.SetupFails? || a.SeeIdle? || a.CollectorExit? || a.StopListener?
             || a.BeginSnapshot? || a.Visit? || a.EndSnapshot? || a.AllDropped? || a.LoopsOver? || a.Finish?
    ensures Balanced(Do(c, s, a).books, Owed(Do(c, s, a).procs))
  {
    hide Balanced, Owed, CapsHold, KeysApart, Sessions, Owners, Phases, Ranged;
    OwedSame(s.procs, a.p, Do(c, s, a).procs[a.p]);
  }

  lemma PromotingApart(s: System, p: nat)
    requires KeysApart(s.books, s.procs) && p in s.procs && s.procs[p].Promoting?
    ensures s.procs[p].key !in s.books.pending && s.procs[p].key !in s.books.sessions
  {
    assert ApartFrom(s.books.pending, s.books.sessions, s.procs[p]);
  }

  lemma OwedAt(procs: map<nat, Proc>, p: nat)
    requires p in procs && Owes(procs[p])
    ensures p in Owed(procs) && Owed(procs)[p] == OwedIp(procs[p])
  {
  }

  lemma CloseBalanced<K(!new)>(a: Account, detached: map<K, string>)
    requires Balanced(a, detached)
    ensures Balanced(a.(closed := true), detached)
  {
  }

  lemma CapsReserve(c: Caps, a: Account, key: string, ip: string)
    requires CapsHold(c, a) && Admits(c, a, key, ip)
    ensures CapsHold(c, Reserve(a, key, ip))
  {
    CountAdd(a.pending, key, ip);
    forall j ensures PerIp(Reserve(a, key, ip), j) <= c.maxPerIp {
      assert PerIp(a, j) <= c.maxPerIp;
    }
  }

  lemma CapsRelease(c: Caps, a: Account, ip: string)
    requires CapsHold(c, a)
    ensures CapsHold(c, ReleaseCount(a, ip))
  {
    forall j ensures PerIp(ReleaseCount(a, ip), j) <= c.maxPerIp {
      assert PerIp(a, j) <= c.maxPerIp;
    }
  }

  lemma CapsUnpend(c: Caps, a: Account, key: string)
    requires CapsHold(c, a)
    ensures CapsHold(c, RemovePending(a, key))
  {
    assert (a.pending - {key}).Keys == a.pending.Keys - {key};
    forall j ensures PerIp(RemovePending(a, key), j) <= c.maxPerIp {
      assert PerIp(a, j) <= c.maxPerIp;
    }
  }

  lemma CapsElse(c: Caps, a: Account, closed: bool, sessions: map<string, Session>)
    requires CapsHold(c, a)
    ensures CapsHold(c, a.(closed := closed, sessions := sessions))
  {
    forall j ensures PerIp(a.(closed := closed, sessions := sessions), j) <= c.maxPerIp {
      assert PerIp(a, j) <= c.maxPerIp;
    }
  }

  // The remaining steps touch no count and no reservation.
  lemma CapsQuiet(c: Caps, s: System, a: Action)
    requires CapsHold(c, s.books) && Enabled(s, a)
    requires !a.EndReserve? && !a.BeginPromote? && !a.Undo? && !a.Release?
    ensures CapsHold(c, Do(c, s, a).books)
  {
    hide CapsHold;
    var b, b' := s.books, Do(c, s, a).books;
    assert b' == b.(closed := b'.closed, sessions := b'.sessions);
    CapsElse(c, b, b'.closed, b'.sessions);
  }

  lemma CapsKept(c: Caps, s: System, a: Action)
    requires CapsHold(c, s.books) && Enabled(s, a)
    ensures CapsHold(c, Do(c, s, a).books)
  {
    hide CapsHold, Reserve, ReleaseCount;
    var b := s.books;
    match a {
      case EndReserve(p) =>
        if Admits(c, b, s.procs[p].key, s.procs[p].ip) {
          CapsReserve(c, b, s.procs[p].key, s.procs[p].ip);
        }
      case BeginPromote(p) =>
        CapsUnpend(c, b, s.procs[p].key);
        CapsRelease(c, RemovePending(b, s.procs[p].key), s.procs[p].ip);
      case Undo(p) =>
        CapsUnpend(c, b, s.procs[p].key);
        CapsRelease(c, RemovePending(b, s.procs[p].key), s.procs[p].ip);
      case Release(p) => CapsRelease(c, b, s.procs[p].owed);
      case _ => CapsQuiet(c, s, a);
    }
  }

  // ---------- keys ----------

  lemma ApartElsewhere(a: Account, a': Account, procs: map<nat, Proc>, p: nat, proc: Proc)
    requires KeysApart(a, procs) && ApartFrom(a'.pending, a'.sessions, proc)
    requires a'.pending.Keys <= a.pending.Keys && a'.sessions.Keys <= a.sessions.Keys
    requires forall k :: k in a'.pending ==> a'.pending[k] == a.pending[k]
    ensures KeysApart(a', procs[p := proc])
  {
    forall q | q in procs && q != p ensures ApartFrom(a'.pending, a'.sessions, procs[q]) {
      assert ApartFrom(a.pending, a.sessions, procs[q]);
    }
  }

  // While p holds resourceMu nobody else is promoting.
  lemma OnlyHolderPromotes(s: System, p: nat, q: nat)
    requires Phases(s.books.closed, s.f, s.procs) && p in s.procs && q in s.procs && p != q && HoldsMu(s.procs[p])
    ensures !s.procs[q].Promoting? && !s.procs[q].Reserving?
  {
    assert InPhase(s.books.closed, s.f, p, s.procs[p]) && InPhase(s.books.closed, s.f, q, s.procs[q]);
  }

  lemma ReserveApart(c: Caps, s: System, p: nat)
    requires Inv(c, s) && Enabled(s, EndReserve(p))
    ensures var s' := Do(c, s, EndReserve(p)); KeysApart(s'.books, s'.procs)
  {
    hide Balanced, Sessions, CapsHold, Owners, Phases;
    var key, ip := s.procs[p].key, s.procs[p].ip;
    if Admits(c, s.books, key, ip) {
      var s' := Do(c, s, EndReserve(p));
      assert ApartFrom(s.books.pending, s.books.sessions, s.procs[p]);
      forall q | q in s'.procs ensures ApartFrom(s'.books.pending, s'.books.sessions, s'.procs[q]) {
        if q != p {
          OnlyHolderPromotes(s, p, q);
        }
      }
    } else {
      ApartElsewhere(s.books, s.books, s.procs, p, ReadLoop);
    }
  }

  lemma PromoteApart(c: Caps, s: System, p: nat)
    requires Inv(c, s) && Enabled(s, EndPromote(p))
    ensures var s' := Do(c, s, EndPromote(p)); KeysApart(s'.books, s'.procs)
  {
    hide Balanced, Sessions, CapsHold, Owners, Phases;
    PromotingApart(s, p);
    var s' := Do(c, s, EndPromote(p));
    forall q | q in s'.procs ensures ApartFrom(s'.books.pending, s'.books.sessions, s'.procs[q]) {
      if q != p {
        OnlyHolderPromotes(s, p, q);
      }
    }
  }

  lemma BeginPromoteApart(c: Caps, s: System, p: nat)
    requires Inv(c, s) && Enabled(s, BeginPromote(p))
    ensures var s' := Do(c, s, BeginPromote(p)); KeysApart(s'.books, s'.procs)
  {
    hide Balanced, Sessions, CapsHold, Owners, Phases;
    SetupPending(s, p);
    ApartElsewhere(s.books, Do(c, s, BeginPromote(p)).books, s.procs, p, Do(c, s, BeginPromote(p)).procs[p]);
  }

  lemma KeysKept(c: Caps, s: System, a: Action)
    requires Inv(c, s) && Enabled(s, a)
    ensures KeysApart(Do(c, s, a).books, Do(c, s, a).procs)
  {
    hide Balanced, Sessions, CapsHold, Owners, KeysApart, Phases;
    match a {
      case StartLoops(p, q, r) =>
        ApartElsewhere(s.books, s.books, s.procs, q, ReadLoop);
        ApartElsewhere(s.books, s.books, s.procs[q := ReadLoop], r, Collector({}));
        ApartElsewhere(s.books, s.books, s.procs[q := ReadLoop][r := Collector({})], p, Exited);
      case BeginReserve(p, key, ip) =>
        if ip != "" {
          ApartElsewhere(s.books, s.books, s.procs, p, Reserving(key, ip));
        }
      case EndReserve(p) => ReserveApart(c, s, p);
      case Spawn(p, q) =>
        var worker := Setup(s.procs[p].key, s.procs[p].ip);
        ApartElsewhere(s.books, s.books, s.procs, q, worker);
        ApartElsewhere(s.books, s.books, s.procs[q := worker], p, ReadLoop);
      case BeginPromote(p) => BeginPromoteApart(c, s, p);
      case EndPromote(p) => PromoteApart(c, s, p);
      case Release(p) =>
        Known(s, p);
        NextIsPlain(s, p);
        ApartElsewhere(s.books, Do(c, s, a).books, s.procs, p, s.procs[p].next);
      case _ => ApartElsewhere(s.books, Do(c, s, a).books, s.procs, a.p, Do(c, s, a).procs[a.p]);
    }
  }

  lemma NextIsPlain(s: System, p: nat)
    requires Phases(s.books.closed, s.f, s.procs) && p in s.procs && s.procs[p].Releasing?
    ensures !s.procs[p].next.Promoting? && !s.procs[p].next.Reserving?
  {
    assert InPhase(s.books.closed, s.f, p, s.procs[p]);
  }

  // ---------- phases ----------

  // Free for p to take, or its own.
  predicate Available(lock: Option<nat>, p: nat) {
    lock == None || lock == Some(p)
  }

  ghost predicate NobodyElse(procs: map<nat, Proc>, p: nat) {
    forall q :: q in procs && q != p ==> procs[q].Exited?
  }

  ghost predicate NoLoops(procs: map<nat, Proc>) {
    forall q :: q in procs ==> !InLoops(procs[q])
  }

  // A lock changes hands only through p, and a flag that is set shuts out no other goroutine.
  ghost predicate MovesOn(closed: bool, f: Flags, closed': bool, f': Flags, procs: map<nat, Proc>, p: nat) {
    && (closed ==> closed') && (f.stopped ==> f'.stopped) && (f.drained ==> f'.drained)
    && (f'.mu != f.mu ==> Available(f.mu, p))
    && (f'.smu != f.smu ==> Available(f.smu, p))
    && (f'.closer != f.closer ==> f.closer.None?)
    && (f'.lapsed != f.lapsed ==> Available(f.mu, p))
    && (f'.snapped != f.snapped ==> Available(f.mu, p))
    && (f'.stopped != f.stopped ==> Available(f.smu, p))
    && (f'.drained != f.drained ==> NoLoops(procs))
    && (f'.done != f.done ==> NobodyElse(procs, p))
  }

  lemma OthersStayInPhase(closed: bool, f: Flags, closed': bool, f': Flags, procs: map<nat, Proc>, p: nat, q: nat)
    requires q in procs && q != p && InPhase(closed, f, q, procs[q]) && MovesOn(closed, f, closed', f', procs, p)
    ensures InPhase(closed', f', q, procs[q])
  {
  }

  lemma PhasesMove(closed: bool, f: Flags, closed': bool, f': Flags, procs: map<nat, Proc>, p: nat, proc: Proc)
    requires Phases(closed, f, procs) && FlagsOk(closed', f') && InPhase(closed', f', p, proc)
    requires MovesOn(closed, f, closed', f', procs, p)
    ensures Phases(closed', f', procs[p := proc])
  {
    hide InPhase, MovesOn;
    forall q | q in procs && q != p ensures InPhase(closed', f', q, procs[q]) {
      OthersStayInPhase(closed, f, closed', f', procs, p, q);
    }
  }

  lemma FlagsOf(closed: bool, f: Flags, procs: map<nat, Proc>)
    requires Phases(closed, f, procs)
    ensures FlagsOk(closed, f)
  {
  }

  // p ends Shutdown when nothing of the server runs any more.
  lemma AllGone(s: System, p: nat)
    requires Phases(s.books.closed, s.f, s.procs) && Enabled(s, Finish(p))
    ensures NobodyElse(s.procs, p)
  {
    PhaseOf(s, p);
    forall q | q in s.procs && q != p ensures s.procs[q].Exited? {
      PhaseOf(s, q);
    }
  }

  lemma StartPhases(s: System, p: nat, q: nat, r: nat)
    requires Phases(s.books.closed, s.f, s.procs) && Enabled(s, StartLoops(p, q, r))
    ensures var f := s.f.(smu := None, started := true);
            Phases(s.books.closed, f, s.procs[q := ReadLoop][r := Collector({})][p := Exited])
  {
    hide Phases, MovesOn;
    var closed, f := s.books.closed, s.f;
    FlagsOf(closed, f, s.procs);
    PhaseOf(s, p);
    NotDrained(closed, f);
    Steady(closed, f, s.procs, q);
    PhasesMove(closed, f, closed, f, s.procs, q, ReadLoop);
    Steady(closed, f, s.procs[q := ReadLoop], r);
    PhasesMove(closed, f, closed, f, s.procs[q := ReadLoop], r, Collector({}));
    var f' := f.(smu := None, started := true);
    assert MovesOn(closed, f, closed, f', s.procs[q := ReadLoop][r := Collector({})], p) by {
      Unlocks(closed, f, s.procs[q := ReadLoop][r := Collector({})], p);
    }
    PhasesMove(closed, f, closed, f', s.procs[q := ReadLoop][r := Collector({})], p, Exited);
  }

  lemma NotDrained(closed: bool, f: Flags)
    requires FlagsOk(closed, f) && !f.stopped
    ensures !f.drained && !f.done
  {
  }

  lemma Steady(closed: bool, f: Flags, procs: map<nat, Proc>, p: nat)
    ensures MovesOn(closed, f, closed, f, procs, p)
  {
  }

  lemma Unlocks(closed: bool, f: Flags, procs: map<nat, Proc>, p: nat)
    requires f.smu == Some(p)
    ensures MovesOn(closed, f, closed, f.(smu := None, started := true), procs, p)
  {
  }

  // p moves within the flags as they are.
  lemma PhasesStep(closed: bool, f: Flags, procs: map<nat, Proc>, p: nat, proc: Proc)
    requires Phases(closed, f, procs) && InPhase(closed, f, p, proc)
    ensures Phases(closed, f, procs[p := proc])
  {
    hide InPhase;
  }

  lemma SpawnPhases(s: System, p: nat, q: nat)
    requires Phases(s.books.closed, s.f, s.procs) && Enabled(s, Spawn(p, q))
    ensures var worker := Setup(s.procs[p].key, s.procs[p].ip);
            Phases(s.books.closed, s.f, s.procs[q := worker][p := ReadLoop])
  {
    hide Phases;
    PhaseOf(s, p);
    var worker := Setup(s.procs[p].key, s.procs[p].ip);
    PhasesStep(s.books.closed, s.f, s.procs, q, worker);
    PhasesStep(s.books.closed, s.f, s.procs[q := worker], p, ReadLoop);
  }

  lemma DropPhases(s: System, p: nat, ref: Ref, next: Proc)
    requires Phases(s.books.closed, s.f, s.procs) && InPhase(s.books.closed, s.f, p, next)
    requires InPhase(s.books.closed, s.f, p, Releasing(ref.sess.ip, next))
    ensures var s' := DropStep(s, p, ref, next); Phases(s'.books.closed, s'.f, s'.procs)
  {
    hide Phases, InPhase;
    PhasesStep(s.books.closed, s.f, s.procs, p, next);
    PhasesStep(s.books.closed, s.f, s.procs, p, Releasing(ref.sess.ip, next));
  }

  lemma DropsInPhase(s: System, a: Action)
    requires Phases(s.books.closed, s.f, s.procs) && Enabled(s, a)
    requires a.RelayEnds? || a.DropIdle? || a.DropListed?
    ensures var next := if a.RelayEnds? then Exited else if a.DropIdle? then Collector(s.procs[a.p].stale - {a.ref})
                        else Dropping(s.procs[a.p].refs - {a.ref});
            var ip := if a.RelayEnds? then s.procs[a.p].sess.ip else a.ref.sess.ip;
            InPhase(s.books.closed, s.f, a.p, next) && InPhase(s.books.closed, s.f, a.p, Releasing(ip, next))
  {
    hide Phases;
    PhaseOf(s, a.p);
  }

  // Steps that leave the flags and closed alone.
  lemma PhasesQuiet(c: Caps, s: System, a: Action)
    requires Inv(c, s) && Enabled(s, a)
    requires a.Spawn? || a.ReadExit? || a.SetupFails? || a.Undo? || a.RelayEnds? || a.SeeIdle? || a.DropIdle?
             || a.CollectorExit? || a.Visit? || a.DropListed? || a.AllDropped? || a.Release?
    ensures Phases(Do(c, s, a).books.closed, Do(c, s, a).f, Do(c, s, a).procs)
  {
    hide Balanced, Sessions, CapsHold, Owners, KeysApart, Phases, ReleaseCount, DropStep;
    PhaseOf(s, a.p);
    if a.Spawn? {
      SpawnPhases(s, a.p, a.q);
    } else if a.RelayEnds? || a.DropIdle? || a.DropListed? {
      DropsKeepPhases(c, s, a);
    } else if a.Undo? || a.Release? {
      CountsKeepPhases(c, s, a);
    } else {
      PhasesStep(s.books.closed, s.f, s.procs, a.p, Do(c, s, a).procs[a.p]);
    }
  }

  lemma CountsKeepPhases(c: Caps, s: System, a: Action)
    requires Phases(s.books.closed, s.f, s.procs) && Enabled(s, a) && (a.Undo? || a.Release?)
    ensures Phases(Do(c, s, a).books.closed, Do(c, s, a).f, Do(c, s, a).procs)
  {
    hide Phases, ReleaseCount;
    PhaseOf(s, a.p);
    if a.Undo? {
      CountsOnly(RemovePending(s.books, s.procs[a.p].key), s.procs[a.p].ip);
    } else {
      CountsOnly(s.books, s.procs[a.p].owed);
    }
    PhasesStep(s.books.closed, s.f, s.procs, a.p, Do(c, s, a).procs[a.p]);
  }

  lemma DropsKeepPhases(c: Caps, s: System, a: Action)
    requires Phases(s.books.closed, s.f, s.procs) && Enabled(s, a)
    requires a.RelayEnds? || a.DropIdle? || a.DropListed?
    ensures Phases(Do(c, s, a).books.closed, Do(c, s, a).f, Do(c, s, a).procs)
  {
    hide Phases, DropStep, InPhase;
    DropsInPhase(s, a);
    if a.RelayEnds? {
      DropPhases(s, a.p, Ref(s.procs[a.p].key, s.procs[a.p].sess), Exited);
    } else if a.DropIdle? {
      DropPhases(s, a.p, a.ref, Collector(s.procs[a.p].stale - {a.ref}));
    } else {
      DropPhases(s, a.p, a.ref, Dropping(s.procs[a.p].refs - {a.ref}));
    }
  }

  lemma PhasesKept(c: Caps, s: System, a: Action)
    requires Inv(c, s) && Enabled(s, a)
    ensures Phases(Do(c, s, a).books.closed, Do(c, s, a).f, Do(c, s, a).procs)
  {
    hide Balanced, Sessions, CapsHold, Owners, KeysApart, Phases, Reserve, ReleaseCount, Ranged, Admits, DropStep;
    FlagsOf(s.books.closed, s.f, s.procs);
    match a {
      case StartLoops(p, q, r) => StartPhases(s, p, q, r);
      case Finish(p) =>
        AllGone(s, p);
        PhaseOf(s, p);
        PhasesMove(s.books.closed, s.f, s.books.closed, s.f.(done := true), s.procs, p, Exited);
      case BeginReserve(p, key, ip) => ReservePhases(c, s, a);
      case EndReserve(p) => ReservePhases(c, s, a);
      case BeginPromote(p) => PromotePhases(c, s, a);
      case EndPromote(p) => PromotePhases(c, s, a);
      case StartTest(p) => ClosingPhases(c, s, a);
      case BeginShutdown(p) => ClosingPhases(c, s, a);
      case StopListener(p) => ClosingPhases(c, s, a);
      case BeginSnapshot(p) => SnapshotPhases(c, s, a);
      case EndSnapshot(p) => SnapshotPhases(c, s, a);
      case LoopsOver(p) => SnapshotPhases(c, s, a);
      case _ => PhasesQuiet(c, s, a);
    }
  }

  lemma ReservePhases(c: Caps, s: System, a: Action)
    requires Inv(c, s) && Enabled(s, a) && (a.BeginReserve? || a.EndReserve?)
    ensures Phases(Do(c, s, a).books.closed, Do(c, s, a).f, Do(c, s, a).procs)
  {
    hide Balanced, Sessions, CapsHold, Owners, KeysApart, Phases, Ranged, Admits;
    var s' := Do(c, s, a);
    FlagsOf(s.books.closed, s.f, s.procs);
    PhaseOf(s, a.p);
    if s' != s {
      PhasesMove(s.books.closed, s.f, s.books.closed, s'.f, s.procs, a.p, s'.procs[a.p]);
    }
  }

  lemma PromotePhases(c: Caps, s: System, a: Action)
    requires Inv(c, s) && Enabled(s, a) && (a.BeginPromote? || a.EndPromote?)
    ensures Phases(Do(c, s, a).books.closed, Do(c, s, a).f, Do(c, s, a).procs)
  {
    hide Balanced, Sessions, CapsHold, Owners, KeysApart, Phases, Ranged, Admits;
    var s' := Do(c, s, a);
    FlagsOf(s.books.closed, s.f, s.procs);
    PhaseOf(s, a.p);
    PhasesMove(s.books.closed, s.f, s.books.closed, s'.f, s.procs, a.p, s'.procs[a.p]);
  }

  lemma ClosingPhases(c: Caps, s: System, a: Action)
    requires Inv(c, s) && Enabled(s, a)
    requires a.StartTest? || a.BeginShutdown? || a.StopListener?
    ensures Phases(Do(c, s, a).books.closed, Do(c, s, a).f, Do(c, s, a).procs)
  {
    hide Balanced, CapsHold, Owners, KeysApart, Phases, Ranged, Admits, Sessions;
    var s' := Do(c, s, a);
    FlagsOf(s.books.closed, s.f, s.procs);
    if a.p in s.procs {
      PhaseOf(s, a.p);
      Known(s, a.p);
    }
    PhasesMove(s.books.closed, s.f, s'.books.closed, s'.f, s.procs, a.p, s'.procs[a.p]);
  }

  lemma SnapshotPhases(c: Caps, s: System, a: Action)
    requires Inv(c, s) && Enabled(s, a)
    requires a.BeginSnapshot? || a.EndSnapshot? || a.LoopsOver?
    ensures Phases(Do(c, s, a).books.closed, Do(c, s, a).f, Do(c, s, a).procs)
  {
    hide Balanced, CapsHold, Owners, KeysApart, Phases, Ranged, Admits, Sessions;
    var s' := Do(c, s, a);
    FlagsOf(s.books.closed, s.f, s.procs);
    if a.p in s.procs {
      PhaseOf(s, a.p);
      Known(s, a.p);
    }
    PhasesMove(s.books.closed, s.f, s'.books.closed, s'.f, s.procs, a.p, s'.procs[a.p]);
  }

  lemma PhaseOf(s: System, p: nat)
    requires Phases(s.books.closed, s.f, s.procs) && p in s.procs
    ensures InPhase(s.books.closed, s.f, p, s.procs[p])
  {
  }

  // ---------- owners of reservations ----------

  lemma OwnersElsewhere(procs: map<nat, Proc>, pending: map<string, string>, lapsed: bool, p: nat, proc: Proc)
    requires Owners(procs, pending, lapsed) && !OwnsKey(proc) && (p in procs ==> !OwnsKey(procs[p]))
    ensures Owners(procs[p := proc], pending, lapsed)
  {
    forall k | k in pending ensures HasOwner(procs[p := proc], k) {
      var q :| q in procs && OwnsKey(procs[q]) && procs[q].key == k;
      assert procs[p := proc][q] == procs[q];
    }
  }

  lemma OwnersLapse(procs: map<nat, Proc>, pending: map<string, string>, lapsed: bool)
    requires Owners(procs, pending, lapsed)
    ensures Owners(procs, pending, true)
  {
    forall p | p in procs ensures OwnerFits(pending, true, procs[p]) {
      assert OwnerFits(pending, lapsed, procs[p]);
    }
  }

  // p moves on to another phase with the same reservation.
  lemma OwnersStay(procs: map<nat, Proc>, pending: map<string, string>, lapsed: bool, p: nat, proc: Proc)
    requires Owners(procs, pending, lapsed) && p in procs && SameKey(procs[p], proc) && procs[p].ip == proc.ip
    requires procs[p].Abandon? ==> proc.Abandon?
    requires procs[p].key in pending || proc.Abandon?
    ensures Owners(procs[p := proc], pending, lapsed)
  {
    hide HasOwner;
    assert OwnerFits(pending, lapsed, procs[p]);
    var after := procs[p := proc];
    forall q, r | q in after && r in after && SameKey(after[q], after[r]) ensures q == r {
      assert SameKey(procs[q], procs[r]);
    }
    forall k | k in pending ensures HasOwner(after, k) {
      OwnerMoves(procs, k, p, proc);
    }
  }

  lemma OwnerMoves(procs: map<nat, Proc>, k: string, p: nat, proc: Proc)
    requires HasOwner(procs, k) && p in procs && SameKey(procs[p], proc)
    ensures HasOwner(procs[p := proc], k)
  {
    var q :| q in procs && OwnsKey(procs[q]) && procs[q].key == k;
    assert procs[p := proc][q].key == k;
  }

  // The read loop hands its reservation to a new worker.
  lemma OwnersSpawn(procs: map<nat, Proc>, pending: map<string, string>, lapsed: bool, p: nat, q: nat)
    requires Owners(procs, pending, lapsed) && p in procs && procs[p].Reserved? && q !in procs
    ensures Owners(procs[q := Setup(procs[p].key, procs[p].ip)][p := ReadLoop], pending, lapsed)
  {
    hide HasOwner;
    var worker := Setup(procs[p].key, procs[p].ip);
    var after := procs[q := worker][p := ReadLoop];
    assert OwnerFits(pending, lapsed, procs[p]);
    assert forall r :: r in after && r != q && r != p ==> after[r] == procs[r];
    forall r, t | r in after && t in after && SameKey(after[r], after[t]) ensures r == t {
      assert r != q && r != p ==> (SameKey(procs[r], procs[p]) ==> r == p);
      assert t != q && t != p ==> (SameKey(procs[t], procs[p]) ==> t == p);
    }
    forall k | k in pending ensures HasOwner(after, k) {
      OwnerSpawns(procs, k, p, q);
    }
  }

  lemma OwnerSpawns(procs: map<nat, Proc>, k: string, p: nat, q: nat)
    requires HasOwner(procs, k) && p in procs && procs[p].Reserved? && q !in procs
    ensures HasOwner(procs[q := Setup(procs[p].key, procs[p].ip)][p := ReadLoop], k)
  {
    var after := procs[q := Setup(procs[p].key, procs[p].ip)][p := ReadLoop];
    var r :| r in procs && OwnsKey(procs[r]) && procs[r].key == k;
    if r == p {
      assert after[q].key == k;
    } else {
      assert after[r].key == k;
    }
  }

  // p's entry leaves the pending map.
  lemma OwnersLeave(procs: map<nat, Proc>, pending: map<string, string>, lapsed: bool, p: nat, proc: Proc)
    requires Owners(procs, pending, lapsed) && p in procs && OwnsKey(procs[p])
    requires OwnsKey(proc) ==> proc == Abandon(procs[p].key, procs[p].ip) && lapsed
    ensures Owners(procs[p := proc], pending - {procs[p].key}, lapsed)
  {
    hide HasOwner;
    var key, after, left := procs[p].key, procs[p := proc], pending - {procs[p].key};
    assert OwnerFits(pending, lapsed, procs[p]);
    forall q | q in after ensures OwnerFits(left, lapsed, after[q]) {
      if q != p {
        assert OwnerFits(pending, lapsed, procs[q]) && !SameKey(procs[q], procs[p]);
      }
    }
    forall q, r | q in after && r in after && SameKey(after[q], after[r]) ensures q == r {
      assert SameKey(procs[q], procs[r]);
    }
    forall k | k in left ensures HasOwner(after, k) {
      OwnerLeaves(procs, k, p, proc);
    }
  }

  lemma OwnerLeaves(procs: map<nat, Proc>, k: string, p: nat, proc: Proc)
    requires HasOwner(procs, k) && p in procs && OwnsKey(procs[p]) && procs[p].key != k
    ensures HasOwner(procs[p := proc], k)
  {
    var q :| q in procs && OwnsKey(procs[q]) && procs[q].key == k;
    assert procs[p := proc][q].key == k;
  }

  lemma OwnersJoin(procs: map<nat, Proc>, pending: map<string, string>, p: nat, key: string, ip: string)
    requires Owners(procs, pending, false) && (p in procs ==> !OwnsKey(procs[p]))
    requires ip != "" && key !in pending
    ensures Owners(procs[p := Reserved(key, ip)], pending[key := ip], false)
  {
    hide HasOwner;
    var after := procs[p := Reserved(key, ip)];
    forall q | q in procs ensures OwnsKey(procs[q]) ==> procs[q].key != key {
      assert OwnerFits(pending, false, procs[q]);
    }
    forall q | q in after ensures OwnerFits(pending[key := ip], false, after[q]) {
      if q != p {
        assert OwnerFits(pending, false, procs[q]);
      }
    }
    forall q, r | q in after && r in after && SameKey(after[q], after[r]) ensures q == r {
      if q != p && r != p {
        assert SameKey(procs[q], procs[r]);
      }
    }
    forall k | k in pending[key := ip] ensures HasOwner(after, k) {
      OwnerJoins(procs, k, p, Reserved(key, ip));
    }
  }

  lemma OwnerJoins(procs: map<nat, Proc>, k: string, p: nat, proc: Proc)
    requires OwnsKey(proc) && (p in procs ==> !OwnsKey(procs[p]))
    requires k == proc.key || HasOwner(procs, k)
    ensures HasOwner(procs[p := proc], k)
  {
    if k == proc.key {
      assert procs[p := proc][p].key == k;
    } else {
      var q :| q in procs && OwnsKey(procs[q]) && procs[q].key == k;
      assert procs[p := proc][q].key == k;
    }
  }

  lemma OwnersKept(c: Caps, s: System, a: Action)
    requires Inv(c, s) && Enabled(s, a)
    ensures Owners(Do(c, s, a).procs, Do(c, s, a).books.pending, Do(c, s, a).f.lapsed)
  {
    hide Balanced, Phases, CapsHold, Owners, KeysApart, Sessions, Reserve, ReleaseCount, Ranged, PendingReleased,
         EndReserveStep, BeginPromoteStep;
    var procs, pending, lapsed := s.procs, s.books.pending, s.f.lapsed;
    match a {
      case StartLoops(p, q, r) =>
        OwnersElsewhere(procs, pending, lapsed, q, ReadLoop);
        OwnersElsewhere(procs[q := ReadLoop], pending, lapsed, r, Collector({}));
        OwnersElsewhere(procs[q := ReadLoop][r := Collector({})], pending, lapsed, p, Exited);
      case BeginReserve(p, key, ip) => OwnersElsewhere(procs, pending, lapsed, p, Reserving(key, ip));
      case EndReserve(p) => ReserveOwners(c, s, p);
      case Spawn(p, q) => OwnersSpawn(procs, pending, lapsed, p, q);
      case SetupFails(p) =>
        SetupPending(s, p);
        OwnersStay(procs, pending, lapsed, p, Abandon(procs[p].key, procs[p].ip));
      case BeginPromote(p) => BeginPromoteOwners(c, s, p);
      case Undo(p) => UndoOwners(s, p);
      case Release(p) =>
        Known(s, p);
        CountsOnly(s.books, procs[p].owed);
        OwnersElsewhere(procs, pending, lapsed, p, procs[p].next);
      case _ => OwnersQuiet(c, s, a);
    }
  }

  lemma UndoOwners(s: System, p: nat)
    requires Owners(s.procs, s.books.pending, s.f.lapsed) && Enabled(s, Undo(p))
    ensures Owners(s.procs[p := Exited], PendingReleased(s.books, s.procs[p].key, s.procs[p].ip).pending, s.f.lapsed)
  {
    hide Owners, ReleaseCount;
    AbandonPending(s, p);
    CountsOnly(RemovePending(s.books, s.procs[p].key), s.procs[p].ip);
    OwnersLeave(s.procs, s.books.pending, s.f.lapsed, p, Exited);
  }

  lemma ReserveOwners(c: Caps, s: System, p: nat)
    requires Inv(c, s) && Enabled(s, EndReserve(p))
    ensures var s' := Do(c, s, EndReserve(p)); Owners(s'.procs, s'.books.pending, s'.f.lapsed)
  {
    hide Balanced, Phases, CapsHold, Owners, Sessions;
    var key, ip := s.procs[p].key, s.procs[p].ip;
    PhaseOf(s, p);
    assert ApartFrom(s.books.pending, s.books.sessions, s.procs[p]);
    if Admits(c, s.books, key, ip) {
      OwnersJoin(s.procs, s.books.pending, p, key, ip);
    } else {
      OwnersElsewhere(s.procs, s.books.pending, s.f.lapsed, p, ReadLoop);
    }
  }

  lemma BeginPromoteOwners(c: Caps, s: System, p: nat)
    requires Inv(c, s) && Enabled(s, BeginPromote(p))
    ensures var s' := Do(c, s, BeginPromote(p)); Owners(s'.procs, s'.books.pending, s'.f.lapsed)
  {
    hide Balanced, Phases, CapsHold, Owners, Sessions, KeysApart, ReleaseCount;
    SetupPending(s, p);
    var key, ip := s.procs[p].key, s.procs[p].ip;
    if s.books.closed {
      OwnersLapse(s.procs, s.books.pending, s.f.lapsed);
      OwnersLeave(s.procs, s.books.pending, true, p, Abandon(key, ip));
      assert ReleaseCount(RemovePending(s.books, key), ip).pending == s.books.pending - {key} by {
        CountsOnly(RemovePending(s.books, key), ip);
      }
    } else {
      OwnersLeave(s.procs, s.books.pending, s.f.lapsed, p, Promoting(key, ip));
    }
  }

  lemma CountsOnly(a: Account, ip: string)
    ensures ReleaseCount(a, ip) == a.(reserved := ReleaseCount(a, ip).reserved, perIp := ReleaseCount(a, ip).perIp)
  {
  }

  // The remaining steps concern goroutines without a reservation.
  lemma OwnersQuiet(c: Caps, s: System, a: Action)
    requires Inv(c, s) && Enabled(s, a)
    requires !a.StartLoops? && !a.BeginReserve? && !a.EndReserve? && !a.Spawn? && !a.SetupFails? && !a.BeginPromote?
             && !a.Undo? && !a.Release?
    ensures Owners(Do(c, s, a).procs, Do(c, s, a).books.pending, Do(c, s, a).f.lapsed)
  {
    hide Balanced, Phases, CapsHold, Owners, KeysApart, Sessions, Ranged;
    OwnersElsewhere(s.procs, s.books.pending, s.f.lapsed, a.p, Do(c, s, a).procs[a.p]);
  }

  lemma SetupPending(s: System, p: nat)
    requires Owners(s.procs, s.books.pending, s.f.lapsed) && p in s.procs && s.procs[p].Setup?
    ensures s.procs[p].key in s.books.pending && s.books.pending[s.procs[p].key] == s.procs[p].ip
  {
    assert OwnerFits(s.books.pending, s.f.lapsed, s.procs[p]);
  }

  lemma AbandonPending(s: System, p: nat)
    requires Owners(s.procs, s.books.pending, s.f.lapsed) && p in s.procs && s.procs[p].Abandon?
    ensures s.procs[p].ip != ""
    ensures s.procs[p].key in s.books.pending ==> s.books.pending[s.procs[p].key] == s.procs[p].ip
    ensures s.procs[p].key !in s.books.pending ==> s.books.pending == s.books.pending - {s.procs[p].key}
  {
    assert OwnerFits(s.books.pending, s.f.lapsed, s.procs[p]);
  }

  // ---------- live sessions ----------

  predicate Shrinks(before: map<string, Session>, after: map<string, Session>) {
    forall k :: k in after ==> k in before && after[k] == before[k]
  }

  lemma KnownStays(before: map<string, Session>, after: map<string, Session>, snapped: bool, id: nat, id': nat,
                   proc: Proc)
    requires KnownProc(before, snapped, id, proc) && id <= id'
    requires snapped ==> Shrinks(before, after)
    ensures KnownProc(after, snapped, id', proc)
  {
    if proc.Waiting? || proc.Draining? {
      assert after.Keys == {};
    } else if proc.Releasing? {
      KnownStays(before, after, snapped, id, id', proc.next);
    }
  }

  lemma KnownSnap(sessions: map<string, Session>, snapped: bool, id: nat, proc: Proc)
    requires KnownProc(sessions, snapped, id, proc)
    ensures KnownProc(sessions, true, id, proc)
  {
    if proc.Releasing? {
      KnownSnap(sessions, snapped, id, proc.next);
    }
  }

  lemma RelayElsewhere(procs: map<nat, Proc>, key: string, sess: Session, p: nat, proc: Proc)
    requires HasRelay(procs, key, sess) && (p in procs ==> procs[p] != Relay(key, sess))
    ensures HasRelay(procs[p := proc], key, sess)
  {
    var q :| q in procs && procs[q] == Relay(key, sess);
    assert procs[p := proc][q] == Relay(key, sess);
  }

  // p takes a step; sessions may shrink, but not below p's own relay.
  lemma SessionsElsewhere(procs: map<nat, Proc>, before: map<string, Session>, after: map<string, Session>,
                          snapped: bool, id: nat, id': nat, p: nat, proc: Proc)
    requires Sessions(procs, before, snapped, id) && Shrinks(before, after) && id <= id'
    requires p in procs && procs[p].Relay? ==> procs[p].key !in after || after[procs[p].key] != procs[p].sess
    requires KnownProc(after, snapped, id', proc)
    ensures Sessions(procs[p := proc], after, snapped, id')
  {
    hide HasRelay, KnownProc;
    var procs' := procs[p := proc];
    forall k | k in after ensures HasRelay(procs', k, after[k]) {
      RelayElsewhere(procs, k, after[k], p, proc);
    }
    forall q | q in procs' ensures KnownProc(after, snapped, id', procs'[q]) {
      if q != p {
        KnownStays(before, after, snapped, id, id', procs[q]);
      }
    }
  }

  lemma SessionsPromote(procs: map<nat, Proc>, sessions: map<string, Session>, id: nat, p: nat, key: string,
                        sess: Session)
    requires Sessions(procs, sessions, false, id) && p in procs && !procs[p].Relay? && sess.id == id
    ensures Sessions(procs[p := Relay(key, sess)], sessions[key := sess], false, id + 1)
  {
    hide HasRelay, KnownProc;
    var after, live := procs[p := Relay(key, sess)], sessions[key := sess];
    forall k | k in live ensures HasRelay(after, k, live[k]) {
      if k == key {
        OwnRelay(after, p);
      } else {
        RelayElsewhere(procs, k, live[k], p, Relay(key, sess));
      }
    }
    forall q | q in after ensures KnownProc(live, false, id + 1, after[q]) {
      if q != p {
        KnownStays(sessions, live, false, id, id + 1, procs[q]);
      } else {
        OwnKnown(live, id + 1, key, sess);
      }
    }
  }

  lemma OwnRelay(procs: map<nat, Proc>, p: nat)
    requires p in procs && procs[p].Relay?
    ensures HasRelay(procs, procs[p].key, procs[p].sess)
  {
  }

  lemma OwnKnown(sessions: map<string, Session>, id: nat, key: string, sess: Session)
    requires sess.id < id
    ensures KnownProc(sessions, false, id, Relay(key, sess))
  {
  }

  lemma SessionsSnap(procs: map<nat, Proc>, sessions: map<string, Session>, snapped: bool, id: nat)
    requires Sessions(procs, sessions, snapped, id)
    ensures Sessions(procs, sessions, true, id)
  {
    forall p | p in procs ensures KnownProc(sessions, true, id, procs[p]) {
      KnownSnap(sessions, snapped, id, procs[p]);
    }
  }

  lemma SessionsDrop(s: System, p: nat, ref: Ref, next: Proc)
    requires Sessions(s.procs, s.books.sessions, s.f.snapped, s.nextId) && p in s.procs
    requires !Owes(next) && !OwnsKey(next)
    requires s.procs[p].Relay? ==> s.procs[p] == Relay(ref.key, ref.sess)
    requires var s' := DropStep(s, p, ref, next); KnownProc(s'.books.sessions, s.f.snapped, s.nextId, next)
    ensures var s' := DropStep(s, p, ref, next);
            Sessions(s'.procs, s'.books.sessions, s'.f.snapped, s'.nextId)
  {
    hide Sessions;
    var s' := DropStep(s, p, ref, next);
    assert Shrinks(s.books.sessions, s'.books.sessions);
    assert KnownProc(s'.books.sessions, s.f.snapped, s.nextId, s'.procs[p]);
    hide KnownProc;
    SessionsElsewhere(s.procs, s.books.sessions, s'.books.sessions, s.f.snapped, s.nextId, s.nextId, p,
                      s'.procs[p]);
  }

  lemma StartSessions(s: System, p: nat, q: nat, r: nat)
    requires Sessions(s.procs, s.books.sessions, s.f.snapped, s.nextId) && Enabled(s, StartLoops(p, q, r))
    ensures Sessions(s.procs[q := ReadLoop][r := Collector({})][p := Exited], s.books.sessions, s.f.snapped, s.nextId)
  {
    hide Sessions, HasRelay;
    var procs, live, snapped, id := s.procs, s.books.sessions, s.f.snapped, s.nextId;
    SessionsElsewhere(procs, live, live, snapped, id, id, q, ReadLoop);
    SessionsElsewhere(procs[q := ReadLoop], live, live, snapped, id, id, r, Collector({}));
    SessionsElsewhere(procs[q := ReadLoop][r := Collector({})], live, live, snapped, id, id, p, Exited);
  }

  lemma SpawnSessions(s: System, p: nat, q: nat)
    requires Sessions(s.procs, s.books.sessions, s.f.snapped, s.nextId) && Enabled(s, Spawn(p, q))
    ensures var worker := Setup(s.procs[p].key, s.procs[p].ip);
            Sessions(s.procs[q := worker][p := ReadLoop], s.books.sessions, s.f.snapped, s.nextId)
  {
    hide Sessions, HasRelay;
    var procs, live, snapped, id := s.procs, s.books.sessions, s.f.snapped, s.nextId;
    var worker := Setup(procs[p].key, procs[p].ip);
    SessionsElsewhere(procs, live, live, snapped, id, id, q, worker);
    SessionsElsewhere(procs[q := worker], live, live, snapped, id, id, p, ReadLoop);
  }

  lemma SnapshotKnown(sessions: map<string, Session>, snapped: bool, id: nat, refs: set<Ref>)
    requires KnownProc(sessions, snapped, id, Snapping(refs)) && Ranged(sessions, refs)
    ensures KnownProc(sessions, true, id, Dropping(refs))
  {
    hide Ranged;
  }

  lemma SnapshotSessions(s: System, p: nat)
    requires Sessions(s.procs, s.books.sessions, s.f.snapped, s.nextId)
    requires p in s.procs && s.procs[p].Snapping? && Ranged(s.books.sessions, s.procs[p].refs)
    ensures Sessions(s.procs[p := Dropping(s.procs[p].refs)], s.books.sessions, true, s.nextId)
  {
    Known(s, p);
    SnapshotKnown(s.books.sessions, s.f.snapped, s.nextId, s.procs[p].refs);
    hide Sessions, HasRelay, Ranged, KnownProc;
    SessionsSnap(s.procs, s.books.sessions, s.f.snapped, s.nextId);
    SessionsElsewhere(s.procs, s.books.sessions, s.books.sessions, true, s.nextId, s.nextId, p,
                      Dropping(s.procs[p].refs));
  }

  lemma SessionsKept(c: Caps, s: System, a: Action)
    requires Inv(c, s) && Enabled(s, a)
    ensures var s' := Do(c, s, a); Sessions(s'.procs, s'.books.sessions, s'.f.snapped, s'.nextId)
  {
    hide Balanced, Phases, CapsHold, Sessions, Owners, KeysApart, Reserve, ReleaseCount, DropStep, Ranged, Shrinks,
         HasRelay, BeginReserveStep, EndReserveStep, BeginPromoteStep;
    var procs, live, snapped, id := s.procs, s.books.sessions, s.f.snapped, s.nextId;
    match a {
      case StartLoops(p, q, r) => StartSessions(s, p, q, r);
      case Spawn(p, q) => SpawnSessions(s, p, q);
      case EndPromote(p) =>
        PhaseOf(s, p);
        SessionsPromote(procs, live, id, p, procs[p].key, Session(id, procs[p].ip));
      case RelayEnds(p) => SessionsDrop(s, p, Ref(procs[p].key, procs[p].sess), Exited);
      case DropIdle(p, ref) => DropIdleSessions(s, p, ref);
      case DropListed(p, ref) => DropListedSessions(s, p, ref);
      case EndSnapshot(p) => SnapshotSessions(s, p);
      case BeginReserve(_, _, _) => SessionsUnderLock(c, s, a);
      case EndReserve(_) => SessionsUnderLock(c, s, a);
      case BeginPromote(_) => SessionsUnderLock(c, s, a);
      case Undo(_) => SessionsUnderLock(c, s, a);
      case Release(_) => SessionsUnderLock(c, s, a);
      case _ => SessionsQuiet(c, s, a);
    }
  }

  lemma DropIdleSessions(s: System, p: nat, ref: Ref)
    requires Sessions(s.procs, s.books.sessions, s.f.snapped, s.nextId) && Enabled(s, DropIdle(p, ref))
    ensures var s' := DropStep(s, p, ref, Collector(s.procs[p].stale - {ref}));
            Sessions(s'.procs, s'.books.sessions, s'.f.snapped, s'.nextId)
  {
    Known(s, p);
    hide Sessions, HasRelay, DropStep;
    SessionsDrop(s, p, ref, Collector(s.procs[p].stale - {ref}));
  }

  lemma DropListedSessions(s: System, p: nat, ref: Ref)
    requires Sessions(s.procs, s.books.sessions, s.f.snapped, s.nextId) && Enabled(s, DropListed(p, ref))
    ensures var s' := DropStep(s, p, ref, Dropping(s.procs[p].refs - {ref}));
            Sessions(s'.procs, s'.books.sessions, s'.f.snapped, s'.nextId)
  {
    Known(s, p);
    DropListedKnown(s, p, ref);
    hide Sessions, HasRelay, DropStep, KnownProc;
    SessionsDrop(s, p, ref, Dropping(s.procs[p].refs - {ref}));
  }

  lemma DropListedKnown(s: System, p: nat, ref: Ref)
    requires p in s.procs && s.procs[p].Dropping? && KnownProc(s.books.sessions, s.f.snapped, s.nextId, s.procs[p])
    ensures var next := Dropping(s.procs[p].refs - {ref});
            KnownProc(DropStep(s, p, ref, next).books.sessions, s.f.snapped, s.nextId, next)
  {
  }

  // Steps on the books that leave the session map alone.
  lemma SessionsUnderLock(c: Caps, s: System, a: Action)
    requires Inv(c, s) && Enabled(s, a)
    requires a.BeginReserve? || a.EndReserve? || a.BeginPromote? || a.Undo? || a.Release?
    ensures var s' := Do(c, s, a); Sessions(s'.procs, s'.books.sessions, s'.f.snapped, s'.nextId)
  {
    hide Balanced, Phases, CapsHold, Sessions, Owners, KeysApart, ReleaseCount, Admits, HasRelay;
    var s', p := Do(c, s, a), a.p;
    var live, snapped, id := s.books.sessions, s.f.snapped, s.nextId;
    Known(s, p);
    if a.BeginPromote? || a.Undo? {
      CountsOnly(RemovePending(s.books, s.procs[p].key), s.procs[p].ip);
    } else if a.Release? {
      CountsOnly(s.books, s.procs[p].owed);
    }
    if s' != s {
      SessionsElsewhere(s.procs, live, live, snapped, id, id, p, s'.procs[p]);
    }
  }

  // The remaining steps leave the books alone.
  lemma SessionsQuiet(c: Caps, s: System, a: Action)
    requires Inv(c, s) && Enabled(s, a)
    requires a.StartTest? || a.ReadExit? || a.SetupFails? || a.SeeIdle? || a.CollectorExit? || a.BeginShutdown?
             || a.StopListener? || a.BeginSnapshot? || a.Visit? || a.AllDropped? || a.LoopsOver? || a.Finish?
    ensures var s' := Do(c, s, a); Sessions(s'.procs, s'.books.sessions, s'.f.snapped, s'.nextId)
  {
    hide Balanced, Phases, CapsHold, Sessions, Owners, KeysApart, HasRelay;
    var s', p := Do(c, s, a), a.p;
    var live, snapped, id := s.books.sessions, s.f.snapped, s.nextId;
    if p in s.procs {
      Known(s, p);
    }
    if a.SeeIdle? || a.Visit? {
      LiveKnown(s, a.key);
    } else if a.AllDropped? {
      assert live.Keys == {};
    }
    SessionsElsewhere(s.procs, live, live, snapped, id, id, p, s'.procs[p]);
  }

  lemma Known(s: System, p: nat)
    requires Sessions(s.procs, s.books.sessions, s.f.snapped, s.nextId) && p in s.procs
    ensures KnownProc(s.books.sessions, s.f.snapped, s.nextId, s.procs[p])
  {
  }

  lemma LiveKnown(s: System, key: string)
    requires Sessions(s.procs, s.books.sessions, s.f.snapped, s.nextId) && key in s.books.sessions
    ensures s.books.sessions[key].id < s.nextId
  {
  }

  // ---------- over whole runs ----------

  lemma StepKeepsInv(c: Caps, s: System, a: Action)
    requires Inv(c, s) && Enabled(s, a)
    ensures Inv(c, Do(c, s, a))
  {
    hide Balanced, CapsHold, KeysApart, Owners, Sessions, Phases;
    BalanceKept(c, s, a);
    CapsKept(c, s, a);
    KeysKept(c, s, a);
    OwnersKept(c, s, a);
    SessionsKept(c, s, a);
    PhasesKept(c, s, a);
  }

  lemma InitInv(c: Caps, s: System)
    requires Init(s)
    ensures Inv(c, s)
  {
    assert Owed(s.procs) == map[];
    CountEmpty(s.books.pending);
    CountEmpty(Ips(s.books.sessions));
    CountEmpty(Owed(s.procs));
  }

  lemma {:induction false} RunInv(c: Caps, run: seq<System>, i: nat)
    requires Run(c, run) && i < |run|
    ensures Inv(c, run[i])
  {
    hide Inv, Init;
    if i == 0 {
      InitInv(c, run[0]);
    } else {
      RunInv(c, run, i - 1);
      assert Step(c, run[i - 1], run[i - 1 + 1]);
      var a :| Enabled(run[i - 1], a) && run[i] == Do(c, run[i - 1], a);
      StepKeepsInv(c, run[i - 1], a);
    }
  }

  /** In every reachable state the books balance, the key spaces are disjoint and all three caps hold. */
  lemma ReachableBooks(c: Caps, run: seq<System>, i: nat)
    requires Run(c, run) && i < |run|
    ensures Balanced(run[i].books, Owed(run[i].procs))
    ensures CapsHold(c, run[i].books)
    ensures run[i].books.pending.Keys !! run[i].books.sessions.Keys
  {
    hide Run, Balanced, Owners, Sessions, Phases;
    RunInv(c, run, i);
  }

  /** Whenever a count is given back it is there: the reserved > 0 guard never stops an underflow. */
  lemma ReleaseNeverUnderflows(c: Caps, run: seq<System>, i: nat, p: nat)
    requires Run(c, run) && i < |run| && p in run[i].procs
    ensures var s, proc := run[i], run[i].procs[p];
            && (Owes(proc) ==> s.books.reserved > 0 && PerIp(s.books, OwedIp(proc)) > 0)
            && (OwnsKey(proc) && proc.key in s.books.pending ==>
                  s.books.pending[proc.key] == proc.ip && s.books.reserved > 0 && PerIp(s.books, proc.ip) > 0)
  {
    hide Run, Balanced, CapsHold, Sessions, Phases, HasOwner;
    RunInv(c, run, i);
    var s, proc := run[i], run[i].procs[p];
    if Owes(proc) {
      OwedAt(s.procs, p);
      CountReleasedBalanced(s.books, Owed(s.procs), p);
    }
    if OwnsKey(proc) && proc.key in s.books.pending {
      assert OwnerFits(s.books.pending, s.f.lapsed, proc);
      PendingReleasedBalanced(s.books, Owed(s.procs), proc.key);
    }
  }

  // ---------- who is let in ----------

  /** In every reachable state the first test of a reservation passes exactly on an open server and a named client and
      address, and the second fails exactly when the client is known or one of the three counts of what is pending,
      live or still owed is at its cap; then nothing has changed. */
  lemma ReservationAnswered(c: Caps, run: seq<System>, i: nat, p: nat, key: string, ip: string)
    requires Run(c, run) && i < |run|
    ensures Enabled(run[i], BeginReserve(p, key, ip)) ==>
              (ProcOf(Do(c, run[i], BeginReserve(p, key, ip)), p) == Reserving(key, ip)
               <==> !run[i].books.closed && key != "" && ip != "")
    ensures ProcOf(run[i], p) == Reserving(key, ip) ==>
              var s, a := Do(c, run[i], EndReserve(p)), run[i].books;
              if key in a.pending || key in a.sessions
                 || |a.pending| >= c.maxSetups
                 || |a.pending| + |a.sessions| + |Owed(run[i].procs)| >= c.maxSessions
                 || CountAt(a.pending, ip) + CountAt(Ips(a.sessions), ip) + CountAt(Owed(run[i].procs), ip) >= c.maxPerIp
              then s.procs[p] == ReadLoop && s.books == a
              else s.procs[p] == Reserved(key, ip) && s.books.pending == a.pending[key := ip]
                   && s.books.sessions == a.sessions
  {
    hide Run, Owners, Sessions, Phases, CapsHold, KeysApart, CountAt, Ips, Owed;
    RunInv(c, run, i);
    var a := run[i].books;
    assert PerIp(a, ip) == CountAt(a.pending, ip) + CountAt(Ips(a.sessions), ip) + CountAt(Owed(run[i].procs), ip);
  }

  /** A set-up that asks for its promotion still has its reservation, and gets it unless the server has closed; either way
      the reservation is gone, and what the second half stores is its session and no other. */
  lemma PromotionAnswered(c: Caps, run: seq<System>, i: nat, p: nat)
    requires Run(c, run) && i < |run|
    ensures ProcOf(run[i], p).Setup? && run[i].f.mu.None? ==>
              var s, key, ip := Do(c, run[i], BeginPromote(p)), run[i].procs[p].key, run[i].procs[p].ip;
              && s.procs[p] == (if run[i].books.closed then Abandon(key, ip) else Promoting(key, ip))
              && key in run[i].books.pending && s.books.pending == run[i].books.pending - {key}
              && s.books.sessions == run[i].books.sessions
    ensures ProcOf(run[i], p).Promoting? ==>
              var s, key, sess := Do(c, run[i], EndPromote(p)), run[i].procs[p].key, Session(run[i].nextId, run[i].procs[p].ip);
              && s.procs[p] == Relay(key, sess) && key !in run[i].books.sessions
              && s.books.sessions == run[i].books.sessions[key := sess] && s.books.pending == run[i].books.pending
  {
    hide Run, Sessions, Phases, CapsHold, Balanced, HasOwner;
    RunInv(c, run, i);
    if ProcOf(run[i], p).Setup? {
      SetupPending(run[i], p);
    }
    if ProcOf(run[i], p).Promoting? {
      PromotingApart(run[i], p);
    }
  }

  // ---------- shutdown ----------

  // Only the second half of a promotion adds a session.
  lemma OthersOnlyShrink(c: Caps, s: System, a: Action)
    requires Enabled(s, a) && !a.EndPromote?
    ensures Shrinks(s.books.sessions, Do(c, s, a).books.sessions) && (s.f.snapped ==> Do(c, s, a).f.snapped)
  {
    hide Reserve, ReleaseCount, Ranged, Admits;
    if a.BeginPromote? || a.Undo? {
      CountsOnly(RemovePending(s.books, s.procs[a.p].key), s.procs[a.p].ip);
    } else if a.Release? {
      CountsOnly(s.books, s.procs[a.p].owed);
    } else if a.EndReserve? {
      ReserveOnly(s.books, s.procs[a.p].key, s.procs[a.p].ip);
    }
  }

  lemma StepAfterSnapshot(c: Caps, s: System, a: Action)
    requires Inv(c, s) && Enabled(s, a) && s.f.snapped
    ensures Do(c, s, a).f.snapped && Shrinks(s.books.sessions, Do(c, s, a).books.sessions)
  {
    hide Balanced, CapsHold, KeysApart, Owners, Sessions, Phases, Do, Shrinks;
    if a.EndPromote? {
      PhaseOf(s, a.p);
    } else {
      OthersOnlyShrink(c, s, a);
    }
  }

  lemma StepOf(c: Caps, run: seq<System>, j: nat) returns (a: Action)
    requires Run(c, run) && 0 < j < |run|
    ensures Enabled(run[j - 1], a) && run[j] == Do(c, run[j - 1], a)
  {
    hide Init, Enabled, Do;
    assert Step(c, run[j - 1], run[j - 1 + 1]);
    a :| Enabled(run[j - 1], a) && run[j] == Do(c, run[j - 1], a);
  }

  lemma ShrinksTwice(x: map<string, Session>, y: map<string, Session>, z: map<string, Session>)
    requires Shrinks(x, y) && Shrinks(y, z)
    ensures Shrinks(x, z)
  {
  }

  ghost predicate OnlyShrunk(s: System, s': System) {
    s'.f.snapped && Shrinks(s.books.sessions, s'.books.sessions)
  }

  lemma ShrunkTwice(s: System, s': System, s'': System)
    requires OnlyShrunk(s, s') && OnlyShrunk(s', s'')
    ensures OnlyShrunk(s, s'')
  {
    ShrinksTwice(s.books.sessions, s'.books.sessions, s''.books.sessions);
  }

  lemma ShrunkStill(s: System)
    requires s.f.snapped
    ensures OnlyShrunk(s, s)
  {
  }

  lemma {:induction false} ShrunkThroughout(c: Caps, run: seq<System>, i: nat, j: nat)
    requires Run(c, run) && i <= j < |run| && run[i].f.snapped
    ensures OnlyShrunk(run[i], run[j])
    decreases j - i
  {
    hide Run, Inv, Enabled, Do, Shrinks;
    if i == j {
      ShrunkStill(run[i]);
    } else {
      ShrunkThroughout(c, run, i, j - 1);
      RunInv(c, run, j - 1);
      var a := StepOf(c, run, j);
      StepAfterSnapshot(c, run[j - 1], a);
      ShrunkTwice(run[i], run[j - 1], run[j]);
    }
  }

  /** Once the shutdown snapshot is taken no session is ever added. A promotion that had passed its closed test before
      closed was set still stores its session, but it holds resourceMu until it has, and the snapshot waits for that. */
  lemma NoneAddedAfterSnapshot(c: Caps, run: seq<System>, i: nat, j: nat)
    requires Run(c, run) && i <= j < |run| && run[i].f.snapped
    ensures run[j].f.snapped && Shrinks(run[i].books.sessions, run[j].books.sessions)
  {
    hide Run;
    ShrunkThroughout(c, run, i, j);
  }

  lemma Extend(c: Caps, run: seq<System>, a: Action) returns (longer: seq<System>)
    requires run != [] && Run(c, run) && Enabled(run[|run| - 1], a)
    ensures longer == run + [Do(c, run[|run| - 1], a)] && Run(c, longer)
  {
    hide Init, Enabled, Do;
    longer := run + [Do(c, run[|run| - 1], a)];
    forall i | 0 <= i < |longer| - 1 ensures Step(c, longer[i], longer[i + 1]) {
      if i < |run| - 1 {
        assert Step(c, run[i], run[i + 1]);
      } else {
        assert longer[i] == run[|run| - 1] && Enabled(longer[i], a);
      }
    }
  }

  /** closed alone does not stop promotions: a run in which a session is stored after it is set. */
  lemma PromotionCrossesClose(c: Caps) returns (run: seq<System>)
    requires c.maxSetups > 0 && c.maxSessions > 0 && c.maxPerIp > 0
    ensures Run(c, run) && |run| == 9
    ensures run[7].books.closed && run[7].books.sessions == map[] && run[8].books.sessions.Keys == {"k"}
  {
    run := ReachesPromoting(c);
    run := Extend(c, run, BeginShutdown(9));
    hide Run;
    run := Extend(c, run, EndPromote(3));
  }

  // closed is set and no promotion is past its test of it.
  ghost predicate Settled(s: System) {
    s.books.closed && forall p :: p in s.procs ==> !s.procs[p].Promoting?
  }

  lemma ClosedStays(c: Caps, s: System, a: Action)
    requires Enabled(s, a) && s.books.closed
    ensures Do(c, s, a).books.closed
  {
    hide Ranged, Admits;
  }

  predicate OnBooks(a: Action) {
    a.BeginReserve? || a.EndReserve? || a.BeginPromote? || a.EndPromote? || a.RelayEnds? || a.DropIdle? || a.DropListed?
  }

  ghost predicate NoNewPromoter(s: System, s': System) {
    forall q :: q in s'.procs && s'.procs[q].Promoting? ==> q in s.procs && s.procs[q].Promoting?
  }

  lemma OnBooksNobodyPromotes(c: Caps, s: System, a: Action)
    requires Enabled(s, a) && s.books.closed && OnBooks(a)
    ensures NoNewPromoter(s, Do(c, s, a))
  {
    hide Ranged, Admits, Reserve, Store, ReleaseCount, Detach, PendingReleased, Holds, RemovePending;
  }

  // A goroutine that moves in a closed forwarder does not start to promote.
  lemma NobodyPromotes(c: Caps, s: System, a: Action)
    requires Inv(c, s) && Enabled(s, a) && s.books.closed
    ensures NoNewPromoter(s, Do(c, s, a))
  {
    hide Balanced, CapsHold, KeysApart, Owners, Sessions, Phases, Ranged, ReleaseCount, PendingReleased,
         BeginReserveStep, EndReserveStep, BeginPromoteStep, EndPromoteStep, DropStep;
    if OnBooks(a) {
      OnBooksNobodyPromotes(c, s, a);
    } else if a.Release? {
      PhaseOf(s, a.p);
    }
  }

  lemma StepSettled(c: Caps, s: System, a: Action)
    requires Inv(c, s) && Enabled(s, a) && Settled(s)
    ensures Settled(Do(c, s, a)) && Shrinks(s.books.sessions, Do(c, s, a).books.sessions)
  {
    ClosedStays(c, s, a);
    NobodyPromotes(c, s, a);
    OthersOnlyShrink(c, s, a);
  }

  ghost predicate SettledSince(s: System, s': System) {
    Settled(s') && Shrinks(s.books.sessions, s'.books.sessions)
  }

  lemma SettledOn(s: System, s': System, s'': System)
    requires SettledSince(s, s') && Settled(s'') && Shrinks(s'.books.sessions, s''.books.sessions)
    ensures SettledSince(s, s'')
  {
    hide Settled;
    ShrinksTwice(s.books.sessions, s'.books.sessions, s''.books.sessions);
  }

  lemma {:induction false} SettledThroughout(c: Caps, run: seq<System>, i: nat, j: nat)
    requires Run(c, run) && i <= j < |run| && Settled(run[i])
    ensures SettledSince(run[i], run[j])
    decreases j - i
  {
    hide Run, Inv, Enabled, Do, Settled;
    if i < j {
      SettledThroughout(c, run, i, j - 1);
      RunInv(c, run, j - 1);
      var a := StepOf(c, run, j);
      StepSettled(c, run[j - 1], a);
      SettledOn(run[i], run[j - 1], run[j]);
    }
  }

  // run[..i] can go on so that a session is there that is not there at i.
  ghost predicate CanStillAdd(c: Caps, run: seq<System>, i: nat)
    requires i < |run|
  {
    exists longer: seq<System>, j: nat :: Run(c, longer) && i <= j < |longer| && longer[..i + 1] == run[..i + 1]
                        && !Shrinks(run[i].books.sessions, longer[j].books.sessions)
  }

  lemma PromotionAdds(c: Caps, s: System, p: nat)
    requires Inv(c, s) && p in s.procs && s.procs[p].Promoting?
    ensures Enabled(s, EndPromote(p)) && !Shrinks(s.books.sessions, Do(c, s, EndPromote(p)).books.sessions)
  {
    hide Balanced, CapsHold, KeysApart, Owners, Sessions, Phases;
    var key := s.procs[p].key;
    if key in s.books.sessions {
      LiveKnown(s, key);
    }
    assert key in Do(c, s, EndPromote(p)).books.sessions;
  }

  lemma RunPrefix(c: Caps, run: seq<System>, i: nat)
    requires Run(c, run) && i < |run|
    ensures Run(c, run[..i + 1])
  {
    hide Init, Step;
    var short := run[..i + 1];
    forall k | 0 <= k < |short| - 1 ensures Step(c, short[k], short[k + 1]) {
      assert Step(c, run[k], run[k + 1]);
    }
  }

  /** Once closed is set, a session can still be added exactly while some promotion is past its test of closed. */
  lemma LastPromotions(c: Caps, run: seq<System>, i: nat)
    requires Run(c, run) && i < |run| && run[i].books.closed
    ensures CanStillAdd(c, run, i) <==> exists p :: p in run[i].procs && run[i].procs[p].Promoting?
  {
    hide Run, Inv, Enabled, Do, Shrinks;
    if p :| p in run[i].procs && run[i].procs[p].Promoting? {
      RunInv(c, run, i);
      PromotionAdds(c, run[i], p);
      RunPrefix(c, run, i);
      var longer := Extend(c, run[..i + 1], EndPromote(p));
      assert longer[..i + 1] == run[..i + 1];
      assert !Shrinks(run[i].books.sessions, longer[i + 1].books.sessions);
    } else if CanStillAdd(c, run, i) {
      var longer: seq<System>, j: nat :| Run(c, longer) && i <= j < |longer| && longer[..i + 1] == run[..i + 1]
                       && !Shrinks(run[i].books.sessions, longer[j].books.sessions);
      assert longer[i] == longer[..i + 1][i] == run[i];
      SettledThroughout(c, longer, i, j);
    }
  }

  lemma Started(c: Caps) returns (run: seq<System>)
    ensures Run(c, run) && |run| == 3
    ensures var s := run[2];
            s.procs == map[0 := Exited, 1 := ReadLoop, 2 := Collector({})]
            && s.f == Flags(None, None, None, true, false, false, false, false, false)
            && s.books == Account(false, map[], map[], 0, map[]) && s.nextId == 0
  {
    run := [System(Account(false, map[], map[], 0, map[]), map[], 0,
                   Flags(None, None, None, false, false, false, false, false, false))];
    run := Extend(c, run, StartTest(0));
    hide Run;
    run := Extend(c, run, StartLoops(0, 1, 2));
  }

  lemma ReachesReserved(c: Caps) returns (run: seq<System>)
    requires c.maxSetups > 0 && c.maxSessions > 0 && c.maxPerIp > 0
    ensures Run(c, run) && |run| == 5
    ensures var s := run[4];
            s.procs == map[0 := Exited, 1 := Reserved("k", "1.2.3.4"), 2 := Collector({})] && s.f.mu.None?
            && s.books == Reserve(Account(false, map[], map[], 0, map[]), "k", "1.2.3.4")
  {
    hide Run;
    run := Started(c);
    run := Extend(c, run, BeginReserve(1, "k", "1.2.3.4"));
    run := Extend(c, run, EndReserve(1));
    assert run[4].procs == map[0 := Exited, 1 := Reserved("k", "1.2.3.4"), 2 := Collector({})];
  }

  lemma ReachesPromoting(c: Caps) returns (run: seq<System>)
    requires c.maxSetups > 0 && c.maxSessions > 0 && c.maxPerIp > 0
    ensures Run(c, run) && |run| == 7
    ensures var s := run[6];
            ProcOf(s, 3) == Promoting("k", "1.2.3.4") && 9 !in s.procs
            && !s.books.closed && s.books.sessions == map[]
  {
    hide Run;
    run := ReachesReserved(c);
    run := Extend(c, run, Spawn(1, 3));
    run := Extend(c, run, BeginPromote(3));
  }

  /** The snapshot covers every live session from the moment it is taken, and none is left once it is worked off. */
  lemma SnapshotCoversAll(c: Caps, run: seq<System>, i: nat, p: nat)
    requires Run(c, run) && i < |run| && p in run[i].procs
    ensures run[i].procs[p].Dropping? ==> Ranged(run[i].books.sessions, run[i].procs[p].refs)
    ensures run[i].procs[p].Waiting? || run[i].procs[p].Draining? ==> run[i].books.sessions == map[]
  {
    hide Run, Balanced, Owners, Phases, CapsHold, KeysApart;
    RunInv(c, run, i);
    Known(run[i], p);
  }

  // ---------- stale sessions ----------

  ghost predicate Dead(s: System, id: nat) {
    id < s.nextId && forall k :: k in s.books.sessions ==> s.books.sessions[k].id != id
  }

  /** A session identity that is gone stays gone, so a stale drop can never hit a replacement. */
  lemma {:induction false} DeadStaysDead(c: Caps, run: seq<System>, i: nat, j: nat, id: nat)
    requires Run(c, run) && i <= j < |run| && Dead(run[i], id)
    ensures Dead(run[j], id)
    decreases j - i
  {
    if i < j {
      hide Run, Dead, Do, Enabled;
      var a := StepOf(c, run, i + 1);
      DeadStep(c, run[i], a, id);
      DeadStaysDead(c, run, i + 1, j, id);
    }
  }

  lemma DeadStep(c: Caps, s: System, a: Action, id: nat)
    requires Enabled(s, a) && Dead(s, id)
    ensures Dead(Do(c, s, a), id)
  {
    hide Reserve, ReleaseCount, Ranged, Admits;
    if a.BeginPromote? || a.Undo? {
      CountsOnly(RemovePending(s.books, s.procs[a.p].key), s.procs[a.p].ip);
    } else if a.Release? {
      CountsOnly(s.books, s.procs[a.p].owed);
    } else if a.EndReserve? {
      ReserveOnly(s.books, s.procs[a.p].key, s.procs[a.p].ip);
    }
  }

  lemma ReserveOnly(a: Account, key: string, ip: string)
    ensures Reserve(a, key, ip).sessions == a.sessions && Reserve(a, key, ip).closed == a.closed
  {
  }

  /** Dropping a dead reference changes no book and owes no release. */
  lemma StaleDropIsHarmless(s: System, p: nat, ref: Ref, next: Proc)
    requires Dead(s, ref.sess.id)
    ensures DropStep(s, p, ref, next) == Become(s, p, next)
  {
  }

  lemma NobodyHome(procs: map<nat, Proc>, key: string)
    requires forall p :: p in procs ==> procs[p].Exited?
    ensures !HasOwner(procs, key) && forall sess :: !HasRelay(procs, key, sess)
  {
  }

  /** When Shutdown's done channel closes, every goroutine, session, reservation and count is gone. */
  lemma DoneMeansEmpty(c: Caps, run: seq<System>, i: nat)
    requires Run(c, run) && i < |run| && run[i].f.done
    ensures run[i].books == Account(true, map[], map[], 0, map[])
    ensures forall p :: p in run[i].procs ==> run[i].procs[p].Exited?
  {
    hide Run, Balanced, CapsHold, KnownProc, KeysApart;
    RunInv(c, run, i);
    var s := run[i];
    forall p | p in s.procs ensures s.procs[p].Exited? {
      assert InPhase(s.books.closed, s.f, p, s.procs[p]);
    }
    forall k ensures k !in s.books.pending && k !in s.books.sessions {
      NobodyHome(s.procs, k);
    }
    assert s.books.pending.Keys == {} && s.books.sessions.Keys == {};
    assert Owed(s.procs) == map[];
    EmptyBooks(s.books, Owed(s.procs));
  }

  // A started server that is shutting down, with its listener closed.
  lemma ReachesStopping(c: Caps) returns (run: seq<System>)
    ensures Run(c, run) && |run| == 5 && run[4].books.closed && run[4].books.sessions == map[]
    ensures run[4].f == Flags(None, None, Some(9), true, false, true, false, false, false)
    ensures run[4].procs == map[0 := Exited, 1 := ReadLoop, 2 := Collector({}), 9 := Stopping]
  {
    hide Run;
    run := Started(c);
    run := Extend(c, run, BeginShutdown(9));
    run := Extend(c, run, StopListener(9));
  }

  lemma ReachesWaiting(c: Caps) returns (run: seq<System>)
    ensures Run(c, run) && |run| == 8 && run[7].books.closed
    ensures run[7].f == Flags(None, None, Some(9), true, false, true, true, false, false)
    ensures run[7].procs == map[0 := Exited, 1 := ReadLoop, 2 := Collector({}), 9 := Waiting]
  {
    hide Run;
    run := ReachesStopping(c);
    run := Extend(c, run, BeginSnapshot(9));
    run := Extend(c, run, EndSnapshot(9));
    run := Extend(c, run, AllDropped(9));
  }

  lemma ReachesIdle(c: Caps) returns (run: seq<System>)
    ensures Run(c, run) && |run| == 10 && run[9].f.started
    ensures run[9].procs == map[0 := Exited, 1 := Exited, 2 := Exited, 9 := Waiting]
  {
    hide Run;
    run := ReachesWaiting(c);
    run := Extend(c, run, ReadExit(1));
    run := Extend(c, run, CollectorExit(2));
  }

  /** And done is reached: a run in which a started server shuts down. */
  lemma DoneReached(c: Caps) returns (run: seq<System>)
    ensures Run(c, run) && run[|run| - 1].f.started && run[|run| - 1].f.done
  {
    hide Run;
    run := ReachesIdle(c);
    run := Extend(c, run, LoopsOver(9));
    run := Extend(c, run, Finish(9));
  }
}
