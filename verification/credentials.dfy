/** The nested mutexes of facades/gh.go: any number of callers going through GitHub.Init and GetGitHubTenantCredential. */
module Credentials {
  import opened Wrappers

  datatype Lock = ClientLock | RepositoriesLock | TenantLock | RegistrationLock | RemoveLock

  datatype Event = Register | Remove | Unknown

  /** The statement a caller is about to run. */
  datatype Pc =
    | LockClient | MakeClient | UnlockClient(ok: bool)
    | TryRepository | LockRepositories | RetryRepository | FetchRepository | UnlockRepositories(ok: bool)
    | TryTenant | LockTenant | RetryTenant
    | TryToken | LockToken | RetryToken | MintToken | UnlockToken(ok: bool)
    | CreateTenant | UnlockTenant
    | Done

  /** A caller, the repository it asks for and its runner event. */
  datatype Caller = Caller(repository: string, event: Event, pc: Pc)

  /** Cached repositories and credentials, those of the latter that have expired, mutex holders, callers; as history the
      successful fetches and creations and the cache entries that expired or were evicted, each counted once. A credential's
      key is the event and the repository. */
  datatype State = State(
    repositories: set<string>,
    tenants: set<(Event, string)>,
    expired: set<(Event, string)>,
    holders: map<Lock, nat>,
    callers: seq<Caller>,
    fetched: multiset<string>,
    droppedRepositories: multiset<string>,
    created: multiset<(Event, string)>,
    droppedTenants: multiset<(Event, string)>)

  /** Move: the next statement of one caller; ok is what the outside world says there (a cached token is still good, an API
      call succeeded). Expire: a cached credential comes within a minute of its end, or turns out unreadable. */
  datatype Act =
    | Call(repository: string, event: Event)
    | Move(who: nat, ok: bool)
    | EvictRepository(repository: string)
    | EvictTenant(key: (Event, string))
    | Expire(key: (Event, string))

  const INIT := State({}, {}, {}, map[], [], multiset{}, multiset{}, multiset{}, multiset{})

  function TokenLock(event: Event): Lock {
    if event == Remove then RemoveLock else RegistrationLock
  }

  /** The lock a statement waits for. */
  function Wants(c: Caller): Option<Lock> {
    match c.pc
    case LockClient => Some(ClientLock)
    case LockRepositories => Some(RepositoriesLock)
    case LockTenant => Some(TenantLock)
    case LockToken => Some(TokenLock(c.event))
    case _ => None
  }

  /** The lock a statement gives back. */
  function Frees(c: Caller): Option<Lock> {
    match c.pc
    case UnlockClient(_) => Some(ClientLock)
    case UnlockRepositories(_) => Some(RepositoriesLock)
    case UnlockTenant => Some(TenantLock)
    case UnlockToken(_) => Some(TokenLock(c.event))
    case _ => None
  }

  /** The statement after this one. hit: the key is cached and what is cached has not expired. */
  function Next(c: Caller, hit: bool, ok: bool): Pc {
    match c.pc
    case LockClient => MakeClient
    case MakeClient => UnlockClient(ok)
    case UnlockClient(made) => if made then TryRepository else Done
    case TryRepository => if hit then TryTenant else LockRepositories
    case LockRepositories => RetryRepository
    case RetryRepository => if hit then UnlockRepositories(true) else FetchRepository
    case FetchRepository => UnlockRepositories(ok)
    case UnlockRepositories(got) => if got then TryTenant else Done
    case TryTenant => if hit then Done else LockTenant
    case LockTenant => RetryTenant
    case RetryTenant => if hit then UnlockTenant else if c.event == Unknown then UnlockTenant else TryToken
    case TryToken => if ok then CreateTenant else LockToken
    case LockToken => RetryToken
    case RetryToken => if ok then UnlockToken(true) else MintToken
    case MintToken => UnlockToken(ok)
    case UnlockToken(got) => if got then CreateTenant else UnlockTenant
    case CreateTenant => UnlockTenant
    case UnlockTenant => Done
    case Done => Done
  }

  function Key(c: Caller): (Event, string) {
    (c.event, c.repository)
  }

  predicate Unexpired(s: State, k: (Event, string)) {
    k in s.tenants && k !in s.expired
  }

  function Hit(s: State, c: Caller): bool {
    if c.pc.TryRepository? || c.pc.RetryRepository? then c.repository in s.repositories else Unexpired(s, Key(c))
  }

  predicate Enabled(s: State, who: nat) {
    who < |s.callers| && s.callers[who].pc != Done &&
    match Wants(s.callers[who]) case Some(l) => l !in s.holders case None => true
  }

  /** What a statement does to the caches and their histories. */
  function Effect(s: State, c: Caller, ok: bool): State {
    match c.pc
    case FetchRepository =>
      if ok then s.(repositories := s.repositories + {c.repository}, fetched := s.fetched + multiset{c.repository}) else s
    case CreateTenant =>
      if ok then s.(tenants := s.tenants + {Key(c)}, expired := s.expired - {Key(c)}, created := s.created + multiset{Key(c)}) else s
    case _ => s
  }

  function Locking(holders: map<Lock, nat>, who: nat, c: Caller): map<Lock, nat> {
    var taken := match Wants(c) case Some(l) => holders[l := who] case None => holders;
    match Frees(c) case Some(l) => taken - {l} case None => taken
  }

  function Step(s: State, a: Act): State {
    match a
    case Call(repository, event) => s.(callers := s.callers + [Caller(repository, event, LockClient)])
    case Move(who, ok) =>
      if !Enabled(s, who) then s
      else
        var c := s.callers[who];
        Effect(s, c, ok).(callers := s.callers[who := c.(pc := Next(c, Hit(s, c), ok))], holders := Locking(s.holders, who, c))
    case EvictRepository(r) =>
      if r !in s.repositories then s
      else s.(repositories := s.repositories - {r}, droppedRepositories := s.droppedRepositories + multiset{r})
    case EvictTenant(k) =>
      var s' := s.(tenants := s.tenants - {k}, expired := s.expired - {k});
      if Unexpired(s, k) then s'.(droppedTenants := s.droppedTenants + multiset{k}) else s'
    case Expire(k) =>
      if Unexpired(s, k) then s.(expired := s.expired + {k}, droppedTenants := s.droppedTenants + multiset{k}) else s
  }

  function Run(s: State, acts: seq<Act>): State {
    if acts == [] then s else Step(Run(s, acts[..|acts| - 1]), acts[|acts| - 1])
  }

  // ---------- who holds what ----------

  /** The locks held at a statement. */
  predicate Holds(c: Caller, l: Lock) {
    match c.pc
    case MakeClient => l == ClientLock
    case UnlockClient(_) => l == ClientLock
    case RetryRepository => l == RepositoriesLock
    case FetchRepository => l == RepositoriesLock
    case UnlockRepositories(_) => l == RepositoriesLock
    case RetryTenant => l == TenantLock
    case TryToken => l == TenantLock
    case LockToken => l == TenantLock
    case RetryToken => l == TenantLock || l == TokenLock(c.event)
    case MintToken => l == TenantLock || l == TokenLock(c.event)
    case UnlockToken(_) => l == TenantLock || l == TokenLock(c.event)
    case CreateTenant => l == TenantLock
    case UnlockTenant => l == TenantLock
    case _ => false
  }

  /** The fixed order in which the locks are taken. */
  function Rank(l: Lock): nat {
    match l
    case ClientLock => 0
    case RepositoriesLock => 1
    case TenantLock => 2
    case RegistrationLock => 3
    case RemoveLock => 4
  }

  /** A mutex is held exactly by the caller whose statement says so. */
  ghost predicate LockInv(s: State) {
    && (forall l | l in s.holders :: s.holders[l] < |s.callers|)
    && (forall l: Lock, i: nat | i < |s.callers| :: Holds(s.callers[i], l) <==> l in s.holders && s.holders[l] == i)
  }

  lemma LockKept(s: State, a: Act)
    requires LockInv(s)
    ensures LockInv(Step(s, a))
  {
    if a.Move? && Enabled(s, a.who) {
      MoveLocks(s, a.who, a.ok);
    }
  }

  lemma MoveLocks(s: State, who: nat, ok: bool)
    requires LockInv(s) && Enabled(s, who)
    ensures LockInv(Step(s, Move(who, ok)))
  {
    var c := s.callers[who];
    var s' := Step(s, Move(who, ok));
    assert s'.callers == s.callers[who := c.(pc := Next(c, Hit(s, c), ok))] && s'.holders == Locking(s.holders, who, c);
    hide Step, Holds, Next;
    forall l: Lock, i: nat | i < |s'.callers| ensures Holds(s'.callers[i], l) <==> l in s'.holders && s'.holders[l] == i {
      NextHoldsOne(c, Hit(s, c), ok, l);
      hide Hit;
      assert Holds(s.callers[i], l) <==> l in s.holders && s.holders[l] == i;
      assert Holds(c, l) <==> l in s.holders && s.holders[l] == who;
    }
  }

  lemma NextHoldsOne(c: Caller, hit: bool, ok: bool, l: Lock)
    requires c.pc != Done
    ensures Holds(c.(pc := Next(c, hit, ok)), l) <==> (Holds(c, l) || Wants(c) == Some(l)) && Frees(c) != Some(l)
    ensures Wants(c) == Some(l) ==> !Holds(c, l) && Frees(c) == None
    ensures Frees(c) == Some(l) ==> Holds(c, l)
  {
  }

  /** A statement changes what its caller holds by the lock it takes or frees, and frees only what it holds. */
  lemma NextHolds(c: Caller, hit: bool, ok: bool)
    requires c.pc != Done
    ensures forall l :: Holds(c.(pc := Next(c, hit, ok)), l) <==> (Holds(c, l) || Wants(c) == Some(l)) && Frees(c) != Some(l)
    ensures forall l :: Wants(c) == Some(l) ==> !Holds(c, l) && Frees(c) == None
    ensures forall l :: Frees(c) == Some(l) ==> Holds(c, l)
  {
    hide Holds, Next, Wants, Frees;
    forall l ensures (Holds(c.(pc := Next(c, hit, ok)), l) <==> (Holds(c, l) || Wants(c) == Some(l)) && Frees(c) != Some(l)) { NextHoldsOne(c, hit, ok, l); }
    forall l ensures (Wants(c) == Some(l) ==> !Holds(c, l) && Frees(c) == None) && (Frees(c) == Some(l) ==> Holds(c, l)) { NextHoldsOne(c, hit, ok, l); }
  }

  lemma {:induction false} AlwaysLocked(acts: seq<Act>)
    ensures LockInv(Run(INIT, acts))
  {
    if acts != [] {
      AlwaysLocked(acts[..|acts| - 1]);
      LockKept(Run(INIT, acts[..|acts| - 1]), acts[|acts| - 1]);
    }
  }

  lemma Exclusive(s: State, i: nat, j: nat, l: Lock)
    requires LockInv(s) && i < |s.callers| && j < |s.callers| && Holds(s.callers[i], l) && Holds(s.callers[j], l)
    ensures i == j
  {
    hide Holds;
    assert l in s.holders && s.holders[l] == i;
    assert s.holders[l] == j;
  }

  /** No two callers ever hold the same mutex. */
  lemma MutualExclusion(acts: seq<Act>, i: nat, j: nat, l: Lock)
    requires i < |Run(INIT, acts).callers| && j < |Run(INIT, acts).callers|
    requires Holds(Run(INIT, acts).callers[i], l) && Holds(Run(INIT, acts).callers[j], l)
    ensures i == j
  {
    hide Holds, LockInv;
    AlwaysLocked(acts);
    Exclusive(Run(INIT, acts), i, j, l);
  }

  /** A caller waits only for a lock that comes after every lock it holds. */
  lemma LocksAreOrdered(c: Caller, l: Lock, held: Lock)
    requires Wants(c) == Some(l) && Holds(c, held)
    ensures Rank(held) < Rank(l)
  {
  }

  // ---------- no deadlock, and the end of every run ----------

  lemma {:induction false} FreeChain(s: State, who: nat, steps: nat) returns (next: nat)
    requires LockInv(s) && who < |s.callers| && s.callers[who].pc != Done
    requires match Wants(s.callers[who]) case Some(l) => Rank(l) + steps >= 5 case None => true
    ensures Enabled(s, next)
    decreases steps
  {
    next := who;
    match Wants(s.callers[who])
    case None =>
    case Some(l) =>
      if l in s.holders {
        var holder := s.holders[l];
        assert Holds(s.callers[holder], l);
        match Wants(s.callers[holder])
        case Some(m) => LocksAreOrdered(s.callers[holder], m, l); next := FreeChain(s, holder, steps - 1);
        case None => next := holder;
      }
  }

  /** In every reachable state with an unfinished caller some caller can take its next statement. */
  lemma NoDeadlock(acts: seq<Act>, who: nat)
    requires who < |Run(INIT, acts).callers| && Run(INIT, acts).callers[who].pc != Done
    ensures exists next :: Enabled(Run(INIT, acts), next)
  {
    AlwaysLocked(acts);
    var next := FreeChain(Run(INIT, acts), who, 5);
  }

  /** How many statements a caller is at most away from its end. */
  function Left(pc: Pc): nat {
    match pc
    case LockClient => 18 case MakeClient => 17 case UnlockClient(_) => 16
    case TryRepository => 15 case LockRepositories => 14 case RetryRepository => 13 case FetchRepository => 12 case UnlockRepositories(_) => 11
    case TryTenant => 10 case LockTenant => 9 case RetryTenant => 8
    case TryToken => 7 case LockToken => 6 case RetryToken => 5 case MintToken => 4 case UnlockToken(_) => 3
    case CreateTenant => 2 case UnlockTenant => 1
    case Done => 0
  }

  function TotalLeft(callers: seq<Caller>): nat {
    if callers == [] then 0 else Left(callers[0].pc) + TotalLeft(callers[1..])
  }

  lemma {:induction false} UpdateTotal(callers: seq<Caller>, i: nat, c: Caller)
    requires i < |callers|
    ensures TotalLeft(callers[i := c]) == TotalLeft(callers) - Left(callers[i].pc) + Left(c.pc)
  {
    if i > 0 {
      UpdateTotal(callers[1..], i - 1, c);
      assert callers[i := c][1..] == callers[1..][i - 1 := c];
    } else {
      assert callers[0 := c][1..] == callers[1..];
    }
  }

  /** Every statement brings its caller nearer to its end and leaves the others where they are. */
  lemma StepProgress(s: State, who: nat, ok: bool)
    requires Enabled(s, who)
    ensures TotalLeft(Step(s, Move(who, ok)).callers) < TotalLeft(s.callers)
  {
    var c := s.callers[who];
    var c' := c.(pc := Next(c, Hit(s, c), ok));
    assert Left(c'.pc) < Left(c.pc);
    UpdateTotal(s.callers, who, c');
  }

  /** A continuation in which every action is a statement that can be taken. */
  predicate Busy(s: State, moves: seq<Act>) {
    moves == [] ||
    var last := moves[|moves| - 1];
    Busy(s, moves[..|moves| - 1]) && last.Move? && Enabled(Run(s, moves[..|moves| - 1]), last.who)
  }

  lemma {:induction false} BusyIsShort(s: State, moves: seq<Act>)
    requires Busy(s, moves)
    ensures |moves| + TotalLeft(Run(s, moves).callers) <= TotalLeft(s.callers)
  {
    if moves != [] {
      var front, last := moves[..|moves| - 1], moves[|moves| - 1];
      BusyIsShort(s, front);
      StepProgress(Run(s, front), last.who, last.ok);
    }
  }

  /** From every reachable state, however the callers are scheduled and whatever the API answers, no continuation is
      longer than the statements left, and one that cannot be continued has finished every caller. */
  lemma EveryCallFinishes(acts: seq<Act>, moves: seq<Act>)
    requires Busy(Run(INIT, acts), moves)
    ensures |moves| <= TotalLeft(Run(INIT, acts).callers) <= 18 * |Run(INIT, acts).callers|
    ensures (forall who :: !Enabled(Run(Run(INIT, acts), moves), who)) ==>
              forall i | 0 <= i < |Run(Run(INIT, acts), moves).callers| :: Run(Run(INIT, acts), moves).callers[i].pc == Done
  {
    BusyIsShort(Run(INIT, acts), moves);
    TotalBound(Run(INIT, acts).callers);
    RunJoin(INIT, acts, moves);
    var s := Run(INIT, acts + moves);
    if i: nat :| i < |s.callers| && s.callers[i].pc != Done {
      NoDeadlock(acts + moves, i);
    }
  }

  lemma {:induction false} TotalBound(callers: seq<Caller>)
    ensures TotalLeft(callers) <= 18 * |callers|
  {
    if callers != [] { TotalBound(callers[1..]); }
  }

  lemma {:induction false} RunJoin(s: State, acts: seq<Act>, more: seq<Act>)
    ensures Run(s, acts + more) == Run(Run(s, acts), more)
  {
    if more == [] {
      assert acts + more == acts;
    } else {
      assert (acts + more)[..|acts + more| - 1] == acts + more[..|more| - 1];
      RunJoin(s, acts, more[..|more| - 1]);
    }
  }

  // ---------- one creation per cache entry ----------

  /** A caller about to create a credential for a key. */
  predicate Creating(c: Caller, k: (Event, string)) {
    Key(c) == k && (c.pc.TryToken? || c.pc.LockToken? || c.pc.RetryToken? || c.pc.MintToken? || c.pc.UnlockToken? || c.pc.CreateTenant?)
  }

  predicate Fetching(c: Caller, r: string) {
    c.repository == r && c.pc.FetchRepository?
  }

  /** Successes equal the entries lost plus the good one in the cache, if any; and whoever is about to get one holds the
      mutex and found none. */
  ghost predicate OnceInv(s: State) {
    && (forall k :: s.created[k] == s.droppedTenants[k] + if Unexpired(s, k) then 1 else 0)
    && (forall r :: s.fetched[r] == s.droppedRepositories[r] + if r in s.repositories then 1 else 0)
    && (forall i: nat, k | i < |s.callers| && Creating(s.callers[i], k) :: !Unexpired(s, k))
    && (forall i: nat, r | i < |s.callers| && Fetching(s.callers[i], r) :: r !in s.repositories)
  }

  lemma OnceKept(s: State, a: Act)
    requires LockInv(s) && OnceInv(s)
    ensures OnceInv(Step(s, a))
  {
    hide LockInv;
    match a
    case Move(who, ok) => if Enabled(s, who) { OnceMove(s, who, ok); }
    case Call(_, _) => OnceCall(s, a);
    case _ => OnceDrop(s, a);
  }

  lemma OnceCall(s: State, a: Act)
    requires OnceInv(s) && a.Call?
    ensures OnceInv(Step(s, a))
  {
    var callers := Step(s, a).callers;
    assert forall i: nat | i < |s.callers| :: callers[i] == s.callers[i];
    assert callers[|s.callers|].pc == LockClient;
    assert forall j :: Unexpired(Step(s, a), j) <==> Unexpired(s, j);
  }

  lemma OnceDrop(s: State, a: Act)
    requires OnceInv(s) && (a.EvictRepository? || a.EvictTenant? || a.Expire?)
    ensures OnceInv(Step(s, a))
  {
    hide Creating, Fetching;
    assert forall j :: Unexpired(Step(s, a), j) <==> Unexpired(s, j) && !(!a.EvictRepository? && j == a.key);
  }

  lemma OnceMove(s: State, who: nat, ok: bool)
    requires LockInv(s) && OnceInv(s) && Enabled(s, who)
    ensures OnceInv(Step(s, Move(who, ok)))
  {
    OnceTenant(s, who, ok);
    OnceRepository(s, who, ok);
  }

  lemma OnceTenant(s: State, who: nat, ok: bool)
    requires LockInv(s) && OnceInv(s) && Enabled(s, who)
    ensures var s' := Step(s, Move(who, ok));
            && (forall k :: s'.created[k] == s'.droppedTenants[k] + if Unexpired(s', k) then 1 else 0)
            && (forall i: nat, k | i < |s'.callers| && Creating(s'.callers[i], k) :: !Unexpired(s', k))
  {
    hide LockInv, Holds;
    var s' := Step(s, Move(who, ok));
    var c := s.callers[who];
    assert forall j :: Unexpired(s', j) <==> Unexpired(s, j) || (c.pc.CreateTenant? && ok && j == Key(c));
    forall i: nat, k | i < |s'.callers| && Creating(s'.callers[i], k) ensures !Unexpired(s', k) {
      StillCreating(s, who, ok, i, k);
    }
    hide Next, Hit, Locking;
    if c.pc.CreateTenant? { assert Creating(c, Key(c)); }
  }

  /** After a statement whoever is creating a credential was so before, or has just found none; and nobody is while one is
      being stored. */
  lemma StillCreating(s: State, who: nat, ok: bool, i: nat, k: (Event, string))
    requires LockInv(s) && OnceInv(s) && Enabled(s, who)
    requires i < |Step(s, Move(who, ok)).callers| && Creating(Step(s, Move(who, ok)).callers[i], k)
    ensures !Unexpired(s, k) && !(s.callers[who].pc.CreateTenant? && k == Key(s.callers[who]))
  {
    hide LockInv, Locking, Effect;
    var c := s.callers[who];
    if i != who {
      assert Creating(s.callers[i], k);
      if c.pc.CreateTenant? { Exclusive(s, i, who, TenantLock); }
    } else if c.pc.RetryTenant? {
      assert k == Key(c) && !Hit(s, c);
    } else {
      assert Creating(c, k);
    }
  }

  lemma OnceRepository(s: State, who: nat, ok: bool)
    requires LockInv(s) && OnceInv(s) && Enabled(s, who)
    ensures var s' := Step(s, Move(who, ok));
            && (forall r :: s'.fetched[r] == s'.droppedRepositories[r] + if r in s'.repositories then 1 else 0)
            && (forall i: nat, r | i < |s'.callers| && Fetching(s'.callers[i], r) :: r !in s'.repositories)
  {
    hide LockInv;
    var s' := Step(s, Move(who, ok));
    var c := s.callers[who];
    forall i: nat, r | i < |s'.callers| && Fetching(s'.callers[i], r) ensures r !in s'.repositories {
      if i != who {
        assert Fetching(s.callers[i], r);
        if Holds(c, RepositoriesLock) { Exclusive(s, i, who, RepositoriesLock); }
      }
    }
  }

  lemma {:induction false} AlwaysOnce(acts: seq<Act>)
    ensures OnceInv(Run(INIT, acts))
  {
    if acts != [] {
      AlwaysOnce(acts[..|acts| - 1]);
      AlwaysLocked(acts[..|acts| - 1]);
      OnceKept(Run(INIT, acts[..|acts| - 1]), acts[|acts| - 1]);
    }
  }

  /** The double-checked caches do their work: whatever the interleaving and whoever fails, a credential or repository has
      been obtained from GitHub exactly once for every cached copy that expired or was evicted, and once more for the good
      copy that is cached, if one is. */
  lemma CreatedOnce(acts: seq<Act>, k: (Event, string), r: string)
    ensures var s := Run(INIT, acts);
            && s.created[k] == s.droppedTenants[k] + (if Unexpired(s, k) then 1 else 0)
            && s.fetched[r] == s.droppedRepositories[r] + if r in s.repositories then 1 else 0
  {
    AlwaysOnce(acts);
  }

  // ---------- what a finished call has ----------

  /** Caller who made its statement at pc with the answer ok. */
  ghost predicate Answered(acts: seq<Act>, who: nat, pc: Pc, ok: bool) {
    exists j :: 0 <= j < |acts| && AnswersAt(acts, who, pc, ok, j)
  }

  ghost predicate AnswersAt(acts: seq<Act>, who: nat, pc: Pc, ok: bool, j: int)
    requires 0 <= j < |acts|
  {
    var s := Run(INIT, acts[..j]);
    acts[j] == Move(who, ok) && who < |s.callers| && s.callers[who].pc == pc
  }

  /** At some statement of caller who the repository was cached, or a good credential of the key. */
  ghost predicate SawRepository(acts: seq<Act>, who: nat, r: string) {
    exists j :: 0 <= j < |acts| && MovesAt(acts, who, j) && r in Run(INIT, acts[..j + 1]).repositories
  }

  ghost predicate SawCredential(acts: seq<Act>, who: nat, k: (Event, string)) {
    exists j :: 0 <= j < |acts| && MovesAt(acts, who, j) && Unexpired(Run(INIT, acts[..j + 1]), k)
  }

  predicate MovesAt(acts: seq<Act>, who: nat, j: int)
    requires 0 <= j < |acts|
  {
    acts[j].Move? && acts[j].who == who
  }

  /** What a caller has come by so far, and what it was refused. */
  datatype Facts = Facts(client: bool, repository: bool, token: bool, credential: bool, refused: bool)

  ghost function FactsOf(acts: seq<Act>, who: nat, c: Caller): Facts {
    Facts(
      Answered(acts, who, MakeClient, true),
      SawRepository(acts, who, c.repository),
      Answered(acts, who, TryToken, true) || Answered(acts, who, RetryToken, true) || Answered(acts, who, MintToken, true),
      SawCredential(acts, who, Key(c)),
      Answered(acts, who, MakeClient, false) || Answered(acts, who, FetchRepository, false)
      || Answered(acts, who, MintToken, false) || Answered(acts, who, CreateTenant, false))
  }

  predicate Within(f: Facts, g: Facts) {
    && (f.client ==> g.client) && (f.repository ==> g.repository) && (f.token ==> g.token)
    && (f.credential ==> g.credential) && (f.refused ==> g.refused)
  }

  /** What a caller must have come by to be at a statement. */
  predicate Fits(pc: Pc, event: Event, f: Facts) {
    match pc
    case LockClient => true
    case MakeClient => true
    case UnlockClient(ok) => if ok then f.client else f.refused
    case TryRepository => f.client
    case LockRepositories => f.client
    case RetryRepository => f.client
    case FetchRepository => f.client
    case UnlockRepositories(ok) => f.client && if ok then f.repository else f.refused
    case TryTenant => f.client && f.repository
    case LockTenant => f.client && f.repository
    case RetryTenant => f.client && f.repository
    case TryToken => f.client && f.repository && event != Unknown
    case LockToken => f.client && f.repository && event != Unknown
    case RetryToken => f.client && f.repository && event != Unknown
    case MintToken => f.client && f.repository && event != Unknown
    case UnlockToken(ok) => f.client && f.repository && event != Unknown && if ok then f.token else f.refused
    case CreateTenant => f.client && f.repository && event != Unknown && f.token
    case UnlockTenant => f.client && f.repository && (f.credential || f.refused || event == Unknown)
    case Done => f.refused || (f.client && f.repository && (f.credential || event == Unknown))
  }

  lemma NextFits(c: Caller, hit: bool, ok: bool, f: Facts, g: Facts)
    requires Fits(c.pc, c.event, f) && Within(f, g)
    requires c.pc == MakeClient ==> if ok then g.client else g.refused
    requires (c.pc == TryRepository || c.pc == RetryRepository) && hit ==> g.repository
    requires c.pc == FetchRepository ==> if ok then g.repository else g.refused
    requires (c.pc == TryTenant || c.pc == RetryTenant) && hit ==> g.credential
    requires (c.pc == TryToken || c.pc == RetryToken) && ok ==> g.token
    requires c.pc == MintToken ==> if ok then g.token else g.refused
    requires c.pc == CreateTenant ==> if ok then g.credential else g.refused
    ensures Fits(Next(c, hit, ok), c.event, g)
  {
  }

  lemma AnsweredLater(acts: seq<Act>, a: Act, who: nat, pc: Pc, ok: bool)
    requires Answered(acts, who, pc, ok)
    ensures Answered(acts + [a], who, pc, ok)
  {
    var j :| 0 <= j < |acts| && AnswersAt(acts, who, pc, ok, j);
    assert (acts + [a])[..j] == acts[..j];
    assert AnswersAt(acts + [a], who, pc, ok, j);
  }

  lemma AnsweredNow(acts: seq<Act>, who: nat, ok: bool)
    requires who < |Run(INIT, acts).callers|
    ensures Answered(acts + [Move(who, ok)], who, Run(INIT, acts).callers[who].pc, ok)
  {
    assert (acts + [Move(who, ok)])[..|acts|] == acts;
    assert AnswersAt(acts + [Move(who, ok)], who, Run(INIT, acts).callers[who].pc, ok, |acts|);
  }

  lemma SawLater(acts: seq<Act>, a: Act, who: nat, r: string, k: (Event, string))
    ensures SawRepository(acts, who, r) ==> SawRepository(acts + [a], who, r)
    ensures SawCredential(acts, who, k) ==> SawCredential(acts + [a], who, k)
  {
    hide Run;
    if SawRepository(acts, who, r) {
      var j :| 0 <= j < |acts| && MovesAt(acts, who, j) && r in Run(INIT, acts[..j + 1]).repositories;
      assert MovesAt(acts + [a], who, j) && (acts + [a])[..j + 1] == acts[..j + 1];
    }
    if SawCredential(acts, who, k) {
      var j :| 0 <= j < |acts| && MovesAt(acts, who, j) && Unexpired(Run(INIT, acts[..j + 1]), k);
      assert MovesAt(acts + [a], who, j) && (acts + [a])[..j + 1] == acts[..j + 1];
    }
  }

  lemma FactsLater(acts: seq<Act>, a: Act, who: nat, c: Caller)
    ensures Within(FactsOf(acts, who, c), FactsOf(acts + [a], who, c))
  {
    hide Answered, SawRepository, SawCredential;
    SawLater(acts, a, who, c.repository, Key(c));
    forall pc, ok | Answered(acts, who, pc, ok) ensures Answered(acts + [a], who, pc, ok) { AnsweredLater(acts, a, who, pc, ok); }
  }

  lemma FactsNow(acts: seq<Act>, who: nat, ok: bool)
    requires Enabled(Run(INIT, acts), who)
    ensures var s := Run(INIT, acts);
            var c := s.callers[who];
            var hit, g := Hit(s, c), FactsOf(acts + [Move(who, ok)], who, c);
            && (c.pc == MakeClient ==> if ok then g.client else g.refused)
            && ((c.pc == TryRepository || c.pc == RetryRepository) && hit ==> g.repository)
            && (c.pc == FetchRepository ==> if ok then g.repository else g.refused)
            && ((c.pc == TryTenant || c.pc == RetryTenant) && hit ==> g.credential)
            && ((c.pc == TryToken || c.pc == RetryToken) && ok ==> g.token)
            && (c.pc == MintToken ==> if ok then g.token else g.refused)
            && (c.pc == CreateTenant ==> if ok then g.credential else g.refused)
  {
    var s := Run(INIT, acts);
    var all := acts + [Move(who, ok)];
    AnsweredNow(acts, who, ok);
    SawNow(acts, who, ok);
    hide Answered, SawRepository, SawCredential, Run, Enabled;
  }

  lemma SawNow(acts: seq<Act>, who: nat, ok: bool)
    requires Enabled(Run(INIT, acts), who)
    ensures var s, all := Run(INIT, acts), acts + [Move(who, ok)];
            var c := s.callers[who];
            && (c.repository in s.repositories || (c.pc == FetchRepository && ok) ==> SawRepository(all, who, c.repository))
            && (Unexpired(s, Key(c)) || (c.pc == CreateTenant && ok) ==> SawCredential(all, who, Key(c)))
  {
    var s, all := Run(INIT, acts), acts + [Move(who, ok)];
    var c := s.callers[who];
    RunSnoc(acts, Move(who, ok));
    hide Next, Locking, Run;
    assert all[..|acts| + 1] == all && MovesAt(all, who, |acts|);
    assert c.repository in s.repositories || (c.pc == FetchRepository && ok) ==> c.repository in Run(INIT, all).repositories;
    assert Unexpired(s, Key(c)) || (c.pc == CreateTenant && ok) ==> Unexpired(Run(INIT, all), Key(c));
  }

  /** Every caller is where it is for a reason. */
  lemma {:induction false} Story(acts: seq<Act>, who: nat)
    requires who < |Run(INIT, acts).callers|
    ensures var c := Run(INIT, acts).callers[who]; Fits(c.pc, c.event, FactsOf(acts, who, c))
  {
    var front, a := acts[..|acts| - 1], acts[|acts| - 1];
    var s := Run(INIT, front);
    assert acts == front + [a];
    if who < |s.callers| {
      Story(front, who);
      var c := s.callers[who];
      FactsLater(front, a, who, c);
      if a.Move? && a.who == who && Enabled(s, who) {
        StoryMove(front, who, a.ok);
      } else {
        hide FactsOf, Next, Fits;
        assert Run(INIT, acts).callers[who] == c;
        StaysFit(c, FactsOf(front, who, c), FactsOf(acts, who, c));
      }
    }
  }

  lemma StoryMove(acts: seq<Act>, who: nat, ok: bool)
    requires Enabled(Run(INIT, acts), who)
    requires var c := Run(INIT, acts).callers[who];
             Fits(c.pc, c.event, FactsOf(acts, who, c)) && Within(FactsOf(acts, who, c), FactsOf(acts + [Move(who, ok)], who, c))
    ensures var c := Run(INIT, acts + [Move(who, ok)]).callers[who]; Fits(c.pc, c.event, FactsOf(acts + [Move(who, ok)], who, c))
  {
    var s := Run(INIT, acts);
    var c := s.callers[who];
    var all := acts + [Move(who, ok)];
    RunSnoc(acts, Move(who, ok));
    FactsNow(acts, who, ok);
    NextFits(c, Hit(s, c), ok, FactsOf(acts, who, c), FactsOf(all, who, c));
    hide Run, Fits, Next, Effect, Locking, Answered, SawRepository, SawCredential;
    assert Run(INIT, all).callers[who] == c.(pc := Next(c, Hit(s, c), ok));
  }

  lemma StaysFit(c: Caller, f: Facts, g: Facts)
    requires Fits(c.pc, c.event, f) && Within(f, g)
    ensures Fits(c.pc, c.event, g)
  {
  }

  /** The API calls a call can fail over. */
  ghost predicate Refused(acts: seq<Act>, who: nat) {
    || Answered(acts, who, MakeClient, false) || Answered(acts, who, FetchRepository, false)
    || Answered(acts, who, MintToken, false) || Answered(acts, who, CreateTenant, false)
  }

  /** In every run a finished call was refused by the API, or got its client and found or fetched its repository, and, unless its
      event is unknown, found or created a good credential of its own event and repository. */
  lemma FinishedForAReason(acts: seq<Act>, who: nat)
    requires who < |Run(INIT, acts).callers| && Run(INIT, acts).callers[who].pc == Done
    ensures var c := Run(INIT, acts).callers[who];
            || Refused(acts, who)
            || (&& Answered(acts, who, MakeClient, true)
                && SawRepository(acts, who, c.repository)
                && (c.event == Unknown || SawCredential(acts, who, (c.event, c.repository))))
  {
    hide Answered, SawRepository, SawCredential, Run;
    Story(acts, who);
  }

  /** A credential is created only with a token in hand: one still good, or one just minted. */
  lemma CreatesWithToken(acts: seq<Act>, who: nat)
    requires who < |Run(INIT, acts).callers| && Run(INIT, acts).callers[who].pc == CreateTenant
    ensures Answered(acts, who, TryToken, true) || Answered(acts, who, RetryToken, true) || Answered(acts, who, MintToken, true)
    ensures Run(INIT, acts).callers[who].event != Unknown
  {
    hide Answered, SawRepository, SawCredential, Run;
    Story(acts, who);
  }

  predicate Calm(acts: seq<Act>) {
    forall a | a in acts :: a.Call? || a.Move?
  }

  lemma {:induction false} GoodStays(acts: seq<Act>, more: seq<Act>, k: (Event, string))
    requires Calm(more) && Unexpired(Run(INIT, acts), k)
    ensures Unexpired(Run(INIT, acts + more), k)
  {
    if more == [] {
      assert acts + more == acts;
    } else {
      var front, a := more[..|more| - 1], more[|more| - 1];
      assert forall b | b in front :: b in more;
      GoodStays(acts, front, k);
      assert (acts + more)[..|acts + more| - 1] == acts + front;
      assert a in more;
      hide Next, Locking;
    }
  }

  /** Without expiry and evictions a finished call of a known event that the API did not refuse leaves a good credential of its
      event and repository in the cache. */
  lemma CalmCallsServe(acts: seq<Act>, who: nat)
    requires Calm(acts) && who < |Run(INIT, acts).callers| && Run(INIT, acts).callers[who].pc == Done
    requires !Refused(acts, who) && Run(INIT, acts).callers[who].event != Unknown
    ensures var c := Run(INIT, acts).callers[who]; Unexpired(Run(INIT, acts), (c.event, c.repository))
  {
    hide *;
    FinishedForAReason(acts, who);
    SawStays(acts, who, (Run(INIT, acts).callers[who].event, Run(INIT, acts).callers[who].repository));
  }

  lemma SawStays(acts: seq<Act>, who: nat, k: (Event, string))
    requires Calm(acts) && SawCredential(acts, who, k)
    ensures Unexpired(Run(INIT, acts), k)
  {
    hide Run, Unexpired;
    var j :| 0 <= j < |acts| && MovesAt(acts, who, j) && Unexpired(Run(INIT, acts[..j + 1]), k);
    assert acts == acts[..j + 1] + acts[j + 1..];
    assert forall a | a in acts[j + 1..] :: a in acts;
    GoodStays(acts[..j + 1], acts[j + 1..], k);
  }

  predicate AllDone(s: State) {
    forall i | 0 <= i < |s.callers| :: s.callers[i].pc == Done
  }

  predicate AllGood(moves: seq<Act>) {
    forall a | a in moves :: a.Move? && a.ok
  }

  lemma GoodJoin(a: Act, rest: seq<Act>)
    requires a.Move? && a.ok && AllGood(rest)
    ensures AllGood([a] + rest)
  {
  }

  /** From every reachable state all calls can be brought to their end with nothing refused. */
  lemma {:induction false} CanFinish(acts: seq<Act>) returns (moves: seq<Act>)
    ensures Busy(Run(INIT, acts), moves) && AllGood(moves) && AllDone(Run(INIT, acts + moves))
    decreases TotalLeft(Run(INIT, acts).callers)
  {
    hide *;
    NoMoves(acts);
    moves := [];
    if !AllDone(Run(INIT, acts)) {
      var i := SomeoneLeft(Run(INIT, acts));
      var next := NextMove(acts, i);
      var rest := CanFinish(acts + [next]);
      moves := [next] + rest;
      assert acts + moves == acts + [next] + rest;
      BusyJoin(Run(INIT, acts), next, rest);
      GoodJoin(next, rest);
    }
  }

  lemma NoMoves(acts: seq<Act>)
    ensures Busy(Run(INIT, acts), []) && AllGood([]) && Run(INIT, acts + []) == Run(INIT, acts)
  {
    assert acts + [] == acts;
  }

  lemma SomeoneLeft(s: State) returns (i: nat)
    requires !AllDone(s)
    ensures i < |s.callers| && s.callers[i].pc != Done
  {
    i :| i < |s.callers| && s.callers[i].pc != Done;
  }

  lemma NextMove(acts: seq<Act>, i: nat) returns (next: Act)
    requires i < |Run(INIT, acts).callers| && Run(INIT, acts).callers[i].pc != Done
    ensures next.Move? && next.ok && Enabled(Run(INIT, acts), next.who) && Run(INIT, acts + [next]) == Step(Run(INIT, acts), next)
    ensures TotalLeft(Run(INIT, acts + [next]).callers) < TotalLeft(Run(INIT, acts).callers)
  {
    hide Run, Enabled, Step, TotalLeft;
    NoDeadlock(acts, i);
    var who :| Enabled(Run(INIT, acts), who);
    next := Move(who, true);
    StepProgress(Run(INIT, acts), who, true);
    RunSnoc(acts, next);
  }

  lemma RunSnoc(acts: seq<Act>, a: Act)
    ensures Run(INIT, acts + [a]) == Step(Run(INIT, acts), a)
  {
    assert (acts + [a])[..|acts|] == acts;
  }

  lemma {:induction false} BusyJoin(s: State, a: Act, rest: seq<Act>)
    requires a.Move? && Enabled(s, a.who) && Busy(Step(s, a), rest)
    ensures Busy(s, [a] + rest) && Run(s, [a] + rest) == Run(Step(s, a), rest)
  {
    hide Enabled, Step;
    if rest == [] {
      assert [a] + rest == [a] && [a][..0] == [];
      assert Run(s, []) == s && Busy(s, []);
      assert Run(s, [a]) == Step(s, a);
    } else {
      var front := rest[..|rest| - 1];
      BusyJoin(s, a, front);
      assert ([a] + rest)[..|rest|] == [a] + front;
    }
  }

  /** A call whose repository and good credential are cached takes no mutex after the client's. */
  lemma CachedIsQuick(s: State, who: nat, ok: bool)
    requires who < |s.callers| && s.callers[who].pc == TryRepository
    requires s.callers[who].repository in s.repositories && Unexpired(s, Key(s.callers[who]))
    ensures Step(Step(s, Move(who, ok)), Move(who, ok)) == s.(callers := s.callers[who := s.callers[who].(pc := Done)])
  {
  }
}
