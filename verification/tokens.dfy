/** The token caches of facades/gh.go under any number of concurrent callers: double-checked locking around a map of
    containers, each with an atomic 64-bit use counter. Registration and remove tokens are two instances. */
module Tokens {
  import opened Wrappers

  const WORD := 0x1_0000_0000_0000_0000
  const LIMIT := 60

  /** A count as the 64-bit counter shows it. */
  function Wrapped(n: nat): (r: nat)
    ensures r < WORD
  {
    n % WORD
  }

  lemma WrappedNext(n: nat)
    ensures Wrapped(Wrapped(n) + 1) == Wrapped(n + 1)
  {
    assert (n % WORD + 1) % WORD == (n + 1) % WORD;
  }

  /** Where a call of getGitHubRegistrationToken (or its twin) is. Once it is decided it carries what the call returns: the
      container whose token it was given, or None for an error. */
  datatype Pc =
    | Get1
    | Add1(c: nat)
    | WantLock
    | Get2
    | Add2(c: nat)
    | Mint
    | Unlock(token: Option<nat>)
    | Done(token: Option<nat>)

  datatype Caller = Caller(key: string, pc: Pc)

  /** A container: the wrapped counter Rate and, as history, the additions made and the hits granted. */
  datatype Container = Container(key: string, rate: nat, attempts: nat, hits: nat)

  datatype State = State(
    cache: map<string, nat>,
    containers: seq<Container>,
    holder: Option<nat>,
    callers: seq<Caller>)

  /** Call: a new caller. Move: the next statement of one caller; ok is what the outside world says there (the token
      is far enough from expiry, the API call succeeded). Evict: the cache drops a key. */
  datatype Act = Call(key: string) | Move(who: nat, ok: bool) | Evict(key: string)

  const INIT := State(map[], [], None, [])

  /** cache.Get */
  function Lookup(s: State, key: string): Option<nat> {
    if key in s.cache then Some(s.cache[key]) else None
  }

  /** The container after atomic.AddUint64(&Rate, 1), and whether the caller is given its token. */
  function Use(c: Container, valid: bool): (r: (Container, bool))
    ensures r.1 ==> valid
    ensures r.0.key == c.key
  {
    var rate := Wrapped(c.rate + 1);
    var granted := rate < LIMIT && valid;
    (c.(rate := rate, attempts := c.attempts + 1, hits := c.hits + if granted then 1 else 0), granted)
  }

  function At(s: State, who: nat, pc: Pc): State
    requires who < |s.callers|
  {
    s.(callers := s.callers[who := s.callers[who].(pc := pc)])
  }

  function Advance(s: State, who: nat, ok: bool): State
    requires who < |s.callers|
  {
    var key := s.callers[who].key;
    match s.callers[who].pc
    case Get1 => At(s, who, match Lookup(s, key) case Some(c) => Add1(c) case None => WantLock)
    case Add1(c) =>
      if c >= |s.containers| then s
      else
        var (used, granted) := Use(s.containers[c], ok);
        At(s.(containers := s.containers[c := used]), who, if granted then Done(Some(c)) else WantLock)
    case WantLock => if s.holder == None then At(s.(holder := Some(who)), who, Get2) else s
    case Get2 => At(s, who, match Lookup(s, key) case Some(c) => Add2(c) case None => Mint)
    case Add2(c) =>
      if c >= |s.containers| then s
      else
        var (used, granted) := Use(s.containers[c], ok);
        At(s.(containers := s.containers[c := used]), who, if granted then Unlock(Some(c)) else Mint)
    case Mint =>
      if !ok then At(s, who, Unlock(None))
      else
        var c := |s.containers|;
        At(s.(containers := s.containers + [Container(key, 0, 0, 0)], cache := s.cache[key := c]), who, Unlock(Some(c)))
    case Unlock(token) => At(s.(holder := None), who, Done(token))
    case Done(_) => s
  }

  function Step(s: State, a: Act): State {
    match a
    case Call(key) => s.(callers := s.callers + [Caller(key, Get1)])
    case Move(who, ok) => if who < |s.callers| then Advance(s, who, ok) else s
    case Evict(key) => s.(cache := s.cache - {key})
  }

  function Exec(acts: seq<Act>): State {
    if acts == [] then INIT else Step(Exec(acts[..|acts| - 1]), acts[|acts| - 1])
  }

  // ---------- how often a counter that wraps is low ----------

  /** The number of additions among the first n whose result is below the limit. */
  function Low(n: nat): nat {
    if n == 0 then 0 else Low(n - 1) + if Wrapped(n) < LIMIT then 1 else 0
  }

  lemma {:induction false} LowClosed(n: nat)
    ensures Low(n) == LIMIT * (n / WORD) + if n % WORD < LIMIT then n % WORD else LIMIT - 1
  {
    if n > 0 {
      LowClosed(n - 1);
      if n % WORD == 0 {
        assert n == WORD * (n / WORD);
        assert n - 1 == WORD * (n / WORD - 1) + (WORD - 1);
        assert (n - 1) / WORD == n / WORD - 1 && (n - 1) % WORD == WORD - 1;
      } else {
        assert (n - 1) / WORD == n / WORD && (n - 1) % WORD == n % WORD - 1;
      }
    }
  }

  lemma {:induction false} LowGrows(m: nat, n: nat)
    requires m <= n
    ensures Low(m) <= Low(n)
    decreases n
  {
    if m < n { LowGrows(m, n - 1); }
  }

  // ---------- grants per container ----------

  /** The times a container's token was handed out: once to its minter and once per hit. */
  function Grants(c: Container): nat {
    1 + c.hits
  }

  ghost predicate CountInv(s: State) {
    && (forall c | 0 <= c < |s.containers| ::
          var k := s.containers[c]; k.rate == Wrapped(k.attempts) && k.hits <= Low(k.attempts))
    && (forall key | key in s.cache :: s.cache[key] < |s.containers|)
  }

  lemma UseCounts(c: Container, valid: bool)
    requires c.rate == Wrapped(c.attempts) && c.hits <= Low(c.attempts)
    ensures var u := Use(c, valid).0;
            && u.rate == Wrapped(u.attempts) && u.hits <= Low(u.attempts)
            && (valid && c.hits == Low(c.attempts) ==> u.hits == Low(u.attempts))
            && u.attempts == c.attempts + 1
            && (Use(c, valid).1 <==> valid && Wrapped(u.attempts) < LIMIT)
  {
    hide Wrapped;
    WrappedNext(c.attempts);
  }

  lemma CountKept(s: State, a: Act)
    requires CountInv(s)
    ensures CountInv(Step(s, a))
  {
    hide Low;
    if a.Move? && a.who < |s.callers| {
      var pc := s.callers[a.who].pc;
      if (pc.Add1? || pc.Add2?) && pc.c < |s.containers| { UseCounts(s.containers[pc.c], a.ok); }
      if pc.Mint? { assert Low(0) == 0 by { LowClosed(0); } }
    }
  }

  lemma {:induction false} AlwaysCounts(acts: seq<Act>)
    ensures CountInv(Exec(acts))
  {
    if acts != [] {
      AlwaysCounts(acts[..|acts| - 1]);
      CountKept(Exec(acts[..|acts| - 1]), acts[|acts| - 1]);
    }
  }

  /** Whatever the interleaving, expiry and eviction: one minted token is handed out at most 60 times for every full turn
      of the 64-bit counter, and at most 60 times while its counter has not turned over. */
  lemma AtMostSixty(acts: seq<Act>, c: nat)
    requires c < |Exec(acts).containers|
    ensures var k := Exec(acts).containers[c];
            && Grants(k) <= LIMIT * (k.attempts / WORD) + LIMIT
            && (k.attempts < WORD ==> Grants(k) <= LIMIT)
  {
    AlwaysCounts(acts);
    LowClosed(Exec(acts).containers[c].attempts);
  }

  // ---------- mutual exclusion ----------

  predicate Inside(pc: Pc) {
    pc.Get2? || pc.Add2? || pc.Mint? || pc.Unlock?
  }

  /** The mutex is held exactly by the one caller between Lock and the deferred Unlock. */
  ghost predicate LockInv(s: State) {
    && (forall i | 0 <= i < |s.callers| :: Inside(s.callers[i].pc) <==> s.holder == Some(i))
    && (s.holder.Some? ==> s.holder.value < |s.callers|)
  }

  lemma {:induction false} AlwaysLocked(acts: seq<Act>)
    ensures LockInv(Exec(acts))
  {
    if acts != [] { AlwaysLocked(acts[..|acts| - 1]); }
  }

  // ---------- mints imply grants ----------

  /** A run on which nothing is evicted and no cached token comes near its expiry. */
  predicate Steady(acts: seq<Act>) {
    acts == [] ||
    var s, a := Exec(acts[..|acts| - 1]), acts[|acts| - 1];
    && Steady(acts[..|acts| - 1])
    && !a.Evict?
    && (a.Move? && a.who < |s.callers| && (s.callers[a.who].pc.Add1? || s.callers[a.who].pc.Add2?) ==> a.ok)
  }

  /** A container whose token has been handed out all 60 times. */
  predicate Spent(c: Container) {
    c.attempts >= LIMIT
  }

  /** On a steady run every use below the limit was granted, only the newest container of a key is cached, and all
      others of that key are spent; so is the newest once its caller is about to mint. */
  ghost predicate SteadyInv(s: State) {
    && CountInv(s)
    && (forall c | 0 <= c < |s.containers| :: s.containers[c].hits == Low(s.containers[c].attempts))
    && (forall key | key in s.cache :: s.containers[s.cache[key]].key == key)
    && (forall c | 0 <= c < |s.containers| :: s.containers[c].key in s.cache)
    && (forall c | 0 <= c < |s.containers| :: s.cache[s.containers[c].key] != c ==> Spent(s.containers[c]))
    && (forall i | 0 <= i < |s.callers| && s.callers[i].pc.Add2? ::
          s.callers[i].key in s.cache && s.cache[s.callers[i].key] == s.callers[i].pc.c)
    && (forall i | 0 <= i < |s.callers| && s.callers[i].pc.Mint? && s.callers[i].key in s.cache ::
          Spent(s.containers[s.cache[s.callers[i].key]]))
  }

  ghost predicate Sound(s: State) {
    CountInv(s) && LockInv(s) && SteadyInv(s)
  }

  lemma SteadyUse(s: State, who: nat)
    requires Sound(s) && who < |s.callers| && CountInv(Advance(s, who, true)) && (s.callers[who].pc.Add1? || s.callers[who].pc.Add2?)
    ensures SteadyInv(Advance(s, who, true))
  {
    hide Low;
    var c := s.callers[who].pc.c;
    if c < |s.containers| {
      UseCounts(s.containers[c], true);
    }
  }

  lemma SteadyMint(s: State, who: nat, ok: bool)
    requires Sound(s) && who < |s.callers| && CountInv(Advance(s, who, ok)) && s.callers[who].pc.Mint?
    ensures SteadyInv(Advance(s, who, ok))
  {
    hide Low;
    LowClosed(0);
    assert s.holder == Some(who);
  }

  lemma SteadyKept(s: State, a: Act)
    requires Sound(s) && !a.Evict?
    requires a.Move? && a.who < |s.callers| && (s.callers[a.who].pc.Add1? || s.callers[a.who].pc.Add2?) ==> a.ok
    ensures SteadyInv(Step(s, a))
  {
    hide Low, Use;
    CountKept(s, a);
    if a.Move? && a.who < |s.callers| {
      match s.callers[a.who].pc
      case Add1(_) => SteadyUse(s, a.who);
      case Add2(_) => SteadyUse(s, a.who);
      case Mint => SteadyMint(s, a.who, a.ok);
      case _ =>
    }
  }

  lemma {:induction false} AlwaysSteady(acts: seq<Act>)
    requires Steady(acts)
    ensures Sound(Exec(acts))
  {
    AlwaysCounts(acts);
    AlwaysLocked(acts);
    if acts != [] {
      AlwaysSteady(acts[..|acts| - 1]);
      SteadyKept(Exec(acts[..|acts| - 1]), acts[|acts| - 1]);
    }
  }

  /** Without expiry or eviction the limit is kept exactly until the counter turns over. */
  lemma SixtyIff(acts: seq<Act>, c: nat)
    requires Steady(acts) && c < |Exec(acts).containers|
    ensures Grants(Exec(acts).containers[c]) <= LIMIT <==> Exec(acts).containers[c].attempts < WORD
  {
    AlwaysSteady(acts);
    hide *;
    FewAreLow(Exec(acts).containers[c].attempts);
    SteadyHits(Exec(acts), c);
  }

  lemma SteadyHits(s: State, c: nat)
    requires Sound(s) && c < |s.containers|
    ensures Grants(s.containers[c]) == 1 + Low(s.containers[c].attempts)
  {
    hide Low;
  }

  lemma FewAreLow(n: nat)
    ensures 1 + Low(n) <= LIMIT <==> n < WORD
  {
    LowClosed(n);
    assert n == WORD * (n / WORD) + n % WORD;
  }

  /** The successful mints for a key, and the times any of their tokens was handed out. */
  function Mints(containers: seq<Container>, key: string): nat {
    if containers == [] then 0
    else Mints(containers[..|containers| - 1], key) + if containers[|containers| - 1].key == key then 1 else 0
  }

  function TotalGrants(containers: seq<Container>, key: string): nat {
    if containers == [] then 0
    else
      var last := containers[|containers| - 1];
      TotalGrants(containers[..|containers| - 1], key) + if last.key == key then Grants(last) else 0
  }

  lemma {:induction false} SpentSum(containers: seq<Container>, key: string, current: nat)
    requires forall c | 0 <= c < |containers| && containers[c].key == key && c != current :: Grants(containers[c]) >= LIMIT
    ensures TotalGrants(containers, key) >=
              LIMIT * Mints(containers, key) - (if current < |containers| && containers[current].key == key then LIMIT - 1 else 0)
  {
    if containers != [] {
      var front := containers[..|containers| - 1];
      assert forall c | 0 <= c < |front| :: front[c] == containers[c];
      SpentSum(front, key, current);
    }
  }

  /** Without expiry or eviction, k mints for a key imply at least 60 (k - 1) + 1 grants: a token is replaced only after
      it has been handed out all 60 times. */
  lemma MintsImplyGrants(acts: seq<Act>, key: string)
    requires Steady(acts)
    ensures var containers := Exec(acts).containers;
            && (Mints(containers, key) > 0 ==> TotalGrants(containers, key) >= LIMIT * (Mints(containers, key) - 1) + 1)
            && (forall c | 0 <= c < |containers| && containers[c].key == key && (key in Exec(acts).cache ==> Exec(acts).cache[key] != c) ::
                  Grants(containers[c]) >= LIMIT)
  {
    AlwaysSteady(acts);
    var s := Exec(acts);
    forall c | 0 <= c < |s.containers| && s.containers[c].key == key && (key in s.cache ==> s.cache[key] != c)
      ensures Grants(s.containers[c]) >= LIMIT
    {
      LowGrows(LIMIT, s.containers[c].attempts);
      LowClosed(LIMIT);
    }
    if key in s.cache {
      SpentSum(s.containers, key, s.cache[key]);
    } else {
      NoMints(s.containers, key);
    }
  }

  lemma Then(acts: seq<Act>, a: Act) returns (more: seq<Act>)
    ensures more == acts + [a] && Exec(more) == Step(Exec(acts), a)
  {
    more := acts + [a];
    assert more[..|acts|] == acts;
  }

  /** A caller that finds nothing cached, alone, mints a token. */
  lemma MintOne(acts: seq<Act>, key: string) returns (more: seq<Act>)
    requires Exec(acts).holder == None && key !in Exec(acts).cache
    ensures var s, s' := Exec(acts), Exec(more);
            && s'.holder == None && s'.containers == s.containers + [Container(key, 0, 0, 0)]
            && s'.cache == s.cache[key := |s.containers|]
  {
    var who := |Exec(acts).callers|;
    more := Then(acts, Call(key));
    hide Exec, Use;
    more := Then(more, Move(who, true));
    more := Then(more, Move(who, true));
    more := Then(more, Move(who, true));
    more := Then(more, Move(who, true));
    more := Then(more, Move(who, true));
  }

  /** With evictions a token may be replaced after a single grant. */
  lemma EvictionMintsEarly(key: string)
    ensures exists acts :: Mints(Exec(acts).containers, key) == 2 && TotalGrants(Exec(acts).containers, key) == 2
  {
    assert Exec([]) == INIT;
    var acts := MintOne([], key);
    acts := Then(acts, Evict(key));
    acts := MintOne(acts, key);
    var c := Container(key, 0, 0, 0);
    assert Exec(acts).containers == [c, c];
    assert [c, c][..1] == [c] && [c][..0] == [];
    assert Mints([c], key) == 1 && TotalGrants([c], key) == 1;
    assert Mints([c, c], key) == 2 && TotalGrants([c, c], key) == 2;
  }

  lemma {:induction false} NoMints(containers: seq<Container>, key: string)
    requires forall c | 0 <= c < |containers| :: containers[c].key != key
    ensures Mints(containers, key) == 0
  {
    if containers != [] { NoMints(containers[..|containers| - 1], key); }
  }

  // ---------- whose token a caller is given ----------

  /** The container a caller is looking at or was given the token of. */
  function Chosen(pc: Pc): Option<nat> {
    match pc
    case Add1(c) => Some(c)
    case Add2(c) => Some(c)
    case Unlock(token) => token
    case Done(token) => token
    case _ => None
  }

  predicate HoldsKey(s: State, c: nat, key: string) {
    c < |s.containers| && s.containers[c].key == key
  }

  ghost predicate KeyInv(s: State) {
    && (forall key | key in s.cache :: HoldsKey(s, s.cache[key], key))
    && (forall i | 0 <= i < |s.callers| && Chosen(s.callers[i].pc).Some? ::
          HoldsKey(s, Chosen(s.callers[i].pc).value, s.callers[i].key))
  }

  lemma KeyKept(s: State, a: Act)
    requires KeyInv(s)
    ensures KeyInv(Step(s, a))
  {
    var s' := Step(s, a);
    CacheKept(s, a);
    forall i | 0 <= i < |s'.callers| && Chosen(s'.callers[i].pc).Some?
      ensures HoldsKey(s', Chosen(s'.callers[i].pc).value, s'.callers[i].key)
    {
      if i < |s.callers| { CallerKept(s, a, i); }
    }
    hide *;
  }

  lemma CacheKept(s: State, a: Act)
    requires KeyInv(s)
    ensures forall key | key in Step(s, a).cache :: HoldsKey(Step(s, a), Step(s, a).cache[key], key)
  {
    hide Use, Chosen;
  }

  lemma CallerKept(s: State, a: Act, i: nat)
    requires KeyInv(s) && i < |s.callers|
    ensures |s.callers| <= |Step(s, a).callers| && Step(s, a).callers[i].key == s.callers[i].key
    ensures var pc := Step(s, a).callers[i].pc; Chosen(pc).Some? ==> HoldsKey(Step(s, a), Chosen(pc).value, s.callers[i].key)
  {
    if a.Move? && a.who == i {
      MoverKept(s, i, a.ok);
    } else {
      hide Use;
      assert Step(s, a).callers[i] == s.callers[i];
    }
  }

  lemma MoverKept(s: State, i: nat, ok: bool)
    requires KeyInv(s) && i < |s.callers|
    ensures var s' := Advance(s, i, ok);
            && |s'.callers| == |s.callers| && s'.callers[i].key == s.callers[i].key
            && (Chosen(s'.callers[i].pc).Some? ==> HoldsKey(s', Chosen(s'.callers[i].pc).value, s.callers[i].key))
  {
    hide Use;
  }

  lemma {:induction false} AlwaysKeys(acts: seq<Act>)
    ensures KeyInv(Exec(acts))
  {
    if acts != [] {
      AlwaysKeys(acts[..|acts| - 1]);
      KeyKept(Exec(acts[..|acts| - 1]), acts[|acts| - 1]);
    }
  }

  /** Some move of the caller had its mint refused. */
  ghost predicate MintRefused(acts: seq<Act>, who: nat) {
    exists j :: 0 <= j < |acts| && acts[j] == Move(who, false) && who < |Exec(acts[..j]).callers| && Exec(acts[..j]).callers[who].pc == Mint
  }

  lemma {:induction false} EmptyHanded(acts: seq<Act>, who: nat)
    requires who < |Exec(acts).callers| && (Exec(acts).callers[who].pc == Unlock(None) || Exec(acts).callers[who].pc == Done(None))
    ensures MintRefused(acts, who)
  {
    var front, a := acts[..|acts| - 1], acts[|acts| - 1];
    var s := Exec(front);
    hide Use;
    if who < |s.callers| && (s.callers[who].pc == Unlock(None) || s.callers[who].pc == Done(None)) {
      EmptyHanded(front, who);
      var j :| 0 <= j < |front| && front[j] == Move(who, false) && who < |Exec(front[..j]).callers| && Exec(front[..j]).callers[who].pc == Mint;
      assert acts[..j] == front[..j] && acts[j] == front[j];
    } else {
      assert a == Move(who, false) && s.callers[who].pc == Mint;
    }
  }

  /** In every run, with any expiry and eviction, a finished caller was given a token minted for the key it asked for, or the
      mint it asked for was refused. */
  lemma ServedOwnKey(acts: seq<Act>, who: nat)
    requires who < |Exec(acts).callers| && Exec(acts).callers[who].pc.Done?
    ensures var s := Exec(acts);
            var caller := s.callers[who];
            match caller.pc.token
            case Some(c) => c < |s.containers| && s.containers[c].key == caller.key
            case None => MintRefused(acts, who)
  {
    AlwaysKeys(acts);
    if Exec(acts).callers[who].pc == Done(None) { EmptyHanded(acts, who); }
  }

  /** How many callers were given the token of container c. */
  function Bearers(callers: seq<Caller>, c: nat): nat {
    if callers == [] then 0
    else
      Bearers(callers[..|callers| - 1], c) + Bears(callers[|callers| - 1].pc, c)
  }

  function Bears(pc: Pc, c: nat): nat {
    if pc == Unlock(Some(c)) || pc == Done(Some(c)) then 1 else 0
  }

  lemma {:induction false} BearersUpdate(callers: seq<Caller>, i: nat, pc: Pc, c: nat)
    requires i < |callers|
    ensures Bearers(callers[i := callers[i].(pc := pc)], c) == Bearers(callers, c) - Bears(callers[i].pc, c) + Bears(pc, c)
  {
    var n := |callers| - 1;
    var callers' := callers[i := callers[i].(pc := pc)];
    if i < n {
      BearersUpdate(callers[..n], i, pc, c);
      assert callers'[..n] == callers[..n][i := callers[..n][i].(pc := pc)];
    } else {
      assert callers'[..n] == callers[..n];
    }
  }

  lemma {:induction false} NoBearers(callers: seq<Caller>, c: nat)
    requires forall i | 0 <= i < |callers| :: Chosen(callers[i].pc) != Some(c)
    ensures Bearers(callers, c) == 0
  {
    if callers != [] { NoBearers(callers[..|callers| - 1], c); }
  }

  /** Each grant is one caller: the times a container's token was handed out are the callers that were given it. */
  lemma {:induction false} GrantsAreCallers(acts: seq<Act>, c: nat)
    requires c < |Exec(acts).containers|
    ensures Grants(Exec(acts).containers[c]) == Bearers(Exec(acts).callers, c)
  {
    var front, a := acts[..|acts| - 1], acts[|acts| - 1];
    var s := Exec(front);
    AlwaysKeys(front);
    if c < |s.containers| { GrantsAreCallers(front, c); }
    BearersStep(s, a, c);
  }

  lemma BearersStep(s: State, a: Act, c: nat)
    requires KeyInv(s) && c < |Step(s, a).containers| && (c < |s.containers| ==> Grants(s.containers[c]) == Bearers(s.callers, c))
    ensures Grants(Step(s, a).containers[c]) == Bearers(Step(s, a).callers, c)
  {
    match a
    case Call(key) => assert Step(s, a).callers[..|s.callers|] == s.callers;
    case Evict(_) =>
    case Move(who, ok) =>
      if who < |s.callers| {
        OneMoves(s, who, ok);
        if c >= |s.containers| { NoBearers(s.callers, c); }
        GrantsMove(s, who, ok, c);
        hide Advance;
        BearersUpdate(s.callers, who, Advance(s, who, ok).callers[who].pc, c);
      }
  }

  lemma OneMoves(s: State, who: nat, ok: bool)
    requires who < |s.callers|
    ensures Advance(s, who, ok).callers == s.callers[who := s.callers[who].(pc := Advance(s, who, ok).callers[who].pc)]
  {
    hide Use;
  }

  lemma GrantsMove(s: State, who: nat, ok: bool, c: nat)
    requires KeyInv(s) && who < |s.callers| && c < |Advance(s, who, ok).containers|
    ensures Grants(Advance(s, who, ok).containers[c]) ==
              (if c < |s.containers| then Grants(s.containers[c]) else 0)
              - Bears(s.callers[who].pc, c) + Bears(Advance(s, who, ok).callers[who].pc, c)
  {
    hide Wrapped;
  }

  /** So no more than 60 callers are ever given the same token while its counter has not turned over. */
  lemma AtMostSixtyCallers(acts: seq<Act>, c: nat)
    requires c < |Exec(acts).containers| && Exec(acts).containers[c].attempts < WORD
    ensures Bearers(Exec(acts).callers, c) <= LIMIT
  {
    hide Exec, Bearers;
    GrantsAreCallers(acts, c);
    AtMostSixty(acts, c);
  }

  // ---------- no caller is stuck ----------

  /** How many statements a caller is at most away from its end. */
  function Left(pc: Pc): nat {
    match pc
    case Get1 => 7 case Add1(_) => 6 case WantLock => 5 case Get2 => 4 case Add2(_) => 3 case Mint => 2 case Unlock(_) => 1
    case Done(_) => 0
  }

  predicate Waits(s: State, who: nat)
    requires who < |s.callers|
  {
    s.callers[who].pc == WantLock && s.holder.Some?
  }

  /** In every reachable state an unfinished caller gets nearer to its end by its next statement and no other caller is moved,
      or it waits for the mutex, and then its holder is unfinished and does not wait. */
  lemma CallersProgress(acts: seq<Act>, who: nat, ok: bool)
    requires who < |Exec(acts).callers| && !Exec(acts).callers[who].pc.Done?
    ensures var s, s' := Exec(acts), Step(Exec(acts), Move(who, ok));
            if Waits(s, who) then
              var holder := s.holder.value;
              holder < |s.callers| && !s.callers[holder].pc.Done? && !Waits(s, holder)
            else
              Left(s'.callers[who].pc) < Left(s.callers[who].pc) && s'.callers == s.callers[who := s'.callers[who]]
  {
    AlwaysKeys(acts);
    AlwaysLocked(acts);
    hide Exec, Wrapped;
  }

  // ---------- one caller alone ----------

  /** The next n statements of a caller: valid says whether a cached token is far enough from its expiry, minted whether the
      API gives a new one. */
  function Solo(s: State, who: nat, valid: bool, minted: bool, n: nat): State
    requires who < |s.callers|
    decreases n
  {
    if n == 0 then s
    else
      var s' := Step(s, Move(who, if s.callers[who].pc == Mint then minted else valid));
      if who < |s'.callers| then Solo(s', who, valid, minted, n - 1) else s
  }

  /** A container after n more additions, of which granted many gave its token away. */
  function After(k: Container, n: nat, granted: nat): Container {
    k.(rate := Wrapped(k.rate + n), attempts := k.attempts + n, hits := k.hits + granted)
  }

  /** How a call without competitors comes out: a cached token with uses left is given out without taking the mutex, at the cost
      of one use; one that fails the first look may pass the second; otherwise a token is minted and cached in its place. */
  function Outcome(s: State, key: string, valid: bool, minted: bool): State
    requires key in s.cache ==> s.cache[key] < |s.containers|
  {
    var n := |s.containers|;
    var asked := s.(callers := s.callers + [Caller(key, Done(if minted then Some(n) else None))]);
    var fresh' := asked.(containers := s.containers + [Container(key, 0, 0, 0)], cache := s.cache[key := n]);
    if key !in s.cache then if minted then fresh' else asked
    else
      var c := s.cache[key];
      var k := s.containers[c];
      var served := s.(callers := s.callers + [Caller(key, Done(Some(c)))]);
      if valid && Wrapped(k.rate + 1) < LIMIT then served.(containers := s.containers[c := After(k, 1, 1)])
      else if valid && Wrapped(k.rate + 2) < LIMIT then served.(containers := s.containers[c := After(k, 2, 1)])
      else if minted then fresh'.(containers := s.containers[c := After(k, 2, 0)] + [Container(key, 0, 0, 0)])
      else asked.(containers := s.containers[c := After(k, 2, 0)])
  }

  lemma SoloCall(acts: seq<Act>, key: string, valid: bool, minted: bool)
    requires Exec(acts).holder == None
    ensures key in Exec(acts).cache ==> Exec(acts).cache[key] < |Exec(acts).containers|
    ensures Solo(Step(Exec(acts), Call(key)), |Exec(acts).callers|, valid, minted, 7) == Outcome(Exec(acts), key, valid, minted)
  {
    AlwaysKeys(acts);
    var s := Exec(acts);
    hide Exec, Solo;
    assert Step(s, Call(key)) == Lone(s.cache, s.containers, None, s.callers, key, Get1);
    SoloStep(s.cache, s.containers, None, s.callers, key, Get1, valid, minted, 7);
    if key in s.cache { SoloCached(s.cache, s.containers, s.callers, key, valid, minted); } else { SoloMissing(s.cache, s.containers, s.callers, key, valid, minted); }
  }

  /** A state in which the newest caller asks for key and is at pc. */
  function Lone(cache: map<string, nat>, ks: seq<Container>, holder: Option<nat>, cs: seq<Caller>, key: string, pc: Pc): State {
    State(cache, ks, holder, cs + [Caller(key, pc)])
  }

  /** The statement of the newest caller, one by one. */
  function Next(cache: map<string, nat>, ks: seq<Container>, holder: Option<nat>, cs: seq<Caller>, key: string, pc: Pc, ok: bool): State {
    var c := if key in cache then cache[key] else 0;
    match pc
    case Get1 => Lone(cache, ks, holder, cs, key, if key in cache then Add1(c) else WantLock)
    case Get2 => Lone(cache, ks, holder, cs, key, if key in cache then Add2(c) else Mint)
    case WantLock => if holder == None then Lone(cache, ks, Some(|cs|), cs, key, Get2) else Lone(cache, ks, holder, cs, key, pc)
    case Add1(c) =>
      if c >= |ks| then Lone(cache, ks, holder, cs, key, pc)
      else if ok && Wrapped(ks[c].rate + 1) < LIMIT then Lone(cache, ks[c := After(ks[c], 1, 1)], holder, cs, key, Done(Some(c)))
      else Lone(cache, ks[c := After(ks[c], 1, 0)], holder, cs, key, WantLock)
    case Add2(c) =>
      if c >= |ks| then Lone(cache, ks, holder, cs, key, pc)
      else if ok && Wrapped(ks[c].rate + 1) < LIMIT then Lone(cache, ks[c := After(ks[c], 1, 1)], holder, cs, key, Unlock(Some(c)))
      else Lone(cache, ks[c := After(ks[c], 1, 0)], holder, cs, key, Mint)
    case Mint =>
      if ok then Lone(cache[key := |ks|], ks + [Container(key, 0, 0, 0)], holder, cs, key, Unlock(Some(|ks|)))
      else Lone(cache, ks, holder, cs, key, Unlock(None))
    case Unlock(token) => Lone(cache, ks, None, cs, key, Done(token))
    case Done(_) => Lone(cache, ks, holder, cs, key, pc)
  }

  lemma SoloStep(cache: map<string, nat>, ks: seq<Container>, holder: Option<nat>, cs: seq<Caller>, key: string, pc: Pc,
                 valid: bool, minted: bool, n: nat)
    requires n > 0
    ensures var ok := if pc == Mint then minted else valid;
            var s' := Next(cache, ks, holder, cs, key, pc, ok);
            |s'.callers| == |cs| + 1 && Solo(Lone(cache, ks, holder, cs, key, pc), |cs|, valid, minted, n) == Solo(s', |cs|, valid, minted, n - 1)
  {
    LoneMove(cache, ks, holder, cs, key, pc, if pc == Mint then minted else valid);
    hide Step, Next;
  }

  lemma LoneMove(cache: map<string, nat>, ks: seq<Container>, holder: Option<nat>, cs: seq<Caller>, key: string, pc: Pc, ok: bool)
    ensures Step(Lone(cache, ks, holder, cs, key, pc), Move(|cs|, ok)) == Next(cache, ks, holder, cs, key, pc, ok)
    ensures |Next(cache, ks, holder, cs, key, pc, ok).callers| == |cs| + 1
  {
    hide Wrapped;
    assert forall pc' :: (cs + [Caller(key, pc)])[|cs| := Caller(key, pc')] == cs + [Caller(key, pc')];
  }

  lemma SoloDone(s: State, who: nat, valid: bool, minted: bool, n: nat)
    requires who < |s.callers| && s.callers[who].pc.Done?
    ensures Solo(s, who, valid, minted, n) == s
  {
    if n > 0 { SoloDone(s, who, valid, minted, n - 1); }
  }

  /** From the mint on. */
  lemma SoloMint(cache: map<string, nat>, ks: seq<Container>, cs: seq<Caller>, key: string, valid: bool, minted: bool, n: nat)
    requires n >= 2
    ensures Solo(Lone(cache, ks, Some(|cs|), cs, key, Mint), |cs|, valid, minted, n) ==
              if minted then Lone(cache[key := |ks|], ks + [Container(key, 0, 0, 0)], None, cs, key, Done(Some(|ks|)))
              else Lone(cache, ks, None, cs, key, Done(None))
  {
    hide Solo;
    SoloStep(cache, ks, Some(|cs|), cs, key, Mint, valid, minted, n);
    if minted {
      SoloUnlock(cache[key := |ks|], ks + [Container(key, 0, 0, 0)], cs, key, Some(|ks|), valid, minted, n - 1);
    } else {
      SoloUnlock(cache, ks, cs, key, None, valid, minted, n - 1);
    }
  }

  lemma SoloUnlock(cache: map<string, nat>, ks: seq<Container>, cs: seq<Caller>, key: string, token: Option<nat>, valid: bool, minted: bool, n: nat)
    requires n >= 1
    ensures Solo(Lone(cache, ks, Some(|cs|), cs, key, Unlock(token)), |cs|, valid, minted, n) == Lone(cache, ks, None, cs, key, Done(token))
  {
    hide Solo;
    SoloStep(cache, ks, Some(|cs|), cs, key, Unlock(token), valid, minted, n);
    SoloDone(Lone(cache, ks, None, cs, key, Done(token)), |cs|, valid, minted, n - 1);
  }

  lemma SoloMissing(cache: map<string, nat>, ks: seq<Container>, cs: seq<Caller>, key: string, valid: bool, minted: bool)
    requires key !in cache
    ensures Solo(Lone(cache, ks, None, cs, key, WantLock), |cs|, valid, minted, 6) == Outcome(State(cache, ks, None, cs), key, valid, minted)
  {
    hide Solo;
    SoloStep(cache, ks, None, cs, key, WantLock, valid, minted, 6);
    SoloStep(cache, ks, Some(|cs|), cs, key, Get2, valid, minted, 5);
    SoloMint(cache, ks, cs, key, valid, minted, 4);
  }

  lemma SoloCached(cache: map<string, nat>, ks: seq<Container>, cs: seq<Caller>, key: string, valid: bool, minted: bool)
    requires key in cache && cache[key] < |ks|
    ensures Solo(Lone(cache, ks, None, cs, key, Add1(cache[key])), |cs|, valid, minted, 6) == Outcome(State(cache, ks, None, cs), key, valid, minted)
  {
    hide Solo, Wrapped;
    var c := cache[key];
    SoloStep(cache, ks, None, cs, key, Add1(c), valid, minted, 6);
    if valid && Wrapped(ks[c].rate + 1) < LIMIT {
      SoloDone(Lone(cache, ks[c := After(ks[c], 1, 1)], None, cs, key, Done(Some(c))), |cs|, valid, minted, 5);
    } else {
      SoloSecond(cache, ks, cs, key, valid, minted);
    }
  }

  /** From the mutex on, when something is cached. */
  lemma SoloLook(cache: map<string, nat>, ks: seq<Container>, cs: seq<Caller>, key: string, c: nat, valid: bool, minted: bool)
    requires key in cache && cache[key] == c < |ks|
    ensures Solo(Lone(cache, ks, None, cs, key, WantLock), |cs|, valid, minted, 5) ==
              if valid && Wrapped(ks[c].rate + 1) < LIMIT then Lone(cache, ks[c := After(ks[c], 1, 1)], None, cs, key, Done(Some(c)))
              else if minted then
                Lone(cache[key := |ks|], ks[c := After(ks[c], 1, 0)] + [Container(key, 0, 0, 0)], None, cs, key, Done(Some(|ks|)))
              else Lone(cache, ks[c := After(ks[c], 1, 0)], None, cs, key, Done(None))
  {
    hide Solo, Wrapped, After, Lone;
    SoloStep(cache, ks, None, cs, key, WantLock, valid, minted, 5);
    SoloStep(cache, ks, Some(|cs|), cs, key, Get2, valid, minted, 4);
    SoloStep(cache, ks, Some(|cs|), cs, key, Add2(c), valid, minted, 3);
    if valid && Wrapped(ks[c].rate + 1) < LIMIT {
      SoloUnlock(cache, ks[c := After(ks[c], 1, 1)], cs, key, Some(c), valid, minted, 2);
    } else {
      SoloMint(cache, ks[c := After(ks[c], 1, 0)], cs, key, valid, minted, 2);
    }
  }

  lemma AfterTwice(ks: seq<Container>, c: nat, granted: nat)
    requires c < |ks|
    ensures var used := ks[c := After(ks[c], 1, 0)];
            used[c := After(used[c], 1, granted)] == ks[c := After(ks[c], 2, granted)] && Wrapped(used[c].rate + 1) == Wrapped(ks[c].rate + 2)
  {
    WrappedNext(ks[c].rate + 1);
    hide Wrapped;
  }

  /** The second look at a container that failed the first. */
  lemma SoloSecond(cache: map<string, nat>, ks: seq<Container>, cs: seq<Caller>, key: string, valid: bool, minted: bool)
    requires key in cache && cache[key] < |ks| && !(valid && Wrapped(ks[cache[key]].rate + 1) < LIMIT)
    ensures var used := ks[cache[key] := After(ks[cache[key]], 1, 0)];
            Solo(Lone(cache, used, None, cs, key, WantLock), |cs|, valid, minted, 5) == Outcome(State(cache, ks, None, cs), key, valid, minted)
  {
    var c := cache[key];
    hide Solo, Wrapped, After;
    SoloLook(cache, ks[c := After(ks[c], 1, 0)], cs, key, c, valid, minted);
    AfterTwice(ks, c, 0);
    AfterTwice(ks, c, 1);
  }

  // ---------- the code, as one caller alone runs it ----------

  datatype Token = Token(value: string, expiresAt: int)

  class TokenContainer {
    const token: Token
    var rate: nat

    constructor (token: Token)
      ensures this.token == token && rate == 0
    {
      this.token := token;
      rate := 0;
    }
  }

  /** Times are in seconds. */
  class TokenStore {
    var tokens: map<string, TokenContainer>

    ghost function Footprint(): set<object>
      reads this
    {
      set key | key in tokens :: tokens[key]
    }

    /** tryGetGitHubRegistrationToken */
    method TryGet(key: string, now: int) returns (token: Option<Token>)
      modifies Footprint()
      ensures key !in tokens ==> token == None
      ensures key in tokens ==>
                && tokens[key].rate == Wrapped(old(tokens[key].rate) + 1)
                && token == if tokens[key].rate < LIMIT && tokens[key].token.expiresAt > now + 60 then Some(tokens[key].token) else None
      ensures forall c: TokenContainer | c in old(Footprint()) && (key !in tokens || c != tokens[key]) :: c.rate == old(c.rate)
    {
      if key !in tokens { return None; }
      var container := tokens[key];
      container.rate := Wrapped(container.rate + 1);
      if container.rate >= LIMIT || container.token.expiresAt <= now + 60 { return None; }
      return Some(container.token);
    }

    /** getGitHubRegistrationToken: a caller that misses tries again under the mutex, spending a second use, and then
        mints a token with a counter of its own. */
    method Get(key: string, now: int, minted: Option<Token>) returns (token: Option<Token>)
      modifies this, Footprint()
      ensures var hit := key in old(tokens) && Wrapped(old(tokens[key].rate) + 1) < LIMIT && old(tokens)[key].token.expiresAt > now + 60;
              var retry := key in old(tokens) && Wrapped(old(tokens[key].rate) + 2) < LIMIT && old(tokens)[key].token.expiresAt > now + 60;
              if hit || retry then
                && tokens == old(tokens) && token == Some(tokens[key].token)
                && tokens[key].rate == Wrapped(old(tokens[key].rate) + if hit then 1 else 2)
              else
                && token == minted
                && (key in old(tokens) ==> old(tokens)[key].rate == Wrapped(old(tokens[key].rate) + 2))
                && (minted == None ==> tokens == old(tokens))
                && (minted.Some? ==> key in tokens && fresh(tokens[key]) && tokens == old(tokens)[key := tokens[key]]
                                     && tokens[key].token == minted.value && tokens[key].rate == 0)
    {
      token := TryGet(key, now);
      if token.Some? { return; }
      token := TryGet(key, now);
      if token.Some? { return; }
      token := minted;
      if minted.Some? {
        var container := new TokenContainer(minted.value);
        tokens := tokens[key := container];
      }
    }
  }
}
