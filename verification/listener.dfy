/** Wire.Listen of wire/wire.go: the flag that is set after the goroutine is launched and cleared without the lock. */
module Listener {
  import opened Wrappers

  /** A caller of Listen. */
  datatype CallerPc = WantLock | Check | Launch | SetFlag(loop: nat) | Release | Returned

  /** A launched goroutine: in its message loop or past the statement that clears the flag; early when it got past that
      statement before its launcher had set the flag. */
  datatype Loop = Loop(running: bool, early: bool)

  datatype State = State(flag: bool, holder: Option<nat>, callers: seq<CallerPc>, loops: seq<Loop>)

  datatype Act = Call | Move(who: nat) | EndLoop(loop: nat)

  const INIT := State(false, None, [], [])

  function Advance(s: State, who: nat): State
    requires who < |s.callers|
  {
    match s.callers[who]
    case WantLock => if s.holder == None then s.(holder := Some(who), callers := s.callers[who := Check]) else s
    case Check => s.(callers := s.callers[who := if s.flag then Release else Launch])
    case Launch => s.(loops := s.loops + [Loop(true, false)], callers := s.callers[who := SetFlag(|s.loops|)])
    case SetFlag(_) => s.(flag := true, callers := s.callers[who := Release])
    case Release => s.(holder := None, callers := s.callers[who := Returned])
    case Returned => s
  }

  /** Whether the launcher of a loop has yet to set the flag. */
  predicate Unset(s: State, loop: nat) {
    s.holder.Some? && s.holder.value < |s.callers| && s.callers[s.holder.value] == SetFlag(loop)
  }

  function Step(s: State, a: Act): State {
    match a
    case Call => s.(callers := s.callers + [WantLock])
    case Move(who) => if who < |s.callers| then Advance(s, who) else s
    case EndLoop(l) =>
      if l < |s.loops| && s.loops[l].running then s.(flag := false, loops := s.loops[l := Loop(false, Unset(s, l))]) else s
  }

  function Run(s: State, acts: seq<Act>): State {
    if acts == [] then s else Step(Run(s, acts[..|acts| - 1]), acts[|acts| - 1])
  }

  predicate Inside(pc: CallerPc) {
    pc.Check? || pc.Launch? || pc.SetFlag? || pc.Release?
  }

  ghost predicate Inv(s: State) {
    && (forall i | 0 <= i < |s.callers| :: Inside(s.callers[i]) <==> s.holder == Some(i))
    && (s.holder.Some? ==> s.holder.value < |s.callers|)
    // only the newest loop can be running, and while it is the flag is set or about to be
    && (forall l | 0 <= l < |s.loops| && s.loops[l].running :: l == |s.loops| - 1 && (s.flag || Unset(s, l)))
    && (forall i | 0 <= i < |s.callers| && s.callers[i].SetFlag? ::
          |s.loops| > 0 && s.callers[i].loop == |s.loops| - 1 && (s.loops[|s.loops| - 1].running || s.loops[|s.loops| - 1].early))
    && (forall i | 0 <= i < |s.callers| && (s.callers[i].Launch? || s.callers[i].SetFlag?) :: !s.flag)
    && (forall i | 0 <= i < |s.callers| && s.callers[i].Launch? :: forall l | 0 <= l < |s.loops| :: !s.loops[l].running)
    // the flag without a running loop
    && (s.flag && (forall l | 0 <= l < |s.loops| :: !s.loops[l].running) ==> |s.loops| > 0 && s.loops[|s.loops| - 1].early)
    && (!s.flag && |s.loops| > 0 && s.loops[|s.loops| - 1].early ==> Unset(s, |s.loops| - 1))
    && (forall l | 0 <= l < |s.loops| && s.loops[l].early :: !s.loops[l].running)
    && (forall l | 0 <= l < |s.loops| - 1 :: !s.loops[l].early)
  }

  lemma InvKept(s: State, a: Act)
    requires Inv(s)
    ensures Inv(Step(s, a))
  {
    if a.Move? && a.who < |s.callers| && s.callers[a.who].Launch? {
      var s' := Step(s, a);
      assert forall l | 0 <= l < |s.loops| :: s'.loops[l] == s.loops[l];
    }
  }

  lemma {:induction false} AlwaysInv(acts: seq<Act>)
    ensures Inv(Run(INIT, acts))
  {
    if acts != [] {
      AlwaysInv(acts[..|acts| - 1]);
      InvKept(Run(INIT, acts[..|acts| - 1]), acts[|acts| - 1]);
    }
  }

  /** At most one message loop runs at a time, however calls of Listen and ends of loops interleave. */
  lemma AtMostOneLoop(acts: seq<Act>, i: nat, j: nat)
    requires var s := Run(INIT, acts); i < |s.loops| && j < |s.loops| && s.loops[i].running && s.loops[j].running
    ensures i == j
  {
    AlwaysInv(acts);
  }

  /** A wire that says it is listening although no loop runs. */
  predicate Stuck(s: State) {
    s.flag && forall l | 0 <= l < |s.loops| :: !s.loops[l].running
  }

  /** The flag is right between calls exactly unless the newest loop ended before its launcher had set the flag. */
  lemma StuckIff(acts: seq<Act>)
    requires Run(INIT, acts).holder == None
    ensures var s := Run(INIT, acts);
            && (Stuck(s) <==> |s.loops| > 0 && s.loops[|s.loops| - 1].early)
            && (!Stuck(s) ==> (s.flag <==> exists l :: 0 <= l < |s.loops| && s.loops[l].running))
  {
    AlwaysInv(acts);
    var s := Run(INIT, acts);
    if |s.loops| > 0 && s.loops[|s.loops| - 1].early {
      assert forall l | 0 <= l < |s.loops| :: !s.loops[l].running;
    }
  }

  /** A stuck wire stays stuck: no later call launches a loop. */
  lemma {:induction false} StuckForever(acts: seq<Act>, more: seq<Act>)
    requires Stuck(Run(INIT, acts))
    ensures Stuck(Run(Run(INIT, acts), more)) && Run(Run(INIT, acts), more).loops == Run(INIT, acts).loops
  {
    if more != [] {
      var front := more[..|more| - 1];
      StuckForever(acts, front);
      RunJoin(INIT, acts, front);
      AlwaysInv(acts + front);
    }
  }

  lemma {:induction false} RunJoin(s: State, acts: seq<Act>, more: seq<Act>)
    ensures Run(s, acts + more) == Run(Run(s, acts), more)
  {
    if more == [] {
      assert acts + more == acts;
    } else {
      assert (acts + more)[..|acts + more| - 1] == acts + more[..|more| - 1];
      RunJoin(s, acts, more[..|more| - 1]);
    }
  }

  lemma Then(acts: seq<Act>, a: Act) returns (more: seq<Act>)
    ensures more == acts + [a] && Run(INIT, more) == Step(Run(INIT, acts), a)
  {
    more := acts + [a];
    assert more[..|acts|] == acts;
  }

  /** Such a run exists: the goroutine ends between its launch and the assignment of the flag. */
  lemma StuckReachable()
    ensures exists acts :: Stuck(Run(INIT, acts)) && Run(INIT, acts).holder == None
  {
    var acts := Then([], Call);
    acts := Then(acts, Move(0));
    acts := Then(acts, Move(0));
    acts := Then(acts, Move(0));
    acts := Then(acts, EndLoop(0));
    acts := Then(acts, Move(0));
    acts := Then(acts, Move(0));
    assert Stuck(Run(INIT, acts));
  }

  // ---------- what a call does ----------

  function Left(pc: CallerPc): nat {
    match pc
    case WantLock => 5 case Check => 4 case Launch => 3 case SetFlag(_) => 2 case Release => 1 case Returned => 0
  }

  predicate Waits(s: State, who: nat)
    requires who < |s.callers|
  {
    s.callers[who] == WantLock && s.holder.Some?
  }

  /** In every reachable state an unfinished call gets nearer to its end by its next statement, or it waits for the mutex, and
      then its holder is unfinished and does not wait. */
  lemma CallsProgress(acts: seq<Act>, who: nat)
    requires who < |Run(INIT, acts).callers| && Run(INIT, acts).callers[who] != Returned
    ensures var s, s' := Run(INIT, acts), Step(Run(INIT, acts), Move(who));
            if Waits(s, who) then
              s.holder.value < |s.callers| && s.callers[s.holder.value] != Returned && !Waits(s, s.holder.value)
            else
              |s'.callers| == |s.callers| && Left(s'.callers[who]) < Left(s.callers[who])
  {
    AlwaysInv(acts);
    hide Run;
  }

  /** The next n statements of a caller. */
  function Solo(s: State, who: nat, n: nat): State
    requires who < |s.callers|
    decreases n
  {
    if n == 0 then s
    else
      var s' := Step(s, Move(who));
      if who < |s'.callers| then Solo(s', who, n - 1) else s
  }

  lemma SoloStep(flag: bool, holder: Option<nat>, cs: seq<CallerPc>, pc: CallerPc, loops: seq<Loop>, n: nat)
    requires n > 0 && (pc == WantLock ==> holder == None)
    ensures var s := State(flag, holder, cs + [pc], loops);
            Solo(s, |cs|, n) == Solo(
              match pc
              case WantLock => State(flag, Some(|cs|), cs + [Check], loops)
              case Check => State(flag, holder, cs + [if flag then Release else Launch], loops)
              case Launch => State(flag, holder, cs + [SetFlag(|loops|)], loops + [Loop(true, false)])
              case SetFlag(_) => State(true, holder, cs + [Release], loops)
              case Release => State(flag, None, cs + [Returned], loops)
              case Returned => s, |cs|, n - 1)
  {
    assert forall pc' :: (cs + [pc])[|cs| := pc'] == cs + [pc'];
  }

  /** A call without competitors launches one loop and sets the flag when it finds the flag clear, and otherwise does nothing. */
  lemma SoloListen(s: State)
    requires s.holder == None
    ensures Solo(Step(s, Call), |s.callers|, 5) ==
              if s.flag then s.(callers := s.callers + [Returned])
              else State(true, None, s.callers + [Returned], s.loops + [Loop(true, false)])
  {
    hide Solo;
    var cs := s.callers;
    SoloStep(s.flag, None, cs, WantLock, s.loops, 5);
    SoloStep(s.flag, Some(|cs|), cs, Check, s.loops, 4);
    if s.flag {
      SoloStep(true, Some(|cs|), cs, Release, s.loops, 3);
      SoloStep(true, None, cs, Returned, s.loops, 2);
      SoloStep(true, None, cs, Returned, s.loops, 1);
      SoloNone(State(true, None, cs + [Returned], s.loops), |cs|);
    } else {
      var loops := s.loops + [Loop(true, false)];
      SoloStep(false, Some(|cs|), cs, Launch, s.loops, 3);
      SoloStep(false, Some(|cs|), cs, SetFlag(|s.loops|), loops, 2);
      SoloStep(true, Some(|cs|), cs, Release, loops, 1);
      SoloNone(State(true, None, cs + [Returned], loops), |cs|);
    }
  }

  lemma SoloNone(s: State, who: nat)
    requires who < |s.callers|
    ensures Solo(s, who, 0) == s
  {
  }

  /** A loop that ends after its launcher has set the flag leaves a wire on which the next call launches another. */
  lemma ListensAgain(s: State, l: nat)
    requires s.holder == None && l < |s.loops| && s.loops[l].running
    ensures var s' := Solo(Step(Step(s, EndLoop(l)), Call), |s.callers|, 5);
            s'.flag && s'.loops == s.loops[l := Loop(false, false)] + [Loop(true, false)]
  {
    hide Solo;
    SoloListen(Step(s, EndLoop(l)));
  }
}

/** The message loop of wire/wire.go. */
module MessageLoop {
  import opened Wrappers

  datatype Kind = JobRequest | AgentRefresh | Other

  /** A message as it arrives; any part may be missing. */
  datatype Raw = Raw(id: Option<nat>, kind: Option<Kind>, body: Option<string>)

  datatype Got = GetFailed | NoMessage | Arrived(raw: Raw)

  /** What decoding and validating a job request comes to. */
  datatype Verdict = Undecodable | ValidationFailed | Violated | NoViolation

  /** What the outside world answers during one turn of the loop. */
  datatype Turn = Turn(closed: bool, refreshed: bool, got: Got, verdict: Verdict, deleted: bool, agentDeleted: bool)

  /** The outward actions of the loop, in order. */
  datatype Event =
    | GetMessage(last: Option<nat>)
    | Received(id: nat, kind: Kind)
    | Deleted(id: nat)
    | AgentDeleted
    | Admitted(id: nat)
    | TokenSent
    | Notified

  datatype End = Running | Closed | JobAdmitted | Panicked

  function ReceivedIds(log: seq<Event>): seq<nat> {
    if log == [] then []
    else ReceivedIds(log[..|log| - 1]) + match log[|log| - 1] case Received(id, _) => [id] case _ => []
  }

  function DeletedIds(log: seq<Event>): seq<nat> {
    if log == [] then []
    else DeletedIds(log[..|log| - 1]) + match log[|log| - 1] case Deleted(id) => [id] case _ => []
  }

  function Last(ids: seq<nat>): Option<nat> {
    if ids == [] then None else Some(ids[|ids| - 1])
  }

  function Tokens(log: seq<Event>): nat {
    if log == [] then 0 else Tokens(log[..|log| - 1]) + if log[|log| - 1] == TokenSent then 1 else 0
  }

  /** The identifiers of the whole messages that arrive in the turns. */
  function Arrivals(turns: seq<Turn>): seq<nat> {
    if turns == [] then []
    else
      Arrivals(turns[..|turns| - 1]) +
      match turns[|turns| - 1].got
      case Arrived(Raw(Some(id), Some(_), Some(_))) => [id]
      case _ => []
  }

  /** Where one turn leaves the loop. */
  function EndOf(t: Turn): End {
    if t.closed then Closed
    else if !t.refreshed || t.got == GetFailed then Panicked
    else if t.got == NoMessage then Running
    else
      var raw := t.got.raw;
      if raw.id == None || raw.kind == None || raw.body == None then Panicked
      else if raw.kind == Some(JobRequest) && t.verdict == NoViolation then JobAdmitted
      else if raw.kind == Some(JobRequest) && t.verdict != Violated then Panicked
      else if !t.deleted || (raw.kind == Some(AgentRefresh) && !t.agentDeleted) then Panicked
      else Running
  }

  /** Where a script leaves the loop: the first turn that ends it decides. */
  function Outcome(turns: seq<Turn>): End {
    if turns == [] then Running
    else
      var front := Outcome(turns[..|turns| - 1]);
      if front == Running then EndOf(turns[|turns| - 1]) else front
  }

  lemma {:induction false} OutcomeInFront(turns: seq<Turn>, k: nat)
    requires k <= |turns| && Outcome(turns[..k]) != Running
    ensures Outcome(turns) == Outcome(turns[..k])
  {
    if k == |turns| {
      assert turns[..k] == turns;
    } else {
      assert turns[..|turns| - 1][..k] == turns[..k];
      OutcomeInFront(turns[..|turns| - 1], k);
    }
  }

  /** What ends the loop in a panic: credentials that cannot be refreshed, a failing request, a message with a part missing, a
      job request that cannot be decoded or judged, and a message or agent that cannot be deleted. A job request that violates
      a rule is none of it. */
  predicate Trouble(t: Turn) {
    || !t.refreshed
    || t.got == GetFailed
    || (t.got.Arrived? && (t.got.raw.id.None? || t.got.raw.kind.None? || t.got.raw.body.None?))
    || (JobRequested(t) && t.verdict in {Undecodable, ValidationFailed})
    || (t.got.Arrived? && !Admits(t) && !t.deleted)
    || (t.got.Arrived? && t.got.raw.kind == Some(AgentRefresh) && !t.agentDeleted)
  }

  predicate JobRequested(t: Turn) {
    t.got.Arrived? && t.got.raw.kind == Some(JobRequest)
  }

  predicate Admits(t: Turn) {
    t.got.Arrived? && t.got.raw.id.Some? && t.got.raw.body.Some? && t.got.raw.kind == Some(JobRequest) && t.verdict == NoViolation
  }

  /** A turn leaves the loop running exactly when the session is open, nothing fails and no job is admitted. */
  lemma TurnRunsIff(t: Turn)
    ensures EndOf(t) == Running <==> !t.closed && !Trouble(t) && !Admits(t)
    ensures EndOf(t) == JobAdmitted <==> !t.closed && t.refreshed && Admits(t)
    ensures EndOf(t) == Closed <==> t.closed
  {
  }

  /** So the loop is still running after a script exactly when every turn of it left it so. */
  lemma {:induction false} ScriptRunsIff(turns: seq<Turn>)
    ensures Outcome(turns) == Running <==> forall t | t in turns :: !t.closed && !Trouble(t) && !Admits(t)
  {
    if turns != [] {
      var front, last := turns[..|turns| - 1], turns[|turns| - 1];
      ScriptRunsIff(front);
      TurnRunsIff(last);
      assert turns == front + [last];
    }
  }

  /** Message id is a job request of the script that violates no rule. */
  predicate BrokeNoRule(turns: seq<Turn>, id: nat) {
    exists t :: 0 <= t < |turns| && IsAdmissible(turns[t], id)
  }

  predicate IsAdmissible(t: Turn, id: nat) {
    t.got.Arrived? && t.got.raw.id == Some(id) && t.got.raw.kind == Some(JobRequest) && t.verdict == NoViolation
  }

  lemma FromTurn(turns: seq<Turn>, t: nat, id: nat)
    requires t < |turns| && IsAdmissible(turns[t], id)
    ensures BrokeNoRule(turns, id)
  {
  }

  lemma NextOutcome(turns: seq<Turn>, t: nat)
    requires t < |turns| && Outcome(turns[..t]) == Running
    ensures if EndOf(turns[t]) == Running then Outcome(turns[..t + 1]) == Running else Outcome(turns) == EndOf(turns[t])
  {
    hide EndOf;
    assert turns[..t + 1][..t] == turns[..t];
    if EndOf(turns[t]) != Running { OutcomeInFront(turns, t + 1); }
  }

  predicate Quiet(log: seq<Event>) {
    forall e | e in log :: !e.Admitted? && e != TokenSent && e != Notified
  }

  /** Whenever the loop asks for a message it has acknowledged all it received, once and in order, has admitted nothing,
      and names the last one received. */
  predicate AsksInStep(log: seq<Event>) {
    forall i | 0 <= i < |log| && log[i].GetMessage? ::
      DeletedIds(log[..i]) == ReceivedIds(log[..i]) && log[i].last == Last(ReceivedIds(log[..i])) && Quiet(log[..i])
  }

  /** The end of a run that admitted the job of message id. */
  predicate EndsAdmitting(log: seq<Event>, id: nat) {
    var n := |log|;
    && n >= 4 && log[n - 4..] == [Received(id, JobRequest), Admitted(id), TokenSent, Notified]
    && Quiet(log[..n - 4])
    && DeletedIds(log[..n - 4]) == ReceivedIds(log[..n - 4])
  }

  lemma Snoc(log: seq<Event>, e: Event)
    ensures ReceivedIds(log + [e]) == if e.Received? then ReceivedIds(log) + [e.id] else ReceivedIds(log)
    ensures DeletedIds(log + [e]) == if e.Deleted? then DeletedIds(log) + [e.id] else DeletedIds(log)
    ensures Tokens(log + [e]) == Tokens(log) + if e == TokenSent then 1 else 0
    ensures (AsksInStep(log)
             && (e.GetMessage? ==> DeletedIds(log) == ReceivedIds(log) && e.last == Last(ReceivedIds(log)) && Quiet(log)))
            ==> AsksInStep(log + [e])
    ensures Quiet(log) && !e.Admitted? && e != TokenSent && e != Notified ==> Quiet(log + [e])
  {
    var more := log + [e];
    assert more[..|log|] == log;
    assert forall i | 0 <= i < |log| :: more[..i] == log[..i];
  }

  lemma Start()
    ensures AsksInStep([]) && Quiet([]) && Tokens([]) == 0 && DeletedIds([]) == ReceivedIds([]) == Arrivals([]) == [] && Last([]) == None
    ensures Outcome([]) == Running
  {
  }

  lemma LastOf(ids: seq<nat>, id: nat)
    ensures Last(ids + [id]) == Some(id)
  {
  }

  lemma Admission(log: seq<Event>, id: nat)
    requires Quiet(log) && AsksInStep(log) && Tokens(log) == 0 && DeletedIds(log) == ReceivedIds(log)
    ensures var all := log + [Received(id, JobRequest)] + [Admitted(id)] + [TokenSent] + [Notified];
            EndsAdmitting(all, id) && AsksInStep(all) && Tokens(all) == 1 && ReceivedIds(all) == ReceivedIds(log) + [id]
  {
    hide AsksInStep, Quiet, ReceivedIds, DeletedIds, Tokens, Last;
    var one := log + [Received(id, JobRequest)];
    var two := one + [Admitted(id)];
    var three := two + [TokenSent];
    Snoc(log, Received(id, JobRequest));
    Snoc(one, Admitted(id));
    Snoc(two, TokenSent);
    Snoc(three, Notified);
    assert (three + [Notified])[..|log|] == log;
    assert (three + [Notified])[|log|..] == [Received(id, JobRequest), Admitted(id), TokenSent, Notified];
  }

  lemma NextTurn(turns: seq<Turn>, t: nat)
    requires t < |turns|
    ensures Arrivals(turns[..t]) <= Arrivals(turns) && Arrivals(turns[..t + 1]) <= Arrivals(turns)
    ensures Arrivals(turns[..t + 1]) ==
              Arrivals(turns[..t]) + match turns[t].got case Arrived(Raw(Some(id), Some(_), Some(_))) => [id] case _ => []
  {
    PrefixIds(turns, t);
    PrefixIds(turns, t + 1);
    assert turns[..t + 1][..t] == turns[..t];
  }

  lemma {:induction false} PrefixIds(turns: seq<Turn>, k: nat)
    requires k <= |turns|
    ensures Arrivals(turns[..k]) <= Arrivals(turns)
    decreases |turns| - k
  {
    if k < |turns| {
      assert turns[..k + 1][..k] == turns[..k];
      PrefixIds(turns, k + 1);
    } else {
      assert turns[..k] == turns;
    }
  }

  /** The goroutine's loop on a script of answers; when the script ends the loop is still running. */
  method Run(turns: seq<Turn>) returns (log: seq<Event>, end: End)
    ensures end == Outcome(turns)
    ensures AsksInStep(log)
    ensures ReceivedIds(log) <= Arrivals(turns)
    ensures Tokens(log) == if end == JobAdmitted then 1 else 0
    ensures match end
            case Running => Quiet(log) && DeletedIds(log) == ReceivedIds(log) == Arrivals(turns)
            case Closed => Quiet(log) && DeletedIds(log) == ReceivedIds(log)
            case JobAdmitted => exists id :: EndsAdmitting(log, id) && BrokeNoRule(turns, id)
            case Panicked => Quiet(log) && DeletedIds(log) <= ReceivedIds(log) && |ReceivedIds(log)| <= |DeletedIds(log)| + 1
  {
    hide AsksInStep, Quiet, Tokens, ReceivedIds, DeletedIds, Arrivals, Last, EndsAdmitting, Outcome, BrokeNoRule;
    log, end := [], Running;
    var last: Option<nat> := None;
    var t := 0;
    Start();
    assert turns[..0] == [];
    while t < |turns|
      invariant 0 <= t <= |turns|
      invariant AsksInStep(log) && Quiet(log) && Tokens(log) == 0
      invariant DeletedIds(log) == ReceivedIds(log) == Arrivals(turns[..t])
      invariant last == Last(ReceivedIds(log)) && Outcome(turns[..t]) == Running
    {
      var turn := turns[t];
      NextTurn(turns, t);
      NextOutcome(turns, t);
      t := t + 1;
      if turn.closed { end := Closed; return; }
      if !turn.refreshed { end := Panicked; return; }
      Snoc(log, GetMessage(last));
      log := log + [GetMessage(last)];
      if turn.got == GetFailed { end := Panicked; return; }
      if turn.got == NoMessage { continue; }
      var raw := turn.got.raw;
      last := raw.id;
      if raw.id == None || raw.kind == None || raw.body == None { end := Panicked; return; }
      var id, kind := raw.id.value, raw.kind.value;
      LastOf(ReceivedIds(log), id);
      if kind == JobRequest && turn.verdict == NoViolation {
        Admission(log, id);
        FromTurn(turns, t - 1, id);
      }
      Snoc(log, Received(id, kind));
      log := log + [Received(id, kind)];
      if kind == JobRequest {
        if turn.verdict == Undecodable || turn.verdict == ValidationFailed { end := Panicked; return; }
        if turn.verdict == NoViolation {
          log := log + [Admitted(id)] + [TokenSent] + [Notified];
          end := JobAdmitted;
          return;
        }
      }
      if !turn.deleted { end := Panicked; return; }
      Snoc(log, Deleted(id));
      log := log + [Deleted(id)];
      if kind == AgentRefresh {
        if !turn.agentDeleted { end := Panicked; return; }
        Snoc(log, AgentDeleted);
        log := log + [AgentDeleted];
      }
    }
    assert turns[..|turns|] == turns;
  }
}
