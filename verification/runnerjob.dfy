/** The job protocol of one ActionsRunner: the listener that admits a job and sends a token, the ActionsRunner
    reconciler that turns the token into an ActionsRunnerJob and deletes it when done, the ActionsRunnerJob reconciler
    that runs its claim and pod, the kubelet, and foreground garbage collection. */
module RunnerJob {
  import opened Wrappers
  import MessageLoop

  datatype PodPhase = NoPodPhase | PodPending | PodRunning | PodSucceeded | PodFailed | PodUnknown

  datatype ClaimPhase = NoClaimPhase | ClaimPending | ClaimBound | ClaimLost

  /** An ActionsRunnerJob; uid tells its incarnations apart. */
  datatype Job = Job(uid: nat, deleting: bool, claimPhase: ClaimPhase, podPhase: PodPhase)

  datatype Pod = Pod(owner: nat, phase: PodPhase, deleting: bool)

  datatype Claim = Claim(owner: nat, phase: ClaimPhase, deleting: bool)

  /** The objects that carry the runner's name. */
  datatype Cluster = Cluster(job: Option<Job>, pod: Option<Pod>, claim: Option<Claim>, nextUid: nat)

  /** A phase read off an object of an incarnation and copied into the job's status. */
  datatype Sight = SawPod(owner: nat, podPhase: PodPhase) | SawClaim(owner: nat, claimPhase: ClaimPhase)

  /** Answers of the API server to the writes of one reconcile of a job. */
  datatype Answers = Answers(claimCreated: bool, podCreated: bool, statusUpdated: bool, deleted: bool)

  // ---------- the ActionsRunnerJob reconciler ----------

  /** What one reconcile does to the objects, and the phase it copied. */
  function ReconcileJob(c: Cluster, storage: bool, a: Answers): (Cluster, Option<Sight>) {
    if c.job == None || c.job.value.deleting then (c, None)
    else if c.claim == None && storage && !a.claimCreated then (c, None)
    else
      var job := c.job.value;
      var c1 := if c.claim == None && storage then c.(claim := Some(Claim(job.uid, NoClaimPhase, false))) else c;
      var claimPhase := if c.claim == None then NoClaimPhase else c.claim.value.phase;
      if job.claimPhase != claimPhase then
        if !a.statusUpdated then (c1, None)
        else (c1.(job := Some(job.(claimPhase := claimPhase))), if c.claim == None then None else Some(SawClaim(c.claim.value.owner, claimPhase)))
      else if c.claim.Some? && c.claim.value.deleting then (c1, None)
      else if claimPhase == ClaimLost then
        (if a.deleted && c.claim.Some? then c1.(claim := Some(c.claim.value.(deleting := true))) else c1, None)
      else if c.pod == None && !a.podCreated then (c1, None)
      else
        var c2 := if c.pod == None then c1.(pod := Some(Pod(job.uid, NoPodPhase, false))) else c1;
        var podPhase := if c.pod == None then NoPodPhase else c.pod.value.phase;
        if job.podPhase != podPhase then
          if !a.statusUpdated then (c2, None)
          else (c2.(job := Some(job.(podPhase := podPhase))), if c.pod == None then None else Some(SawPod(c.pod.value.owner, podPhase)))
        else if c.pod.Some? && c.pod.value.deleting then (c2, None)
        else if podPhase == PodUnknown then
          (if a.deleted && c.pod.Some? then c2.(pod := Some(c.pod.value.(deleting := true))) else c2, None)
        else (c2, None)
  }

  // ---------- the ActionsRunner reconciler ----------

  /** The listener goroutine of the wire: none, in its loop, sending the token of an admitted message, notifying. */
  datatype LoopPc = NoLoop | Looping | Sending(token: nat) | Notifying

  /** The current wire: the listening flag, its goroutine and the one-slot channel of tokens. */
  datatype Wire = Wire(listening: bool, loop: LoopPc, slot: Option<nat>)

  predicate Completed(j: Job) {
    j.claimPhase == ClaimLost || j.podPhase == PodSucceeded || j.podPhase == PodFailed || j.podPhase == PodUnknown
  }

  /** The part of the reconcile after the configuration objects are in place: objects, wire, the token consumed. */
  function ReconcileRunner(c: Cluster, w: Wire, created: bool, deleted: bool): (Cluster, Wire, Option<nat>) {
    match c.job
    case None =>
      (match w.slot
       case Some(token) =>
         (if created then c.(job := Some(Job(c.nextUid, false, NoClaimPhase, NoPodPhase)), nextUid := c.nextUid + 1) else c,
          w.(slot := None), Some(token))
       case None => (c, if w.listening then w else w.(loop := Looping, listening := true), None))
    case Some(job) =>
      if !job.deleting && Completed(job) && deleted then (c.(job := Some(job.(deleting := true))), w, None) else (c, w, None)
  }

  // ---------- the code ----------

  /** The API server's objects, and both reconcilers as they run against it. */
  class Store {
    var job: Option<Job>
    var pod: Option<Pod>
    var claim: Option<Claim>
    var nextUid: nat

    ghost function Value(): Cluster
      reads this
    {
      Cluster(job, pod, claim, nextUid)
    }

    method JobReconcile(storage: bool, a: Answers) returns (sight: Option<Sight>)
      modifies this
      ensures (Value(), sight) == ReconcileJob(old(Value()), storage, a)
    {
      sight := None;
      if job == None { return; }
      var j := job.value;
      if j.deleting { return; }

      var claimPhase, claimDeleting, claimOwner := NoClaimPhase, false, None;
      if claim == None {
        if storage {
          if !a.claimCreated { return; }
          claim := Some(Claim(j.uid, NoClaimPhase, false));
        }
      } else {
        claimPhase, claimDeleting, claimOwner := claim.value.phase, claim.value.deleting, Some(claim.value.owner);
      }
      if j.claimPhase != claimPhase {
        if a.statusUpdated {
          job := Some(j.(claimPhase := claimPhase));
          if claimOwner.Some? { sight := Some(SawClaim(claimOwner.value, claimPhase)); }
        }
        return;
      }
      if claimDeleting { return; }
      if claimPhase == ClaimLost {
        if a.deleted && claim.Some? { claim := Some(claim.value.(deleting := true)); }
        return;
      }

      var podPhase, podDeleting, podOwner := NoPodPhase, false, None;
      if pod == None {
        if !a.podCreated { return; }
        pod := Some(Pod(j.uid, NoPodPhase, false));
      } else {
        podPhase, podDeleting, podOwner := pod.value.phase, pod.value.deleting, Some(pod.value.owner);
      }
      if j.podPhase != podPhase {
        if a.statusUpdated {
          job := Some(j.(podPhase := podPhase));
          if podOwner.Some? { sight := Some(SawPod(podOwner.value, podPhase)); }
        }
        return;
      }
      if podDeleting { return; }
      if podPhase == PodUnknown {
        if a.deleted { pod := Some(pod.value.(deleting := true)); }
      }
    }

    method RunnerReconcile(w: Wire, created: bool, deleted: bool) returns (w': Wire, token: Option<nat>)
      modifies this
      ensures (Value(), w', token) == ReconcileRunner(old(Value()), w, created, deleted)
    {
      w', token := w, None;
      if job == None {
        if w.slot.Some? {
          token := w.slot;
          w' := w.(slot := None);
          if !created { return; }
          job := Some(Job(nextUid, false, NoClaimPhase, NoPodPhase));
          nextUid := nextUid + 1;
        } else if !w.listening {
          w' := w.(loop := Looping, listening := true);
        }
        return;
      }
      var j := job.value;
      if j.deleting { return; }
      var completed := j.claimPhase == ClaimLost;
      if j.podPhase == PodSucceeded || j.podPhase == PodFailed || j.podPhase == PodUnknown { completed := true; }
      if !completed { return; }
      if deleted { job := Some(j.(deleting := true)); }
    }
  }

  // ---------- the protocol ----------

  /** A job message the listener read, and what validating it came to. */
  datatype Message = Message(body: string, verdict: MessageLoop.Verdict)

  /** Everything, with as history the job messages read, in order, the tokens that became jobs, how many were lost to a
      failed create or with a replaced wire, the phases copied, and the incarnations the reconciler deleted. */
  datatype World = World(
    c: Cluster, w: Wire, storage: bool,
    received: seq<Message>, created: seq<nat>, failed: nat, dropped: nat,
    seen: set<Sight>, deleted: set<nat>)

  datatype Act =
    | RunnerReconcile(created: bool, deleted: bool)
    | JobReconcile(a: Answers)
    | ReplaceWire
    | Read(message: Message) | Send | EndLoop
    | SetPod(podPhase: PodPhase) | SetClaim(claimPhase: ClaimPhase)
    | MarkPod | MarkClaim | PodGone | ClaimGone | JobGone

  function Init(storage: bool): World {
    World(Cluster(None, None, None, 0), Wire(false, NoLoop, None), storage, [], [], 0, 0, {}, {})
  }

  /** The tokens on their way: in the channel, or in the hands of the goroutine sending it. */
  function InFlight(w: Wire): nat {
    (if w.slot.Some? then 1 else 0) + (if w.loop.Sending? then 1 else 0)
  }

  function StepRunner(s: World, created: bool, deleted: bool): World {
    var (c, w, token) := ReconcileRunner(s.c, s.w, created, deleted);
    var s' := s.(c := c, w := w);
    if token.Some? then
      if created then s'.(created := s.created + [token.value]) else s'.(failed := s.failed + 1)
    else if c != s.c && c.job.Some? then s'.(deleted := s.deleted + {c.job.value.uid})
    else s'
  }

  /** The listener's branches on a job message: only one that violates no rule makes a token, one that violates a rule is
      refused and the loop goes on, and one that cannot be decoded or judged ends the goroutine. */
  function AfterVerdict(w: Wire, verdict: MessageLoop.Verdict, token: nat): Wire {
    match verdict
    case NoViolation => w.(loop := Sending(token))
    case Violated => w
    case _ => w.(loop := NoLoop, listening := false)
  }

  function StepWire(s: World, a: Act): World {
    match a
    case ReplaceWire => s.(w := Wire(false, NoLoop, None), dropped := s.dropped + InFlight(s.w))
    case Read(m) => if s.w.loop == Looping then s.(received := s.received + [m], w := AfterVerdict(s.w, m.verdict, |s.received|)) else s
    case Send => if s.w.loop.Sending? && s.w.slot == None then s.(w := s.w.(slot := Some(s.w.loop.token), loop := Notifying)) else s
    case EndLoop => if s.w.loop == Looping || s.w.loop == Notifying then s.(w := s.w.(loop := NoLoop, listening := false)) else s
    case _ => s
  }

  function StepCluster(c: Cluster, a: Act): Cluster {
    match a
    case SetPod(p) => if c.pod.Some? then c.(pod := Some(c.pod.value.(phase := p))) else c
    case SetClaim(p) => if c.claim.Some? then c.(claim := Some(c.claim.value.(phase := p))) else c
    case MarkPod => if c.pod.Some? then c.(pod := Some(c.pod.value.(deleting := true))) else c
    case MarkClaim => if c.claim.Some? then c.(claim := Some(c.claim.value.(deleting := true))) else c
    case PodGone => if c.pod.Some? && c.pod.value.deleting then c.(pod := None) else c
    case ClaimGone => if c.claim.Some? && c.claim.value.deleting then c.(claim := None) else c
    case JobGone =>
      if c.job.Some? && c.job.value.deleting
         && !(c.pod.Some? && c.pod.value.owner == c.job.value.uid) && !(c.claim.Some? && c.claim.value.owner == c.job.value.uid)
      then c.(job := None) else c
    case _ => c
  }

  function Step(s: World, a: Act): World {
    match a
    case RunnerReconcile(created, deleted) => StepRunner(s, created, deleted)
    case JobReconcile(answers) =>
      var (c, sight) := ReconcileJob(s.c, s.storage, answers);
      s.(c := c, seen := s.seen + if sight.Some? then {sight.value} else {})
    case ReplaceWire => StepWire(s, a)
    case Read(_) => StepWire(s, a)
    case Send => StepWire(s, a)
    case EndLoop => StepWire(s, a)
    case _ => s.(c := StepCluster(s.c, a))
  }

  function Exec(storage: bool, acts: seq<Act>): World {
    if acts == [] then Init(storage) else Step(Exec(storage, acts[..|acts| - 1]), acts[|acts| - 1])
  }

  // ---------- objects ----------

  /** A claim or pod belongs to the incarnation of the job that is there. */
  predicate Owned(c: Cluster) {
    && (c.job.Some? ==> c.job.value.uid < c.nextUid)
    && (c.pod.Some? ==> c.job.Some? && c.pod.value.owner == c.job.value.uid)
    && (c.claim.Some? ==> c.job.Some? && c.claim.value.owner == c.job.value.uid)
  }

  /** Evidence that an incarnation was over: its own pod or claim was seen in a final phase. */
  predicate Final(seen: set<Sight>, uid: nat) {
    SawPod(uid, PodSucceeded) in seen || SawPod(uid, PodFailed) in seen || SawPod(uid, PodUnknown) in seen || SawClaim(uid, ClaimLost) in seen
  }

  /** The status holds only phases read off the incarnation's own objects. */
  predicate Honest(c: Cluster, seen: set<Sight>) {
    c.job.Some? ==>
      && (c.job.value.podPhase != NoPodPhase ==> SawPod(c.job.value.uid, c.job.value.podPhase) in seen)
      && (c.job.value.claimPhase != NoClaimPhase ==> SawClaim(c.job.value.uid, c.job.value.claimPhase) in seen)
  }

  ghost predicate ObjectInv(s: World) {
    && Owned(s.c) && Honest(s.c, s.seen)
    && (forall uid | uid in s.deleted :: uid < s.c.nextUid && Final(s.seen, uid))
    && (s.c.job.Some? ==> (s.c.job.value.deleting <==> s.c.job.value.uid in s.deleted))
  }

  lemma ObjectsJob(s: World, answers: Answers)
    requires ObjectInv(s)
    ensures ObjectInv(Step(s, JobReconcile(answers)))
  {
  }

  lemma ObjectsRunner(s: World, created: bool, deleted: bool)
    requires ObjectInv(s)
    ensures ObjectInv(StepRunner(s, created, deleted))
  {
  }

  lemma ObjectsCluster(s: World, a: Act)
    requires ObjectInv(s)
    ensures ObjectInv(s.(c := StepCluster(s.c, a)))
  {
  }

  lemma ObjectsKept(s: World, a: Act)
    requires ObjectInv(s)
    ensures ObjectInv(Step(s, a))
  {
    hide ReconcileJob, StepRunner, StepCluster;
    match a
    case JobReconcile(answers) => ObjectsJob(s, answers);
    case RunnerReconcile(created, deleted) => ObjectsRunner(s, created, deleted);
    case _ => ObjectsCluster(s, a);
  }

  lemma {:induction false} AlwaysObjects(storage: bool, acts: seq<Act>)
    ensures ObjectInv(Exec(storage, acts))
  {
    if acts != [] {
      AlwaysObjects(storage, acts[..|acts| - 1]);
      ObjectsKept(Exec(storage, acts[..|acts| - 1]), acts[|acts| - 1]);
    }
  }

  /** Over every run, a job pod or claim belongs to the ActionsRunnerJob incarnation that is there, and every incarnation
      the reconciler deleted had its own pod seen Succeeded, Failed or Unknown, or its own claim seen Lost. */
  lemma OwnObjectsOnly(storage: bool, acts: seq<Act>)
    ensures var s := Exec(storage, acts);
            && (s.c.pod.Some? ==> s.c.job.Some? && s.c.pod.value.owner == s.c.job.value.uid)
            && (s.c.claim.Some? ==> s.c.job.Some? && s.c.claim.value.owner == s.c.job.value.uid)
            && (s.c.job.Some? && s.c.job.value.deleting ==> s.c.job.value.uid in s.deleted)
            && (forall uid | uid in s.deleted :: Final(s.seen, uid))
  {
    AlwaysObjects(storage, acts);
  }

  /** Every phase ever copied was read off an object of the incarnation whose status it went into. */
  lemma SightsAreOwn(storage: bool, acts: seq<Act>, a: Answers)
    ensures var s := Exec(storage, acts);
            var (c, sight) := ReconcileJob(s.c, storage, a);
            sight.Some? ==>
              && s.c.job.Some? && c.job.Some? && sight.value.owner == s.c.job.value.uid == c.job.value.uid
              && (sight.value.SawPod? ==>
                    && s.c.pod.Some? && s.c.pod.value.owner == sight.value.owner
                    && s.c.pod.value.phase == sight.value.podPhase == c.job.value.podPhase)
              && (sight.value.SawClaim? ==>
                    && s.c.claim.Some? && s.c.claim.value.owner == sight.value.owner
                    && s.c.claim.value.phase == sight.value.claimPhase == c.job.value.claimPhase)
  {
    AlwaysObjects(storage, acts);
  }

  lemma DeletedJobStep(s: World, a: Act)
    requires s.c.job.Some? && s.c.job.value.deleting
    ensures var c := Step(s, a).c;
            && (s.c.pod == None ==> c.pod == None) && (s.c.claim == None ==> c.claim == None)
            && (c.job.Some? ==> c.job.value.uid == s.c.job.value.uid && c.job.value.deleting)
  {
  }

  lemma UidsGrow(s: World, a: Act)
    ensures s.c.nextUid <= Step(s, a).c.nextUid
    ensures s.c.job == None && Step(s, a).c.job.Some? ==> Step(s, a).c.job.value.uid == s.c.nextUid
  {
  }

  /** Once a job is being deleted, then for as long as that incarnation is there nothing is created for it: it stays marked,
      and a pod or claim that is gone stays gone. */
  lemma {:induction false} NothingForDeletedJob(storage: bool, acts: seq<Act>, more: seq<Act>)
    requires var c := Exec(storage, acts).c; c.job.Some? && c.job.value.deleting
    ensures var c, c' := Exec(storage, acts).c, Exec(storage, acts + more).c;
            && c.job.value.uid < c'.nextUid
            && (c'.job.Some? && c'.job.value.uid == c.job.value.uid ==>
                  && c'.job.value.deleting
                  && (c.pod == None ==> c'.pod == None) && (c.claim == None ==> c'.claim == None))
            && (c'.job.Some? ==> c'.job.value.uid >= c.job.value.uid)
  {
    if more == [] {
      assert acts + more == acts;
      AlwaysObjects(storage, acts);
    } else {
      var front, a := more[..|more| - 1], more[|more| - 1];
      NothingForDeletedJob(storage, acts, front);
      assert (acts + more)[..|acts + more| - 1] == acts + front;
      var s := Exec(storage, acts + front);
      hide Exec;
      UidsGrow(s, a);
      JobStays(s, a);
      if s.c.job.Some? && s.c.job.value.uid == Exec(storage, acts).c.job.value.uid { DeletedJobStep(s, a); }
    }
  }

  lemma JobStays(s: World, a: Act)
    ensures s.c.job.Some? && Step(s, a).c.job.Some? ==> Step(s, a).c.job.value.uid == s.c.job.value.uid
  {
  }

  const ALL_OK := Answers(true, true, true, true)

  predicate PodFinished(c: Cluster) {
    c.pod.Some? && (c.pod.value.phase == PodSucceeded || c.pod.value.phase == PodFailed || c.pod.value.phase == PodUnknown)
  }

  /** A live job whose pod is finished and whose claim, if one is asked for, is there and not being deleted. */
  predicate Finished(c: Cluster, storage: bool) {
    && c.job.Some? && !c.job.value.deleting && PodFinished(c)
    && (c.claim.Some? ==> !c.claim.value.deleting) && (c.claim == None ==> !storage)
  }

  function ClaimPhaseOf(c: Cluster): ClaimPhase {
    if c.claim == None then NoClaimPhase else c.claim.value.phase
  }

  /** A live job whose status already says that it is over, and agrees with the objects that say so. */
  predicate Known(c: Cluster) {
    && c.job.Some? && !c.job.value.deleting && Completed(c.job.value) && c.job.value.claimPhase == ClaimPhaseOf(c)
    && (ClaimPhaseOf(c) == ClaimLost || (c.pod.Some? && c.job.value.podPhase == c.pod.value.phase))
  }

  /** One answered reconcile of a finished job brings its status forward: the claim's phase first, then the pod's. */
  lemma StatusCatchesUp(c: Cluster, storage: bool)
    requires Finished(c, storage)
    ensures var c' := ReconcileJob(c, storage, ALL_OK).0;
            && c'.job.Some? && c'.job.value.uid == c.job.value.uid
            && if c.job.value.claimPhase != ClaimPhaseOf(c) then Finished(c', storage) && c'.job.value.claimPhase == ClaimPhaseOf(c') else Known(c')
  {
  }

  lemma KnownStays(c: Cluster, storage: bool)
    requires Known(c) && (c.claim == None ==> !storage)
    ensures var c' := ReconcileJob(c, storage, ALL_OK).0; Known(c') && c'.job.value.uid == c.job.value.uid
  {
  }

  /** A finished pod is noticed: two answered reconciles of the job and one of the runner start the deletion of that job,
      whatever its status said before. */
  lemma CompletionIsNoticed(c: Cluster, storage: bool, w: Wire)
    requires Finished(c, storage)
    ensures var twice := ReconcileJob(ReconcileJob(c, storage, ALL_OK).0, storage, ALL_OK).0;
            var end := ReconcileRunner(twice, w, true, true).0;
            end.job.Some? && end.job.value.deleting && end.job.value.uid == c.job.value.uid
  {
    var once := ReconcileJob(c, storage, ALL_OK).0;
    StatusCatchesUp(c, storage);
    assert once.claim == None ==> !storage;
    hide ReconcileJob;
    if c.job.value.claimPhase != ClaimPhaseOf(c) { StatusCatchesUp(once, storage); } else { KnownStays(once, storage); }
  }

  // ---------- tokens ----------

  /** A message that broke no rule. */
  predicate Admitted(received: seq<Message>, t: nat) {
    t < |received| && received[t].verdict == MessageLoop.NoViolation
  }

  function Admissions(received: seq<Message>): nat {
    if received == [] then 0
    else Admissions(received[..|received| - 1]) + if received[|received| - 1].verdict == MessageLoop.NoViolation then 1 else 0
  }

  predicate Increasing(tokens: seq<nat>, bound: nat) {
    && (forall i, j | 0 <= i < j < |tokens| :: tokens[i] < tokens[j])
    && (forall i | 0 <= i < |tokens| :: tokens[i] < bound)
  }

  /** The first token not yet consumed or on its way, seen from each place it can be. */
  function NextToken(s: World): nat {
    match s.w.slot
    case Some(t) => t
    case None => if s.w.loop.Sending? then s.w.loop.token else |s.received|
  }

  ghost predicate TokenInv(s: World) {
    && Increasing(s.created, NextToken(s))
    && (forall t | t in s.created :: Admitted(s.received, t))
    && (s.w.slot.Some? ==> Admitted(s.received, s.w.slot.value) && !s.w.loop.Looping? && !s.w.loop.Sending?)
    && (s.w.loop.Sending? ==> Admitted(s.received, s.w.loop.token))
    && (s.w.listening <==> s.w.loop != NoLoop)
    && |s.created| + s.failed + s.dropped + InFlight(s.w) == Admissions(s.received)
  }

  lemma TokensKept(s: World, a: Act)
    requires TokenInv(s)
    ensures TokenInv(Step(s, a))
  {
    hide ReconcileJob, StepCluster, StepRunner, AfterVerdict, Increasing, Admissions;
    match a
    case Read(m) => TokensRead(s, m);
    case RunnerReconcile(created, deleted) => TokensRunner(s, created, deleted);
    case Send => TokensSend(s);
    case ReplaceWire => TokensReplace(s);
    case _ =>
  }

  lemma TokensRunner(s: World, created: bool, deleted: bool)
    requires TokenInv(s)
    ensures TokenInv(StepRunner(s, created, deleted))
  {
    hide Admissions;
  }

  lemma TokensReplace(s: World)
    requires TokenInv(s)
    ensures TokenInv(StepWire(s, ReplaceWire))
  {
    hide Admissions;
  }

  lemma TokensSend(s: World)
    requires TokenInv(s)
    ensures TokenInv(StepWire(s, Send))
  {
    hide Admissions, Increasing;
  }

  lemma TokensRead(s: World, m: Message)
    requires TokenInv(s)
    ensures TokenInv(StepWire(s, Read(m)))
  {
    assert (s.received + [m])[..|s.received|] == s.received;
  }

  lemma {:induction false} AlwaysTokens(storage: bool, acts: seq<Act>)
    ensures TokenInv(Exec(storage, acts))
  {
    if acts != [] {
      AlwaysTokens(storage, acts[..|acts| - 1]);
      TokensKept(Exec(storage, acts[..|acts| - 1]), acts[|acts| - 1]);
    }
  }

  /** The i-th ActionsRunnerJob created comes from the created[i]-th job message, which broke no rule, and that choice of
      earlier messages is strictly increasing; no token is duplicated, and every message that broke no rule is accounted for:
      a job, a failed create, on its way, or lost with a replaced wire. */
  lemma JobsComeFromAdmissions(storage: bool, acts: seq<Act>)
    ensures var s := Exec(storage, acts);
            && Increasing(s.created, |s.received|)
            && (forall t | t in s.created :: s.received[t].verdict == MessageLoop.NoViolation)
            && |s.created| + s.failed + s.dropped + InFlight(s.w) == Admissions(s.received)
  {
    AlwaysTokens(storage, acts);
  }

  /** The step that creates a job consumes the token of a message read before that step that broke no rule. */
  lemma CreateTakesToken(storage: bool, acts: seq<Act>, a: Act)
    ensures var s, s' := Exec(storage, acts), Step(Exec(storage, acts), a);
            (s.c.job == None && s'.c.job.Some?) <==> s'.created != s.created
    ensures var s, s' := Exec(storage, acts), Step(Exec(storage, acts), a);
            s'.created != s.created ==> exists t :: s'.created == s.created + [t] && Admitted(s.received, t) && s.w.slot == Some(t) && s'.w.slot == None
  {
    AlwaysTokens(storage, acts);
    var s := Exec(storage, acts);
    if a.RunnerReconcile? && s.c.job == None && s.w.slot.Some? && a.created {
      assert Step(s, a).created == s.created + [s.w.slot.value];
    }
  }

  /** The listener never blocks on its token: the channel is empty whenever it is about to send. */
  lemma SendNeverBlocks(storage: bool, acts: seq<Act>)
    requires Exec(storage, acts).w.loop.Sending?
    ensures Exec(storage, acts).w.slot == None && Step(Exec(storage, acts), Send).w.slot == Some(Exec(storage, acts).w.loop.token)
  {
    AlwaysTokens(storage, acts);
  }

  // ---------- the message loop as steps of the protocol ----------

  /** What the loop does to the wire in one turn. */
  function TurnActs(t: MessageLoop.Turn): seq<Act> {
    var ending := if MessageLoop.EndOf(t) == MessageLoop.Running then [] else [EndLoop];
    if t.closed || !t.refreshed || !t.got.Arrived? || t.got.raw.id.None? || t.got.raw.kind != Some(MessageLoop.JobRequest) || t.got.raw.body.None? then
      ending
    else
      [Read(Message(t.got.raw.body.value, t.verdict))] + if t.verdict == MessageLoop.Violated then ending else []
  }

  function ScriptActs(turns: seq<MessageLoop.Turn>): seq<Act> {
    if turns == [] then []
    else
      var front := turns[..|turns| - 1];
      ScriptActs(front) + if MessageLoop.Outcome(front) == MessageLoop.Running then TurnActs(turns[|turns| - 1]) else []
  }

  /** Where the wire's goroutine stands when the loop has come to this end. */
  predicate Stands(loop: LoopPc, end: MessageLoop.End) {
    match end
    case Running => loop == Looping
    case JobAdmitted => loop.Sending?
    case _ => loop == NoLoop
  }

  function StepAll(s: World, acts: seq<Act>): World {
    if acts == [] then s else Step(StepAll(s, acts[..|acts| - 1]), acts[|acts| - 1])
  }

  lemma TurnFollows(s: World, t: MessageLoop.Turn)
    requires s.w.loop == Looping
    ensures Stands(StepAll(s, TurnActs(t)).w.loop, MessageLoop.EndOf(t))
  {
    var acts := TurnActs(t);
    hide ReconcileJob, ReconcileRunner, StepCluster;
    assert StepAll(s, []) == s;
    if |acts| > 0 {
      assert [acts[0]][..0] == [];
      assert StepAll(s, [acts[0]]) == Step(s, acts[0]);
      assert acts == [acts[0]] || (acts == [acts[0], EndLoop] && acts[..1] == [acts[0]]);
      assert StepAll(s, acts) == if |acts| == 1 then Step(s, acts[0]) else Step(Step(s, acts[0]), EndLoop);
    }
  }

  lemma {:induction false} ExecJoin(storage: bool, acts: seq<Act>, more: seq<Act>)
    ensures Exec(storage, acts + more) == StepAll(Exec(storage, acts), more)
  {
    if more == [] {
      assert acts + more == acts;
    } else {
      assert (acts + more)[..|acts + more| - 1] == acts + more[..|more| - 1];
      ExecJoin(storage, acts, more[..|more| - 1]);
    }
  }

  /** The message loop and the protocol tell the same story: on any script of answers the wire's goroutine stands, after the
      steps the script amounts to, where the loop ends. */
  lemma {:induction false} LoopFollowsScript(storage: bool, acts: seq<Act>, turns: seq<MessageLoop.Turn>)
    requires Exec(storage, acts).w.loop == Looping
    ensures Stands(Exec(storage, acts + ScriptActs(turns)).w.loop, MessageLoop.Outcome(turns))
  {
    if turns == [] {
      assert acts + ScriptActs(turns) == acts;
    } else {
      var front, t := turns[..|turns| - 1], turns[|turns| - 1];
      ScriptSnoc(front, t);
      assert turns == front + [t];
      hide Exec, TurnActs, ScriptActs, StepAll, Stands, MessageLoop.Outcome, MessageLoop.EndOf;
      LoopFollowsScript(storage, acts, front);
      var before := acts + ScriptActs(front);
      if MessageLoop.Outcome(front) == MessageLoop.Running {
        assert acts + ScriptActs(turns) == before + TurnActs(t);
        ExecJoin(storage, before, TurnActs(t));
        StandsRunning(Exec(storage, before).w.loop);
        TurnFollows(Exec(storage, before), t);
      }
    }
  }

  lemma StandsRunning(loop: LoopPc)
    ensures Stands(loop, MessageLoop.Running) <==> loop == Looping
  {
  }

  lemma ScriptSnoc(front: seq<MessageLoop.Turn>, t: MessageLoop.Turn)
    ensures ScriptActs(front + [t]) == ScriptActs(front) + if MessageLoop.Outcome(front) == MessageLoop.Running then TurnActs(t) else []
    ensures MessageLoop.Outcome(front + [t]) == if MessageLoop.Outcome(front) == MessageLoop.Running then MessageLoop.EndOf(t) else MessageLoop.Outcome(front)
    ensures MessageLoop.Outcome(front) != MessageLoop.Running ==> ScriptActs(front + [t]) == ScriptActs(front)
  {
    assert (front + [t])[..|front|] == front;
  }
}
