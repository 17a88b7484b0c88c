/** The job protocol gets things done: a token becomes a job, a job gets its claim and pod, its status follows them, and it ends. */
module Lifecycle {
  import opened Wrappers
  import opened RunnerJob
  import MessageLoop

  // ---------- one reconcile of the ActionsRunnerJob ----------

  /** A live job whose claim stands in the way of nothing. */
  predicate Going(c: Cluster) {
    && c.job.Some? && !c.job.value.deleting
    && (c.claim.Some? ==> c.claim.value.phase != ClaimLost && !c.claim.value.deleting)
  }

  /** The claim of a live job: made when one is asked for and none is there, belonging to this incarnation, and otherwise left
      as it is; if making it is refused nothing else happens. */
  lemma ClaimAppears(c: Cluster, storage: bool, a: Answers)
    requires c.job.Some? && !c.job.value.deleting && c.claim == None
    ensures var c' := ReconcileJob(c, storage, a).0;
            && (!storage ==> c'.claim == None)
            && (storage && a.claimCreated ==> c'.claim == Some(Claim(c.job.value.uid, NoClaimPhase, false)))
            && (storage && !a.claimCreated ==> c' == c)
  {
  }

  /** The pod of a live job whose status agrees with its claim: made when none is there, belonging to this incarnation. */
  lemma PodAppears(c: Cluster, storage: bool, a: Answers)
    requires Going(c) && c.job.value.claimPhase == (if c.claim.Some? then c.claim.value.phase else NoClaimPhase)
    requires c.pod == None && (c.claim == None && storage ==> a.claimCreated)
    ensures var c', job := ReconcileJob(c, storage, a).0, c.job.value;
            && c'.pod == (if a.podCreated then Some(Pod(job.uid, NoPodPhase, false)) else None)
            && c'.claim == (if c.claim == None && storage then Some(Claim(job.uid, NoClaimPhase, false)) else c.claim)
            && c'.job == Some(if a.podCreated && a.statusUpdated then job.(podPhase := NoPodPhase) else job)
  {
  }

  /** The status follows the claim first, and once it agrees with that, the pod. */
  lemma StatusFollows(c: Cluster, storage: bool, a: Answers)
    requires c.job.Some? && !c.job.value.deleting && (c.claim == None && storage ==> a.claimCreated) && a.statusUpdated
    ensures var c', job := ReconcileJob(c, storage, a).0, c.job.value;
            var claimPhase := if c.claim.Some? then c.claim.value.phase else NoClaimPhase;
            && c'.job.Some?
            && c'.job.value.claimPhase == claimPhase
            && (job.claimPhase == claimPhase && Going(c) && c.pod.Some? ==> c'.job.value.podPhase == c.pod.value.phase)
            && c'.job.value == job.(claimPhase := c'.job.value.claimPhase, podPhase := c'.job.value.podPhase)
  {
  }

  /** A status write that is refused leaves the status as it was. */
  lemma RefusedStatus(c: Cluster, storage: bool, a: Answers)
    requires !a.statusUpdated
    ensures ReconcileJob(c, storage, a).0.job == c.job && ReconcileJob(c, storage, a).1 == None
  {
  }

  /** Exactly when a reconcile marks the pod for deletion: it is Unknown, the status says so and agrees with the claim, and the
      claim is neither lost nor going away. */
  lemma PodMarkedIff(c: Cluster, storage: bool, a: Answers)
    requires c.pod.Some? && !c.pod.value.deleting
    ensures var c' := ReconcileJob(c, storage, a).0;
            && c'.pod.Some? && c'.pod.value == c.pod.value.(deleting := c'.pod.value.deleting)
            && (c'.pod.value.deleting <==>
                  && Going(c) && (c.claim == None && storage ==> a.claimCreated) && a.deleted
                  && c.job.value.claimPhase == (if c.claim.Some? then c.claim.value.phase else NoClaimPhase)
                  && c.job.value.podPhase == PodUnknown && c.pod.value.phase == PodUnknown)
  {
  }

  /** And the claim: it is Lost and the status says so. */
  lemma ClaimMarkedIff(c: Cluster, storage: bool, a: Answers)
    requires c.claim.Some? && !c.claim.value.deleting
    ensures var c' := ReconcileJob(c, storage, a).0;
            && c'.claim.Some? && c'.claim.value == c.claim.value.(deleting := c'.claim.value.deleting)
            && (c'.claim.value.deleting <==>
                  && c.job.Some? && !c.job.value.deleting && a.deleted
                  && c.job.value.claimPhase == ClaimLost && c.claim.value.phase == ClaimLost)
  {
  }

  lemma NothingRemoved(c: Cluster, storage: bool, a: Answers)
    ensures var c' := ReconcileJob(c, storage, a).0;
            (c.job.Some? ==> c'.job.Some?) && (c.pod.Some? ==> c'.pod.Some?) && (c.claim.Some? ==> c'.claim.Some?)
  {
  }

  /** Two answered reconciles bring a live job its pod, and its claim if one is asked for, exactly when the claim, if there is
      one, is neither lost nor going away. */
  lemma ObjectsComeIff(c: Cluster, storage: bool)
    requires c.job.Some? && !c.job.value.deleting
    ensures var c2 := ReconcileJob(ReconcileJob(c, storage, ALL_OK).0, storage, ALL_OK).0;
            && (c2.pod.Some? <==> c.pod.Some? || Going(c))
            && (c2.claim.Some? <==> c.claim.Some? || storage)
            && (c.pod == None && c2.pod.Some? ==> c2.pod == Some(Pod(c.job.value.uid, NoPodPhase, false)))
            && (c.claim == None && c2.claim.Some? ==> c2.claim == Some(Claim(c.job.value.uid, NoClaimPhase, false)))
  {
    var c1 := ReconcileJob(c, storage, ALL_OK).0;
    StatusFollows(c, storage, ALL_OK);
    if c.claim == None { ClaimAppears(c, storage, ALL_OK); }
    if Going(c) && c1.pod == None {
      assert Going(c1);
      PodAppears(c1, storage, ALL_OK);
    }
  }

  // ---------- one reconcile of the ActionsRunner ----------

  /** Without a job a waiting token is consumed, and becomes a fresh job unless the create is refused. */
  lemma TokenBecomesJob(c: Cluster, w: Wire, created: bool, deleted: bool)
    requires c.job == None && w.slot.Some?
    ensures var (c', w', token) := ReconcileRunner(c, w, created, deleted);
            && token == w.slot && w' == w.(slot := None) && c'.pod == c.pod && c'.claim == c.claim
            && (created ==> c'.job == Some(Job(c.nextUid, false, NoClaimPhase, NoPodPhase)) && c'.nextUid == c.nextUid + 1)
            && (!created ==> c' == c)
  {
  }

  /** Without a job and a token the wire listens afterwards. */
  lemma ListensWithoutJob(c: Cluster, w: Wire, created: bool, deleted: bool)
    requires c.job == None && w.slot == None
    ensures var (c', w', token) := ReconcileRunner(c, w, created, deleted);
            && c' == c && token == None && w'.listening && w'.slot == None
            && (!w.listening ==> w'.loop == Looping) && (w.listening ==> w' == w)
  {
  }

  /** A job is marked for deletion exactly when it is live and its status says its claim is lost or its pod is over. */
  lemma JobMarkedIff(c: Cluster, w: Wire, created: bool, deleted: bool)
    requires c.job.Some? && !c.job.value.deleting
    ensures var (c', w', token) := ReconcileRunner(c, w, created, deleted);
            var status := c.job.value;
            && w' == w && token == None && c'.pod == c.pod && c'.claim == c.claim && c'.nextUid == c.nextUid && c'.job.Some?
            && c'.job.value == status.(deleting := c'.job.value.deleting)
            && (c'.job.value.deleting <==>
                  deleted && (status.claimPhase == ClaimLost || status.podPhase in {PodSucceeded, PodFailed, PodUnknown}))
  {
  }

  // ---------- over runs ----------

  lemma Then(storage: bool, acts: seq<Act>, a: Act) returns (more: seq<Act>)
    ensures more == acts + [a] && Exec(storage, more) == Step(Exec(storage, acts), a)
    ensures Exec(storage, acts).storage == Exec(storage, more).storage == storage
  {
    more := acts + [a];
    assert more[..|acts|] == acts;
    StorageFixed(storage, acts);
    StorageFixed(storage, more);
  }

  lemma {:induction false} StorageFixed(storage: bool, acts: seq<Act>)
    ensures Exec(storage, acts).storage == storage
  {
    if acts != [] {
      StorageFixed(storage, acts[..|acts| - 1]);
      hide ReconcileJob, ReconcileRunner, StepCluster;
    }
  }

  /** From every reachable state without a job and with a token on its way, the listener's send if it is still to come and one
      answered reconcile make the job. */
  lemma TokenArrives(storage: bool, acts: seq<Act>) returns (end: seq<Act>)
    requires var s := Exec(storage, acts); s.c.job == None && (s.w.slot.Some? || s.w.loop.Sending?)
    ensures var s, s' := Exec(storage, acts), Exec(storage, end);
            && end == acts + (if s.w.slot.Some? then [] else [Send]) + [RunnerReconcile(true, true)]
            && s'.c.job == Some(Job(s.c.nextUid, false, NoClaimPhase, NoPodPhase))
            && s'.created == s.created + [if s.w.slot.Some? then s.w.slot.value else s.w.loop.token] && s'.w.slot == None
            && s'.received == s.received && s'.c.pod == s.c.pod && s'.c.claim == s.c.claim
  {
    AlwaysTokens(storage, acts);
    end := acts;
    if Exec(storage, acts).w.slot == None { end := Then(storage, end, Send); }
    assert acts + [] == acts;
    end := Then(storage, end, RunnerReconcile(true, true));
  }

  /** A job being deleted can go: its pod and claim, then itself. */
  lemma DeletedJobGoes(storage: bool, acts: seq<Act>) returns (end: seq<Act>)
    requires var s := Exec(storage, acts); s.c.job.Some? && s.c.job.value.deleting
    ensures var s, s' := Exec(storage, acts), Exec(storage, end);
            s'.c == Cluster(None, None, None, s.c.nextUid) && s'.w == s.w && s'.deleted == s.deleted && s'.created == s.created
  {
    AlwaysObjects(storage, acts);
    hide Exec, ReconcileJob, ReconcileRunner;
    end := Then(storage, acts, MarkPod);
    end := Then(storage, end, PodGone);
    end := Then(storage, end, MarkClaim);
    end := Then(storage, end, ClaimGone);
    end := Then(storage, end, JobGone);
  }

  /** Whatever state a run is in, the runner can come back to having no job, no pod and no claim. */
  lemma NoDeadEnd(storage: bool, acts: seq<Act>) returns (end: seq<Act>)
    ensures var c := Exec(storage, end).c; c.job == None && c.pod == None && c.claim == None
  {
    AlwaysObjects(storage, acts);
    end := acts;
    if Exec(storage, acts).c.job.Some? {
      if !Exec(storage, acts).c.job.value.deleting { end := JobEnds(storage, acts); }
      end := DeletedJobGoes(storage, end);
    }
  }

  /** A live job can come to its end. */
  lemma JobEnds(storage: bool, acts: seq<Act>) returns (end: seq<Act>)
    requires var c := Exec(storage, acts).c; c.job.Some? && !c.job.value.deleting
    ensures var c := Exec(storage, end).c; c.job.Some? && c.job.value.deleting
  {
    var c := Exec(storage, acts).c;
    hide Exec, ReconcileRunner;
    end := Then(storage, acts, JobReconcile(ALL_OK));
    StatusFollows(c, storage, ALL_OK);
    if c.claim == None { ClaimAppears(c, storage, ALL_OK); }
    NothingRemoved(c, storage, ALL_OK);
    hide ReconcileJob;
    if c.claim.Some? || storage {
      end := LoseClaim(storage, end);
    } else {
      end := FailPod(storage, end);
    }
    var last := Exec(storage, end);
    JobMarkedIff(last.c, last.w, true, true);
    end := Then(storage, end, RunnerReconcile(true, true));
  }

  lemma LoseClaim(storage: bool, acts: seq<Act>) returns (end: seq<Act>)
    requires var c := Exec(storage, acts).c; c.job.Some? && !c.job.value.deleting && c.claim.Some?
    ensures var c := Exec(storage, end).c; c.job.Some? && !c.job.value.deleting && c.job.value.claimPhase == ClaimLost
  {
    hide Exec;
    end := Then(storage, acts, SetClaim(ClaimLost));
    var c := Exec(storage, end).c;
    StatusFollows(c, storage, ALL_OK);
    hide ReconcileJob;
    end := Then(storage, end, JobReconcile(ALL_OK));
  }

  lemma FailPod(storage: bool, acts: seq<Act>) returns (end: seq<Act>)
    requires var c := Exec(storage, acts).c; !storage && c.job.Some? && !c.job.value.deleting && c.claim == None && c.job.value.claimPhase == NoClaimPhase
    ensures var c := Exec(storage, end).c; c.job.Some? && !c.job.value.deleting && c.job.value.podPhase == PodFailed
  {
    hide Exec;
    var c := Exec(storage, acts).c;
    if c.pod == None { PodAppears(c, storage, ALL_OK); }
    StatusFollows(c, storage, ALL_OK);
    ClaimAppears(c, storage, ALL_OK);
    end := Then(storage, acts, JobReconcile(ALL_OK));
    assert Exec(storage, end).c.pod.Some?;
    hide ReconcileJob;
    end := Then(storage, end, SetPod(PodFailed));
    StatusFollows(Exec(storage, end).c, storage, ALL_OK);
    end := Then(storage, end, JobReconcile(ALL_OK));
  }

  /** From nothing to a job with its objects: the runner listens, a message breaks no rule, its token is sent, the job is made,
      and its pod, and a claim if one is asked for. */
  lemma MessageBecomesPod(storage: bool, body: string) returns (end: seq<Act>)
    ensures var s := Exec(storage, end);
            && s.received == [Message(body, MessageLoop.NoViolation)] && s.created == [0]
            && s.c.job == Some(Job(0, false, NoClaimPhase, NoPodPhase)) && s.c.pod == Some(Pod(0, NoPodPhase, false))
            && s.c.claim == (if storage then Some(Claim(0, NoClaimPhase, false)) else None)
  {
    end := MessageIsSent(storage, Message(body, MessageLoop.NoViolation));
    end := TokenArrives(storage, end);
    assert [] + [0] == [0];
    var c := Exec(storage, end).c;
    PodAppears(c, storage, ALL_OK);
    hide Exec, ReconcileJob, ReconcileRunner;
    end := Then(storage, end, JobReconcile(ALL_OK));
  }

  lemma MessageIsSent(storage: bool, m: Message) returns (end: seq<Act>)
    requires m.verdict == MessageLoop.NoViolation
    ensures Exec(storage, end) == World(Cluster(None, None, None, 0), Wire(true, Notifying, Some(0)), storage, [m], [], 0, 0, {}, {})
  {
    assert Exec(storage, []) == Init(storage);
    Listens(storage);
    ReadsAndSends(storage, m);
    hide *;
    end := Then(storage, [], RunnerReconcile(true, true));
    end := Then(storage, end, Read(m));
    end := Then(storage, end, Send);
  }

  lemma Listens(storage: bool)
    ensures Step(Init(storage), RunnerReconcile(true, true)) == Init(storage).(w := Wire(true, Looping, None))
  {
  }

  lemma ReadsAndSends(storage: bool, m: Message)
    requires m.verdict == MessageLoop.NoViolation
    ensures var s := Init(storage).(w := Wire(true, Looping, None));
            Step(Step(s, Read(m)), Send) ==
              World(Cluster(None, None, None, 0), Wire(true, Notifying, Some(0)), storage, [m], [], 0, 0, {}, {})
  {
    assert [] + [m] == [m];
  }
}
