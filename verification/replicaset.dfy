/** The replica set controller: one small write per reconcile, convergence towards the desired count, and a list that
    still holds terminating replicas when the first of it is picked for deletion. */
module ReplicaSet {

  datatype Replica = Replica(name: nat, spec: string, deleting: bool)

  /** The fixed specification: label selector text, count and template. */
  datatype Goal = Goal(selector: string, desired: nat, template: string)

  /** Status of the set, and the replicas its labels select. */
  datatype State = State(selector: string, count: int, replicas: seq<Replica>, nextName: nat)

  datatype Write = WriteStatus | CreateReplica | DeleteReplica(name: nat) | UpdateReplica(name: nat)

  /** What a reconcile meets: which replica is listed first, and whether its writes are accepted. */
  datatype Circumstance = Circumstance(first: nat, write: bool, status: bool, update: nat -> bool)

  predicate IsLive(r: Replica) {
    !r.deleting
  }

  predicate IsTerminating(r: Replica) {
    r.deleting
  }

  predicate IsStale(template: string, r: Replica) {
    !r.deleting && r.spec != template
  }

  function Count(rs: seq<Replica>, p: Replica -> bool): nat {
    if rs == [] then 0 else (if p(rs[0]) then 1 else 0) + Count(rs[1..], p)
  }

  function Live(s: State): nat {
    Count(s.replicas, r => IsLive(r))
  }

  function Terminating(s: State): nat {
    Count(s.replicas, r => IsTerminating(r))
  }

  function Stale(g: Goal, s: State): nat {
    Count(s.replicas, r => IsStale(g.template, r))
  }

  /** The update loop: every live replica of another spec is written, until the first refusal. */
  function UpdateAll(template: string, rs: seq<Replica>, accepted: nat -> bool): (seq<Replica>, seq<Write>) {
    if rs == [] then ([], [])
    else if !IsStale(template, rs[0]) then
      var (rest, writes) := UpdateAll(template, rs[1..], accepted);
      ([rs[0]] + rest, writes)
    else if !accepted(rs[0].name) then (rs, [UpdateReplica(rs[0].name)])
    else
      var (rest, writes) := UpdateAll(template, rs[1..], accepted);
      ([rs[0].(spec := template)] + rest, [UpdateReplica(rs[0].name)] + writes)
  }

  /** One reconcile: the state after it and the writes it attempted. */
  function Reconciled(g: Goal, s: State, c: Circumstance): (State, seq<Write>) {
    var live := Live(s);
    if s.selector != g.selector then
      (if c.status then s.(selector := g.selector) else s, [WriteStatus])
    else if live < g.desired then
      if !c.write then (s, [CreateReplica])
      else
        var made := s.(replicas := s.replicas + [Replica(s.nextName, g.template, false)], nextName := s.nextName + 1);
        (if c.status then made.(count := live + 1) else made, [CreateReplica, WriteStatus])
    else if live > g.desired then
      var i := c.first % |s.replicas|;
      if !c.write then (s, [DeleteReplica(s.replicas[i].name)])
      else
        var made := s.(replicas := s.replicas[i := s.replicas[i].(deleting := true)]);
        (if c.status then made.(count := live - 1) else made, [DeleteReplica(s.replicas[i].name), WriteStatus])
    else
      var (rs, writes) := UpdateAll(g.template, s.replicas, c.update);
      (s.(replicas := rs), writes)
  }

  /** A terminating replica finally disappears. */
  function Complete(s: State, i: nat): State {
    if i < |s.replicas| && s.replicas[i].deleting then s.(replicas := s.replicas[..i] + s.replicas[i + 1..]) else s
  }

  // ---------- the code ----------

  class Store {
    var selector: string
    var count: int
    var replicas: seq<Replica>
    var nextName: nat

    ghost function Value(): State
      reads this
    {
      State(selector, count, replicas, nextName)
    }

    /** The filter over the listed replicas. */
    method CountLive() returns (actual: nat)
      ensures actual == Live(Value()) && actual <= |replicas|
    {
      actual := 0;
      assert replicas[|replicas|..] == [];
      for k := |replicas| downto 0
        invariant actual == Count(replicas[k..], r => IsLive(r)) && actual <= |replicas| - k
      {
        assert replicas[k..][1..] == replicas[k + 1..];
        if !replicas[k].deleting { actual := actual + 1; }
      }
      assert replicas[0..] == replicas;
    }

    /** The loop over the live replicas at the end of a reconcile. */
    method UpdateStale(template: string, accepted: nat -> bool) returns (writes: seq<Write>)
      modifies `replicas
      ensures (replicas, writes) == UpdateAll(template, old(replicas), accepted)
    {
      writes := [];
      var k := 0;
      ghost var (rs, ws) := UpdateAll(template, replicas, accepted);
      assert replicas[0..] == replicas && UpdateAll(template, replicas, accepted) == (rs, ws);
      while k < |replicas|
        invariant 0 <= k <= |replicas|
        invariant rs == replicas[..k] + UpdateAll(template, replicas[k..], accepted).0
        invariant ws == writes + UpdateAll(template, replicas[k..], accepted).1
      {
        hide IsLive;
        var r := replicas[k];
        Unroll(template, replicas, k, accepted);
        if !r.deleting && r.spec != template {
          writes := writes + [UpdateReplica(r.name)];
          if !accepted(r.name) {
            assert rs == replicas[..k] + replicas[k..] == replicas;
            assert ws == writes;
            return;
          }
          replicas := replicas[k := r.(spec := template)];
        }
        k := k + 1;
      }
      assert replicas[k..] == [] && rs == replicas[..k] == replicas && ws == writes;
    }

    method Reconcile(g: Goal, c: Circumstance) returns (writes: seq<Write>)
      modifies this
      ensures (Value(), writes) == Reconciled(g, old(Value()), c)
    {
      hide UpdateAll, Count;
      if selector != g.selector {
        if c.status { selector := g.selector; }
        return [WriteStatus];
      }

      var actual := CountLive();
      if actual < g.desired {
        if !c.write { return [CreateReplica]; }
        replicas := replicas + [Replica(nextName, g.template, false)];
        nextName := nextName + 1;
        if c.status { count := actual + 1; }
        return [CreateReplica, WriteStatus];
      }

      if actual > g.desired {
        var i := c.first % |replicas|;
        var name := replicas[i].name;
        if !c.write { return [DeleteReplica(name)]; }
        replicas := replicas[i := replicas[i].(deleting := true)];
        if c.status { count := actual - 1; }
        return [DeleteReplica(name), WriteStatus];
      }

      writes := UpdateStale(g.template, c.update);
    }
  }

  /** The update loop at replica k: what is left of it before and after. */
  lemma Unroll(template: string, rs: seq<Replica>, k: nat, accepted: nat -> bool)
    requires k < |rs|
    ensures var r := rs[k];
            var now, then' := UpdateAll(template, rs[k..], accepted), UpdateAll(template, rs[k + 1..], accepted);
            if !IsStale(template, r) then rs[..k] + now.0 == rs[..k + 1] + then'.0 && now.1 == then'.1
            else if !accepted(r.name) then now == (rs[k..], [UpdateReplica(r.name)])
            else
              var rs' := rs[k := r.(spec := template)];
              && rs[..k] + now.0 == rs'[..k + 1] + then'.0 && now.1 == [UpdateReplica(r.name)] + then'.1
              && rs'[k + 1..] == rs[k + 1..]
  {
    assert rs[k..][1..] == rs[k + 1..];
  }

  // ---------- counting ----------

  lemma {:induction false} CountUpdate(rs: seq<Replica>, i: nat, r: Replica, p: Replica -> bool)
    requires i < |rs|
    ensures Count(rs[i := r], p) == Count(rs, p) - (if p(rs[i]) then 1 else 0) + if p(r) then 1 else 0
  {
    if i > 0 {
      CountUpdate(rs[1..], i - 1, r, p);
      assert rs[i := r][1..] == rs[1..][i - 1 := r];
    } else {
      assert rs[0 := r][1..] == rs[1..];
    }
  }

  lemma {:induction false} CountJoin(a: seq<Replica>, b: seq<Replica>, p: Replica -> bool)
    ensures Count(a + b, p) == Count(a, p) + Count(b, p)
  {
    if a == [] {
      assert a + b == b;
    } else {
      CountJoin(a[1..], b, p);
      assert (a + b)[1..] == a[1..] + b;
    }
  }

  lemma CountWithout(rs: seq<Replica>, i: nat, p: Replica -> bool)
    requires i < |rs|
    ensures Count(rs[..i] + rs[i + 1..], p) == Count(rs, p) - if p(rs[i]) then 1 else 0
  {
    CountJoin(rs[..i], rs[i + 1..], p);
    CountJoin(rs[..i], rs[i..], p);
    assert rs[..i] + rs[i..] == rs;
    assert rs[i..][1..] == rs[i + 1..];
  }

  lemma {:induction false} CountZero(rs: seq<Replica>, p: Replica -> bool)
    ensures Count(rs, p) == 0 <==> forall r | r in rs :: !p(r)
  {
    if rs != [] {
      CountZero(rs[1..], p);
      assert rs == [rs[0]] + rs[1..];
    }
  }

  /** The update loop changes no liveness, makes no replica stale, and freshens one whenever it writes and is accepted. */
  lemma {:induction false} UpdateCounts(template: string, rs: seq<Replica>, accepted: nat -> bool)
    ensures var (us, writes) := UpdateAll(template, rs, accepted);
            && Count(us, r => IsLive(r)) == Count(rs, r => IsLive(r))
            && Count(us, r => IsTerminating(r)) == Count(rs, r => IsTerminating(r))
            && Count(us, r => IsStale(template, r)) <= Count(rs, r => IsStale(template, r))
            && (writes == [] <==> Count(rs, r => IsStale(template, r)) == 0)
            && (writes == [] ==> us == rs)
            && ((forall n :: accepted(n)) ==> Count(us, r => IsStale(template, r)) == 0)
  {
    if rs != [] { UpdateCounts(template, rs[1..], accepted); }
  }

  // ---------- the theorems ----------

  function Distance(g: Goal, s: State): nat {
    if Live(s) < g.desired then g.desired - Live(s) else Live(s) - g.desired
  }

  /** How far the set is from rest: selector, twice the missing or surplus replicas, replicas terminating, replicas stale. */
  function Measure(g: Goal, s: State): nat {
    (if s.selector != g.selector then 1 else 0) + 2 * Distance(g, s) + Terminating(s) + Stale(g, s)
  }

  predicate Converged(g: Goal, s: State) {
    s.selector == g.selector && Live(s) == g.desired && Stale(g, s) == 0
  }

  /** Everything one reconcile does to the counts, whatever it meets. */
  lemma ReconcileCounts(g: Goal, s: State, c: Circumstance)
    ensures var s' := Reconciled(g, s, c).0;
            && (Live(s) <= g.desired ==> Live(s) <= Live(s') <= g.desired)
            && (Live(s) >= g.desired ==> Live(s) >= Live(s') >= g.desired)
            && Measure(g, s') <= Measure(g, s)
            && Terminating(s') >= Terminating(s)
  {
    if s.selector != g.selector {
    } else if Live(s) < g.desired {
      var more := [Replica(s.nextName, g.template, false)];
      CountJoin(s.replicas, more, r => IsLive(r));
      CountJoin(s.replicas, more, r => IsTerminating(r));
      CountJoin(s.replicas, more, r => IsStale(g.template, r));
      assert more[1..] == [];
    } else if Live(s) > g.desired {
      DeleteCounts(g, s, c.first % |s.replicas|);
    } else {
      UpdateCounts(g.template, s.replicas, c.update);
    }
  }

  lemma DeleteCounts(g: Goal, s: State, i: nat)
    requires i < |s.replicas|
    ensures var s' := s.(replicas := s.replicas[i := s.replicas[i].(deleting := true)]);
            var was := if s.replicas[i].deleting then 0 else 1;
            Live(s') == Live(s) - was && Terminating(s') == Terminating(s) + was && Stale(g, s') <= Stale(g, s)
  {
    var r := s.replicas[i].(deleting := true);
    CountUpdate(s.replicas, i, r, x => IsLive(x));
    CountUpdate(s.replicas, i, r, x => IsTerminating(x));
    CountUpdate(s.replicas, i, r, x => IsStale(g.template, x));
  }

  /** The live count never crosses the desired one and never moves away from it, and the distance from rest never grows,
      even when writes are refused; a deletion that completes strictly lowers it. */
  lemma NeverAway(g: Goal, s: State, c: Circumstance, i: nat)
    ensures var s' := Reconciled(g, s, c).0;
            && (Live(s) <= g.desired ==> Live(s) <= Live(s') <= g.desired)
            && (Live(s) >= g.desired ==> Live(s) >= Live(s') >= g.desired)
            && Measure(g, s') <= Measure(g, s)
    ensures Live(Complete(s, i)) == Live(s) && (Complete(s, i) == s || Measure(g, Complete(s, i)) < Measure(g, s))
  {
    ReconcileCounts(g, s, c);
    CompleteCounts(g, s, i);
  }

  lemma CompleteCounts(g: Goal, s: State, i: nat)
    ensures Live(Complete(s, i)) == Live(s) && Stale(g, Complete(s, i)) == Stale(g, s)
    ensures Terminating(Complete(s, i)) == Terminating(s) - if i < |s.replicas| && s.replicas[i].deleting then 1 else 0
  {
    if i < |s.replicas| && s.replicas[i].deleting {
      CountWithout(s.replicas, i, r => IsLive(r));
      CountWithout(s.replicas, i, r => IsTerminating(r));
      CountWithout(s.replicas, i, r => IsStale(g.template, r));
    }
  }

  /** A reconcile attempts no write exactly when selector, count and every live spec are as wanted. */
  lemma QuietIff(g: Goal, s: State, c: Circumstance)
    ensures Reconciled(g, s, c).1 == [] <==> Converged(g, s)
    ensures Converged(g, s) ==> Reconciled(g, s, c).0 == s
  {
    UpdateCounts(g.template, s.replicas, c.update);
  }

  /** A reconcile whose writes are accepted brings an unconverged set strictly nearer to rest, except when it picks a
      replica that is already terminating: then only the status count changes, and that deletion is still pending. */
  lemma ProgressOrPending(g: Goal, s: State, c: Circumstance)
    requires !Converged(g, s) && c.write && c.status && forall n :: c.update(n)
    ensures var s' := Reconciled(g, s, c).0;
            || Measure(g, s') < Measure(g, s)
            || (|s.replicas| > 0 && s.replicas[c.first % |s.replicas|].deleting && s'.replicas == s.replicas && s'.selector == s.selector
                && Measure(g, Complete(s', c.first % |s.replicas|)) < Measure(g, s'))
  {
    if s.selector != g.selector {
    } else if Live(s) < g.desired {
      var more := [Replica(s.nextName, g.template, false)];
      CountJoin(s.replicas, more, r => IsLive(r));
      CountJoin(s.replicas, more, r => IsTerminating(r));
      CountJoin(s.replicas, more, r => IsStale(g.template, r));
      assert more[1..] == [];
    } else if Live(s) > g.desired {
      var i := c.first % |s.replicas|;
      DeleteCounts(g, s, i);
      if s.replicas[i].deleting {
        assert s.replicas[i := s.replicas[i].(deleting := true)] == s.replicas;
        CompleteCounts(g, Reconciled(g, s, c).0, i);
      }
    } else {
      UpdateCounts(g.template, s.replicas, c.update);
    }
  }

  /** All pending deletions completed. */
  function CompleteAll(s: State): State {
    s.(replicas := Remaining(s.replicas))
  }

  function Remaining(rs: seq<Replica>): seq<Replica> {
    if rs == [] then [] else (if rs[0].deleting then [] else [rs[0]]) + Remaining(rs[1..])
  }

  lemma {:induction false} RemainingCounts(rs: seq<Replica>, template: string)
    ensures Count(Remaining(rs), r => IsLive(r)) == Count(rs, r => IsLive(r))
    ensures Count(Remaining(rs), r => IsTerminating(r)) == 0
    ensures Count(Remaining(rs), r => IsStale(template, r)) == Count(rs, r => IsStale(template, r))
  {
    if rs != [] {
      RemainingCounts(rs[1..], template);
      if rs[0].deleting {
        assert Remaining(rs) == Remaining(rs[1..]);
      } else {
        assert Remaining(rs)[1..] == Remaining(rs[1..]);
      }
    }
  }

  /** Rounds of one accepted reconcile followed by the completion of the pending deletions; picks say which replica each
      reconcile finds listed first. */
  function Rounds(g: Goal, s: State, picks: seq<nat>): State {
    if picks == [] then s
    else
      var front := Rounds(g, s, picks[..|picks| - 1]);
      CompleteAll(Reconciled(g, front, Circumstance(picks[|picks| - 1], true, true, n => true)).0)
  }

  lemma {:induction false} RoundsShrink(g: Goal, s: State, picks: seq<nat>)
    ensures Measure(g, Rounds(g, s, picks)) == 0 || Measure(g, Rounds(g, s, picks)) + |picks| <= Measure(g, s)
  {
    if picks != [] {
      var front := Rounds(g, s, picks[..|picks| - 1]);
      RoundsShrink(g, s, picks[..|picks| - 1]);
      var c := Circumstance(picks[|picks| - 1], true, true, n => true);
      var s' := Reconciled(g, front, c).0;
      RemainingCounts(s'.replicas, g.template);
      ReconcileCounts(g, front, c);
      if Converged(g, front) {
        QuietIff(g, front, c);
      } else {
        ProgressOrPending(g, front, c);
        if Measure(g, s') >= Measure(g, front) {
          CompleteCounts(g, s', c.first % |front.replicas|);
        }
      }
    }
  }

  /** Convergence: whichever replicas are listed first, after as many rounds as the set is away from rest it is converged
      with nothing terminating, and stays so. */
  lemma Converges(g: Goal, s: State, picks: seq<nat>)
    requires |picks| >= Measure(g, s)
    ensures Converged(g, Rounds(g, s, picks)) && Terminating(Rounds(g, s, picks)) == 0
  {
    RoundsShrink(g, s, picks);
  }

  // ---------- replica by replica ----------

  /** Every replica has a name of its own, and the next name is new. */
  ghost predicate NamesDiffer(s: State) {
    && (forall i | 0 <= i < |s.replicas| :: s.replicas[i].name < s.nextName)
    && (forall i, j | 0 <= i < j < |s.replicas| :: s.replicas[i].name != s.replicas[j].name)
  }

  lemma NamesKept(g: Goal, s: State, c: Circumstance, i: nat)
    requires NamesDiffer(s)
    ensures NamesDiffer(Reconciled(g, s, c).0) && NamesDiffer(Complete(s, i))
  {
    if s.selector == g.selector {
      if Live(s) < g.desired {
        CreateAdds(g, s, c);
      } else if Live(s) > g.desired {
        DeleteMarks(g, s, c);
        SameNames(s, Reconciled(g, s, c).0);
      } else {
        OnlyStaleUpdated(g.template, s.replicas, c.update);
        SameNames(s, Reconciled(g, s, c).0);
      }
    }
    hide Count, UpdateAll, Reconciled;
  }

  lemma SameNames(s: State, t: State)
    requires NamesDiffer(s) && |t.replicas| == |s.replicas| && t.nextName == s.nextName
    requires forall k | 0 <= k < |s.replicas| :: t.replicas[k].name == s.replicas[k].name
    ensures NamesDiffer(t)
  {
  }

  /** A set short of replicas gets one more: live, of the template, under a new name; nothing else about the replicas changes,
      and without the write nothing at all. */
  lemma CreateAdds(g: Goal, s: State, c: Circumstance)
    requires s.selector == g.selector && Live(s) < g.desired
    ensures var s' := Reconciled(g, s, c).0;
            if c.write then
              && |s'.replicas| == |s.replicas| + 1 && s'.replicas[..|s.replicas|] == s.replicas
              && s'.replicas[|s.replicas|].spec == g.template && !s'.replicas[|s.replicas|].deleting
              && s'.replicas[|s.replicas|].name == s.nextName < s'.nextName
            else s' == s
  {
  }

  /** A set with a surplus has the replica listed first marked, and no other touched. */
  lemma DeleteMarks(g: Goal, s: State, c: Circumstance)
    requires s.selector == g.selector && Live(s) > g.desired
    ensures s.replicas != []
    ensures var s', i := Reconciled(g, s, c).0, c.first % |s.replicas|;
            if c.write then
              && |s'.replicas| == |s.replicas| && s'.replicas[i].deleting
              && s'.replicas[i].name == s.replicas[i].name && s'.replicas[i].spec == s.replicas[i].spec
              && forall k | 0 <= k < |s.replicas| && k != i :: s'.replicas[k] == s.replicas[k]
            else s' == s
  {
  }

  /** The update loop changes the spec of live replicas of another spec and nothing else; each one up to the first refusal gets
      the template. */
  lemma {:induction false} OnlyStaleUpdated(template: string, rs: seq<Replica>, accepted: nat -> bool)
    ensures var us := UpdateAll(template, rs, accepted).0;
            && |us| == |rs|
            && (forall i | 0 <= i < |rs| :: us[i].name == rs[i].name && us[i].deleting == rs[i].deleting)
            && (forall i | 0 <= i < |rs| && us[i] != rs[i] ::
                  !rs[i].deleting && rs[i].spec != template && us[i].spec == template && accepted(rs[i].name))
            && (forall i | 0 <= i < |rs| && !rs[i].deleting && us[i].spec != template ::
                  exists k :: 0 <= k <= i && !rs[k].deleting && rs[k].spec != template && !accepted(rs[k].name))
  {
    if rs != [] {
      OnlyStaleUpdated(template, rs[1..], accepted);
      var us, rest := UpdateAll(template, rs, accepted).0, UpdateAll(template, rs[1..], accepted).0;
      if !IsStale(template, rs[0]) || accepted(rs[0].name) {
        assert forall i | 0 < i < |rs| :: us[i] == rest[i - 1] && rs[i] == rs[1..][i - 1];
        forall i | 0 <= i < |rs| && !rs[i].deleting && us[i].spec != template
          ensures exists k :: 0 <= k <= i && !rs[k].deleting && rs[k].spec != template && !accepted(rs[k].name)
        {
          var k :| 0 <= k <= i - 1 && !rs[1..][k].deleting && rs[1..][k].spec != template && !accepted(rs[1..][k].name);
          assert rs[k + 1] == rs[1..][k];
        }
      } else {
        assert us == rs && IsStale(template, rs[0]) && !accepted(rs[0].name);
      }
    }
  }

  // ---------- the status count ----------

  /** When a reconcile that creates or deletes leaves the right count in the status: exactly when it created, or the replica
      it picked was live. Picking one already terminating writes one less than the live replicas it leaves. */
  lemma CountRightIff(g: Goal, s: State, c: Circumstance)
    requires s.selector == g.selector && Live(s) != g.desired && c.write && c.status
    ensures var s' := Reconciled(g, s, c).0;
            s'.count == Live(s') <==> Live(s) < g.desired || !s.replicas[c.first % |s.replicas|].deleting
  {
    if Live(s) < g.desired {
      var more := [Replica(s.nextName, g.template, false)];
      CountJoin(s.replicas, more, r => IsLive(r));
      assert more[1..] == [];
    } else {
      DeleteCounts(g, s, c.first % |s.replicas|);
    }
  }

  /** A reconcile that finds the live count as desired leaves the status count as it is, right or wrong. */
  lemma CountLeftAlone(g: Goal, s: State, c: Circumstance)
    requires Live(s) == g.desired
    ensures Reconciled(g, s, c).0.count == s.count && Live(Reconciled(g, s, c).0) == g.desired
  {
    hide UpdateAll;
    ReconcileCounts(g, s, c);
  }

  /** A create whose status write is refused leaves the count behind for good: the set is converged, the count is wrong, and
      no later reconcile changes anything. */
  lemma RefusedCountSticks()
    ensures var g, s := Goal("x", 1, "t"), State("x", 0, [], 0);
            var s' := Reconciled(g, s, Circumstance(0, true, false, n => true)).0;
            Converged(g, s') && s'.count != Live(s') && forall c :: Reconciled(g, s', c) == (s', [])
  {
    var g, s := Goal("x", 1, "t"), State("x", 0, [], 0);
    var s' := Reconciled(g, s, Circumstance(0, true, false, n => true)).0;
    assert s.replicas == [] && Live(s) == 0;
    var r := Replica(0, "t", false);
    assert s'.replicas == [] + [r] == [r] && [r][1..] == [];
    CountZero([r], x => IsStale("t", x));
    assert !IsStale("t", r) && Live(s') == 1 && Stale(g, s') == 0;
    forall c ensures Reconciled(g, s', c) == (s', []) {
      QuietIff(g, s', c);
    }
  }

  lemma {:induction false} CountSettles(g: Goal, s: State, picks: seq<nat>)
    ensures var t := Rounds(g, s, picks);
            Live(t) == g.desired ==> t.count == if Live(s) == g.desired then s.count else g.desired
    ensures Live(s) == g.desired ==> Live(Rounds(g, s, picks)) == g.desired
  {
    if picks != [] {
      var front := Rounds(g, s, picks[..|picks| - 1]);
      CountSettles(g, s, picks[..|picks| - 1]);
      var c := Circumstance(picks[|picks| - 1], true, true, n => true);
      var s' := Reconciled(g, front, c).0;
      RemainingCounts(s'.replicas, g.template);
      hide UpdateAll;
      ReconcileCounts(g, front, c);
      if Live(front) == g.desired {
        CountLeftAlone(g, front, c);
      } else if front.selector == g.selector {
        CountRightIff(g, front, c);
        if front.replicas != [] && front.replicas[c.first % |front.replicas|].deleting { DeleteCounts(g, front, c.first % |front.replicas|); }
      }
    }
  }

  /** The count a settled set ends with is the desired one exactly when the set had replicas to make or remove, or the count
      was right from the start. */
  lemma SettledCountIff(g: Goal, s: State, picks: seq<nat>)
    requires |picks| >= Measure(g, s)
    ensures Rounds(g, s, picks).count == g.desired <==> Live(s) != g.desired || s.count == g.desired
  {
    Converges(g, s, picks);
    CountSettles(g, s, picks);
  }

  // ---------- any schedule ----------

  datatype Act = Reconcile(c: Circumstance) | Completes(i: nat)

  function Step(g: Goal, s: State, a: Act): State {
    match a
    case Reconcile(c) => Reconciled(g, s, c).0
    case Completes(i) => Complete(s, i)
  }

  function Run(g: Goal, s: State, acts: seq<Act>): State {
    if acts == [] then s else Step(g, Run(g, s, acts[..|acts| - 1]), acts[|acts| - 1])
  }

  /** Nothing but the status count differs. */
  predicate Same(s: State, t: State) {
    s.selector == t.selector && s.replicas == t.replicas
  }

  /** The steps of a run that change the selector or the replicas. */
  function Moves(g: Goal, s: State, acts: seq<Act>): nat {
    if acts == [] then 0
    else
      var front := acts[..|acts| - 1];
      Moves(g, s, front) + if Same(Run(g, s, front), Run(g, s, acts)) then 0 else 1
  }

  /** An update loop that writes anything leaves fewer stale replicas. */
  lemma {:induction false} UpdateMoves(template: string, rs: seq<Replica>, accepted: nat -> bool)
    ensures var us := UpdateAll(template, rs, accepted).0;
            us == rs || Count(us, r => IsStale(template, r)) < Count(rs, r => IsStale(template, r))
  {
    if rs != [] {
      UpdateMoves(template, rs[1..], accepted);
      UpdateCounts(template, rs[1..], accepted);
      assert rs == [rs[0]] + rs[1..];
    }
  }

  /** Whatever is refused and whatever is listed first, a step that changes anything brings the set nearer to rest. */
  lemma MoveLowers(g: Goal, s: State, a: Act)
    ensures Same(s, Step(g, s, a)) || Measure(g, Step(g, s, a)) < Measure(g, s)
  {
    match a
    case Completes(i) => CompleteCounts(g, s, i);
    case Reconcile(c) =>
      if s.selector != g.selector {
      } else if Live(s) < g.desired {
        var more := [Replica(s.nextName, g.template, false)];
        CountJoin(s.replicas, more, r => IsLive(r));
        CountJoin(s.replicas, more, r => IsTerminating(r));
        CountJoin(s.replicas, more, r => IsStale(g.template, r));
        assert more[1..] == [];
      } else if Live(s) > g.desired {
        var i := c.first % |s.replicas|;
        DeleteCounts(g, s, i);
        if s.replicas[i].deleting { assert s.replicas[i := s.replicas[i].(deleting := true)] == s.replicas; }
      } else {
        UpdateMoves(g.template, s.replicas, c.update);
        UpdateCounts(g.template, s.replicas, c.update);
      }
  }

  /** No schedule of reconciles and completed deletions changes a set more often than it was away from rest. */
  lemma {:induction false} MovesBounded(g: Goal, s: State, acts: seq<Act>)
    ensures Moves(g, s, acts) + Measure(g, Run(g, s, acts)) <= Measure(g, s)
  {
    if acts != [] {
      MovesBounded(g, s, acts[..|acts| - 1]);
      MoveLowers(g, Run(g, s, acts[..|acts| - 1]), acts[|acts| - 1]);
    }
  }

  /** And where it stops is where it should: no step changes a set exactly when the set is converged with nothing
      terminating. */
  lemma RestsIff(g: Goal, s: State)
    ensures (forall a :: Same(s, Step(g, s, a))) <==> Converged(g, s) && Terminating(s) == 0
  {
    if Converged(g, s) && Terminating(s) == 0 {
      CountZero(s.replicas, r => IsTerminating(r));
      forall a ensures Same(s, Step(g, s, a)) {
        match a
        case Completes(i) => if i < |s.replicas| { assert s.replicas[i] in s.replicas && !IsTerminating(s.replicas[i]); }
        case Reconcile(c) => QuietIff(g, s, c);
      }
    } else if Terminating(s) > 0 {
      CountZero(s.replicas, r => IsTerminating(r));
      var r :| r in s.replicas && IsTerminating(r);
      var i :| 0 <= i < |s.replicas| && s.replicas[i] == r;
      assert |Step(g, s, Completes(i)).replicas| < |s.replicas|;
      assert !Same(s, Step(g, s, Completes(i)));
    } else {
      var c := Circumstance(0, true, true, n => true);
      CountZero(s.replicas, r => IsTerminating(r));
      ProgressOrPending(g, s, c);
      var s' := Step(g, s, Reconcile(c));
      assert Same(s, s') ==> Measure(g, s') == Measure(g, s);
    }
  }
}
