/** Port proxies over every interleaving of the forwarder: none is killed twice, and none is forgotten on a prompt schedule. */
module Proxies {
  import opened Dotted
  import opened DindTypes
  import opened Forwarder

  predicate NoDup<T(==)>(s: seq<T>) {
    forall i, j | 0 <= i < j < |s| :: s[i] != s[j]
  }

  // ---------- the invariant on PIDs ----------

  /** Main is working for container id. */
  predicate BusyWith(pc: MainPc, id: string) {
    (pc.Spawning? || pc.Recording? || pc.Reading? || pc.Killing?) && pc.container.id == id
  }

  /** Every PID is either live or killed, the kills are distinct, and only live ones can be lost. */
  ghost predicate Ledger(m: Main, lost: set<nat>) {
    && NoDup(m.killed)
    && (forall p | p in m.killed :: p < |m.spawned| && p !in m.live)
    && (forall p | p in m.live :: p < |m.spawned| && m.live[p].owner == m.spawned[p])
    && (forall p: nat | p < |m.spawned| :: p in m.live || p in m.killed)
    && lost <= m.live.Keys
  }

  /** The list kept for container id: distinct PIDs of proxies spawned for it, live unless main is killing them. */
  ghost predicate ListOk(m: Main, lost: set<nat>, id: string, list: seq<nat>) {
    && NoDup(list)
    && (forall p | p in list :: p < |m.spawned| && m.spawned[p] == id && p !in lost)
    && (forall p | p in list ::
          || p in m.live
          || (m.pc.Killing? && m.pc.container.id == id && p in m.pc.list[..if m.pc.k <= |m.pc.list| then m.pc.k else 0]))
  }

  /** What main holds in its hands. */
  ghost predicate HandOk(m: Main, pids: map<string, seq<nat>>, lost: set<nat>) {
    match m.pc
    case Recording(c, k, p) =>
      p in m.live && p < |m.spawned| && m.spawned[p] == c.id && p !in lost && p !in PidsOf(pids, c.id)
    case Killing(c, list, k) =>
      && k <= |list| && ListOk(m, lost, c.id, list)
      && (forall p | p in list[k..] :: p in m.live)
      && (forall p | p in list[..k] :: p !in m.live)
      && (PidsOf(pids, c.id) == list || PidsOf(pids, c.id) == [])
    case _ => true
  }

  /** Where a live proxy's PID can be found. */
  predicate Tracked(m: Main, pids: map<string, seq<nat>>, id: string, p: nat) {
    || p in PidsOf(pids, id)
    || (m.pc.Recording? && p == m.pc.proxy)
    || (m.pc.Killing? && m.pc.k <= |m.pc.list| && p in m.pc.list[m.pc.k..])
  }

  ghost predicate PidInv(m: Main, pids: map<string, seq<nat>>, lost: set<nat>) {
    && Ledger(m, lost)
    && (forall id | id in pids :: ListOk(m, lost, id, pids[id]))
    && HandOk(m, pids, lost)
    && (forall p | p in m.live :: p in lost || Tracked(m, pids, m.live[p].owner, p))
  }

  lemma SpawnKeeps(m: Main, pids: map<string, seq<nat>>, lost: set<nat>)
    requires PidInv(m, pids, lost) && m.pc.Spawning? && ContainerMove(m, pids, true).Some?
    ensures PidInv(ContainerMove(m, pids, true).value.0, pids, lost)
  {
    hide Requests;
    var m' := ContainerMove(m, pids, true).value.0;
    assert forall q: nat | q < |m.spawned| :: m'.spawned[q] == m.spawned[q];
    assert m'.killed == m.killed;
    forall id | id in pids ensures ListOk(m', lost, id, pids[id]) { assert ListOk(m, lost, id, pids[id]); }
    forall q | q in m'.live ensures q in lost || Tracked(m', pids, m'.live[q].owner, q) {
      if q in m.live { assert q in lost || Tracked(m, pids, m.live[q].owner, q); }
    }
  }

  lemma RecordKeeps(m: Main, pids: map<string, seq<nat>>, lost: set<nat>)
    requires PidInv(m, pids, lost) && m.pc.Recording?
    ensures var r := ContainerMove(m, pids, true).value; PidInv(r.0, r.1, lost)
  {
    var (m', pids') := ContainerMove(m, pids, true).value;
    var id, p := m.pc.container.id, m.pc.proxy;
    var list := PidsOf(pids, id);
    assert pids'[id] == list + [p];
    forall x | x in pids' ensures ListOk(m', lost, x, pids'[x]) {
      if x in pids { assert ListOk(m, lost, x, pids[x]); }
    }
    forall q | q in m'.live ensures q in lost || Tracked(m', pids', m'.live[q].owner, q) {
      assert q in lost || Tracked(m, pids, m.live[q].owner, q);
    }
  }

  lemma ReadKeeps(m: Main, pids: map<string, seq<nat>>, lost: set<nat>)
    requires PidInv(m, pids, lost) && m.pc.Reading?
    ensures var r := ContainerMove(m, pids, true).value; PidInv(r.0, r.1, lost)
  {
    var m' := ContainerMove(m, pids, true).value.0;
    var id := m.pc.container.id;
    forall x | x in pids ensures ListOk(m', lost, x, pids[x]) { assert ListOk(m, lost, x, pids[x]); }
    forall q | q in m'.live ensures q in lost || Tracked(m', pids, m'.live[q].owner, q) {
      assert q in lost || Tracked(m, pids, m.live[q].owner, q);
    }
  }

  lemma KillKeeps(m: Main, pids: map<string, seq<nat>>, lost: set<nat>)
    requires PidInv(m, pids, lost) && m.pc.Killing? && m.pc.k < |m.pc.list|
    ensures PidInv(ContainerMove(m, pids, true).value.0, pids, lost)
  {
    var m' := ContainerMove(m, pids, true).value.0;
    var list, k := m.pc.list, m.pc.k;
    var p := list[k];
    KillKeepsHand(m, pids, lost);
    assert list[k..] == [p] + list[k + 1..];
    assert list[..k + 1] == list[..k] + [p];
    hide Ledger, HandOk;
    forall x | x in pids ensures ListOk(m', lost, x, pids[x]) {
      assert ListOk(m, lost, x, pids[x]);
    }
    hide ListOk;
    forall q | q in m'.live ensures q in lost || Tracked(m', pids, m'.live[q].owner, q) {
      assert q in lost || Tracked(m, pids, m.live[q].owner, q);
    }
  }

  lemma KillKeepsHand(m: Main, pids: map<string, seq<nat>>, lost: set<nat>)
    requires PidInv(m, pids, lost) && m.pc.Killing? && m.pc.k < |m.pc.list|
    ensures var m' := ContainerMove(m, pids, true).value.0; Ledger(m', lost) && HandOk(m', pids, lost)
  {
    hide Tracked;
    var list, k := m.pc.list, m.pc.k;
    var p := list[k];
    assert list[k..] == [p] + list[k + 1..];
    assert list[..k + 1] == list[..k] + [p];
    assert p in list[k..] && p in list;
    assert forall q | q in list[k + 1..] :: q != p && q in list[k..];
  }

  lemma FinishKeeps(m: Main, pids: map<string, seq<nat>>, lost: set<nat>)
    requires PidInv(m, pids, lost) && m.pc.Killing? && m.pc.k == |m.pc.list|
    ensures var r := ContainerMove(m, pids, true).value; PidInv(r.0, r.1, lost)
    ensures forall p | p in m.live && m.live[p].owner == m.pc.container.id :: p in lost
  {
    var (m', pids') := ContainerMove(m, pids, true).value;
    var id := m.pc.container.id;
    forall x | x in pids' ensures ListOk(m', lost, x, pids'[x]) {
      if x != id { assert ListOk(m, lost, x, pids[x]); }
    }
    assert m.pc.list[..m.pc.k] == m.pc.list;
    forall q | q in m.live ensures q in lost || (q in PidsOf(pids', m'.live[q].owner) && m.live[q].owner != id) {
      assert q in lost || Tracked(m, pids, m.live[q].owner, q);
    }
  }

  lemma HandlerKeepsPids(m: Main, pids: map<string, seq<nat>>, lost: set<nat>, ok: bool)
    requires PidInv(m, pids, lost) && (exists id :: BusyWith(m.pc, id)) && ContainerMove(m, pids, ok).Some?
    ensures var r := ContainerMove(m, pids, ok).value; PidInv(r.0, r.1, lost)
  {
    hide PidInv, Requests;
    match m.pc
    case Spawning(_, k) =>
      if k < |Requests(m.pc.container)| { SpawnKeeps(m, pids, lost); } else { OnlyPc(m, m.(pc := Selecting), pids, lost); }
    case Recording(_, _, _) => RecordKeeps(m, pids, lost);
    case Reading(_) => ReadKeeps(m, pids, lost);
    case Killing(_, list, k) =>
      if k < |list| { KillKeeps(m, pids, lost); } else { KillingBound(m, pids, lost); FinishKeeps(m, pids, lost); }
  }

  lemma KillingBound(m: Main, pids: map<string, seq<nat>>, lost: set<nat>)
    requires PidInv(m, pids, lost) && m.pc.Killing?
    ensures m.pc.k <= |m.pc.list|
  {
  }

  /** Moving between points where main holds no PID changes nothing. */
  lemma OnlyPc(m: Main, m': Main, pids: map<string, seq<nat>>, lost: set<nat>)
    requires PidInv(m, pids, lost) && !m.pc.Recording? && !m.pc.Killing? && !m'.pc.Recording? && !m'.pc.Killing?
    requires m'.live == m.live && m'.spawned == m.spawned && m'.killed == m.killed
    ensures PidInv(m', pids, lost)
  {
    forall x | x in pids ensures ListOk(m', lost, x, pids[x]) { assert ListOk(m, lost, x, pids[x]); }
    forall q | q in m'.live ensures q in lost || Tracked(m', pids, m'.live[q].owner, q) {
      assert q in lost || Tracked(m, pids, m.live[q].owner, q);
    }
  }

  /** Resetting a list loses at most the PIDs counted as overwritten. */
  lemma ResetKeeps(m: Main, pids: map<string, seq<nat>>, lost: set<nat>, id: string)
    requires PidInv(m, pids, lost)
    ensures PidInv(m, pids[id := []], lost + Overwritten(m, pids, id))
  {
    var pids' := pids[id := []];
    var lost' := lost + Overwritten(m, pids, id);
    if id in pids { assert ListOk(m, lost, id, pids[id]); }
    forall p | p in Overwritten(m, pids, id) ensures p in m.live && m.spawned[p] == id {
    }
    forall x | x in pids' ensures ListOk(m, lost', x, pids'[x]) {
      if x != id { assert ListOk(m, lost, x, pids[x]); }
    }
    forall q | q in m.live ensures q in lost' || Tracked(m, pids', m.live[q].owner, q) {
      assert q in lost || Tracked(m, pids, m.live[q].owner, q);
    }
  }

  lemma PidInvKept(w: World, a: Act)
    requires PidInv(w.mn, w.pids, w.lost)
    ensures var w' := Step(w, a); PidInv(w'.mn, w'.pids, w'.lost)
  {
    hide PidInv, ContainerMove, EventMove, Overwritten;
    if w.down {
    } else if a.MainStep? {
      if w.mn.pc.Installing? || w.mn.pc.Removing? {
        if NetworkMove(w.mn, a.ok).Some? { OnlyPc(w.mn, NetworkMove(w.mn, a.ok).value, w.pids, w.lost); }
      } else if w.mn.pc != Selecting {
        assert BusyWith(w.mn.pc, w.mn.pc.container.id);
        if ContainerMove(w.mn, w.pids, a.ok).Some? { HandlerKeepsPids(w.mn, w.pids, w.lost, a.ok); }
      }
    } else if a == Deliver {
      if w.mn.pc == Selecting { OnlyPc(w.mn, Take(w.mn, w.ev.pc), w.pids, w.lost); }
    } else if a.ContainerStart? && w.ev.pc == Listening {
      ResetKeeps(w.mn, w.pids, w.lost, a.id);
    }
  }

  lemma {:induction false} AlwaysPids(acts: seq<Act>)
    ensures var w := Exec(acts); PidInv(w.mn, w.pids, w.lost)
  {
    if acts != [] {
      AlwaysPids(acts[..|acts| - 1]);
      PidInvKept(Exec(acts[..|acts| - 1]), acts[|acts| - 1]);
    }
  }

  // ---------- histories of container messages ----------

  /** The event goroutine's cache and main's place in the stream of container messages. */
  ghost predicate StreamInv(w: World) {
    var e, m := w.ev, w.mn;
    && e.conts == Running(e.csent)
    && (forall id | id in e.conts :: e.conts[id].id == id && e.conts[id].action == Start)
    && (if e.pc.SendingContainer? then |e.csent| == m.creceived + 1 && e.csent[m.creceived] == e.pc.container
        else |e.csent| == m.creceived)
    && ((m.pc.Spawning? || m.pc.Recording? || m.pc.Reading? || m.pc.Killing?) ==>
          && 0 < m.creceived && e.csent[m.creceived - 1] == m.pc.container
          && (m.pc.container.action == Start <==> m.pc.Spawning? || m.pc.Recording?))
  }

  lemma {:induction false} RunningShape(msgs: seq<ContainerInfo>)
    ensures forall id | id in Running(msgs) :: Running(msgs)[id].id == id && Running(msgs)[id].action == Start
  {
    if msgs != [] { RunningShape(msgs[..|msgs| - 1]); }
  }

  lemma RunningSnoc(msgs: seq<ContainerInfo>, m: ContainerInfo)
    ensures Running(msgs + [m]) == if m.action == Start then Running(msgs)[m.id := m] else Running(msgs) - {m.id}
  {
    assert (msgs + [m])[..|msgs|] == msgs;
  }

  lemma StreamAccept(w: World, a: Act)
    requires StreamInv(w) && w.ev.pc == Listening && !a.EventStep? && !a.Deliver? && !a.MainStep? && !a.Exit?
    ensures StreamInv(StepAccept(w, a)) && w.ev.csent <= StepAccept(w, a).ev.csent
  {
    hide ProxyIps, Running, Overwritten;
    var w' := StepAccept(w, a);
    if w'.ev.csent != w.ev.csent { RunningSnoc(w.ev.csent, w'.ev.csent[|w.ev.csent|]); }
  }

  lemma StreamMain(w: World, ok: bool)
    requires StreamInv(w)
    ensures StreamInv(StepMain(w, ok)) && StepMain(w, ok).ev == w.ev
  {
    hide Requests, ParseCidr, Running;
  }

  lemma StreamDeliver(w: World)
    requires StreamInv(w) && w.mn.pc == Selecting
    ensures StreamInv(StepDeliver(w)) && StepDeliver(w).ev.csent == w.ev.csent
  {
    hide Running;
  }

  lemma StreamKept(w: World, a: Act)
    requires StreamInv(w)
    ensures StreamInv(Step(w, a)) && w.ev.csent <= Step(w, a).ev.csent
  {
    hide StepAccept, StepMain, StepDeliver, MakeSubnet, Running;
    if !w.down {
      if a.MainStep? {
        StreamMain(w, a.ok);
      } else if a.Deliver? {
        if w.mn.pc == Selecting { StreamDeliver(w); }
      } else if w.ev.pc == Listening && !a.EventStep? && !a.Exit? {
        StreamAccept(w, a);
      }
    }
  }

  lemma {:induction false} AlwaysStream(acts: seq<Act>)
    ensures StreamInv(Exec(acts))
  {
    if acts != [] {
      AlwaysStream(acts[..|acts| - 1]);
      StreamKept(Exec(acts[..|acts| - 1]), acts[|acts| - 1]);
    }
  }

  /** The containers main has been told to serve. */
  function Served(w: World): map<string, ContainerInfo> {
    if w.mn.creceived <= |w.ev.csent| then Running(w.ev.csent[..w.mn.creceived]) else map[]
  }

  /** A list of PIDs is non-empty only for a container main serves, or is just tearing down. */
  ghost predicate Held(pids: map<string, seq<nat>>, served: map<string, ContainerInfo>, pc: MainPc) {
    forall id | id in pids && pids[id] != [] ::
      id in served || ((pc.Reading? || pc.Killing?) && pc.container.id == id)
  }

  ghost predicate HeldInv(w: World) {
    Held(w.pids, Served(w), w.mn.pc)
  }

  lemma HeldHandler(m: Main, pids: map<string, seq<nat>>, served: map<string, ContainerInfo>, ok: bool)
    requires Held(pids, served, m.pc) && (exists id :: BusyWith(m.pc, id)) && ContainerMove(m, pids, ok).Some?
    requires m.pc.Recording? ==> m.pc.container.id in served
    ensures var (m', pids') := ContainerMove(m, pids, ok).value; Held(pids', served, m'.pc)
  {
    hide Requests;
  }

  lemma HeldMain(w: World, ok: bool)
    requires StreamInv(w) && HeldInv(w)
    ensures HeldInv(StepMain(w, ok))
  {
    var got := w.ev.csent[..w.mn.creceived];
    var pc := w.mn.pc;
    if pc.Recording? {
      assert got[|got| - 1] == pc.container;
      assert pc.container.id in Running(got);
    }
    hide ContainerMove, ParseCidr, Running;
    assert Served(w) == Running(got);
    if pc.Spawning? || pc.Recording? || pc.Reading? || pc.Killing? {
      assert BusyWith(pc, pc.container.id);
      if ContainerMove(w.mn, w.pids, ok).Some? { HeldHandler(w.mn, w.pids, Served(w), ok); }
    }
    StreamMain(w, ok);
    assert StepMain(w, ok).mn.creceived == w.mn.creceived by { SameReceived(w, ok); }
  }

  lemma SameReceived(w: World, ok: bool)
    ensures StepMain(w, ok).mn.creceived == w.mn.creceived
  {
    hide Requests, ParseCidr;
  }

  lemma HeldDeliver(w: World)
    requires StreamInv(w) && HeldInv(w) && w.mn.pc == Selecting
    ensures HeldInv(StepDeliver(w))
  {
    var w' := StepDeliver(w);
    if w.ev.pc.SendingContainer? {
      var got := w'.ev.csent[..w'.mn.creceived];
      assert got[..|got| - 1] == w.ev.csent[..w.mn.creceived];
    } else {
      assert Served(w') == Served(w);
    }
  }

  lemma HeldKept(w: World, a: Act)
    requires StreamInv(w) && HeldInv(w)
    ensures HeldInv(Step(w, a))
  {
    hide StepDeliver, StepMain, MakeSubnet, ProxyIps, Overwritten;
    if w.down {
    } else if a.MainStep? {
      HeldMain(w, a.ok);
    } else if a == Deliver {
      if w.mn.pc == Selecting { HeldDeliver(w); }
    } else {
      var w' := Step(w, a);
      assert w'.mn == w.mn;
      assert w.ev.csent <= w'.ev.csent;
      assert w'.ev.csent[..w.mn.creceived] == w.ev.csent[..w.mn.creceived];
      assert Served(w') == Served(w);
    }
  }

  lemma {:induction false} AlwaysHeld(acts: seq<Act>)
    ensures HeldInv(Exec(acts))
  {
    if acts != [] {
      AlwaysHeld(acts[..|acts| - 1]);
      AlwaysStream(acts[..|acts| - 1]);
      HeldKept(Exec(acts[..|acts| - 1]), acts[|acts| - 1]);
    }
  }

  // ---------- killed exactly once, unless lost ----------

  /** The schedule the proxies rely on: a container starts only when it is not running, and after main has read the PIDs
      of its previous stop. */
  predicate Prompt(w: World, a: Act) {
    a.ContainerStart? && w.ev.pc == Listening && !w.down ==>
      a.id !in w.ev.conts && !(w.mn.pc.Reading? && w.mn.pc.container.id == a.id)
  }

  predicate PromptRun(acts: seq<Act>) {
    acts == [] || (PromptRun(acts[..|acts| - 1]) && Prompt(Exec(acts[..|acts| - 1]), acts[|acts| - 1]))
  }

  /** Exactly when a start loses PIDs: its list is not empty and main is not already killing it. That can only be a
      container still running, or one whose stop main has received but not yet read the list for. */
  lemma StartLosesIff(acts: seq<Act>, a: Act)
    requires var w := Exec(acts); a.ContainerStart? && w.ev.pc == Listening && !w.down
    ensures var w := Exec(acts);
            && (Step(w, a).lost != w.lost <==> PidsOf(w.pids, a.id) != [] && !(w.mn.pc.Killing? && w.mn.pc.container.id == a.id))
            && (Step(w, a).lost != w.lost ==> a.id in w.ev.conts || (w.mn.pc.Reading? && w.mn.pc.container.id == a.id))
  {
    AlwaysPids(acts);
    AlwaysStream(acts);
    AlwaysHeld(acts);
    var w := Exec(acts);
    var list := PidsOf(w.pids, a.id);
    assert w.ev.csent[..w.mn.creceived] == w.ev.csent;
    if list != [] {
      assert ListOk(w.mn, w.lost, a.id, w.pids[a.id]);
      assert list[0] in list;
      if !(w.mn.pc.Killing? && w.mn.pc.container.id == a.id) {
        assert list[0] in Overwritten(w.mn, w.pids, a.id);
      } else {
        assert Overwritten(w.mn, w.pids, a.id) == {};
      }
    }
  }

  /** On that schedule no PID is ever lost. */
  lemma {:induction false} NothingLost(acts: seq<Act>)
    requires PromptRun(acts)
    ensures Exec(acts).lost == {}
  {
    if acts != [] {
      var front, a := acts[..|acts| - 1], acts[|acts| - 1];
      NothingLost(front);
      if a.ContainerStart? && Exec(front).ev.pc == Listening && !Exec(front).down { StartLosesIff(front, a); }
    }
  }

  /** In every run: a proxy is killed at most once and only after it was spawned, it is live until then, and a live
      proxy's PID is lost or still in its container's list or in main's hands. */
  lemma KilledAtMostOnce(acts: seq<Act>)
    ensures var w := Exec(acts);
            && NoDup(w.mn.killed)
            && (forall p: nat :: p < |w.mn.spawned| <==> p in w.mn.live || p in w.mn.killed)
            && (forall p | p in w.mn.killed :: p !in w.mn.live)
            && (forall p | p in w.mn.live :: w.mn.live[p].owner == w.mn.spawned[p])
            && (forall p | p in w.mn.live :: p in w.lost || Tracked(w.mn, w.pids, w.mn.live[p].owner, p))
  {
    AlwaysPids(acts);
  }

  /** A proxy whose PID is lost runs for good. */
  lemma {:induction false} LostRunsForGood(acts: seq<Act>, more: seq<Act>, p: nat)
    requires p in Exec(acts).lost
    ensures p in Exec(acts + more).lost && p in Exec(acts + more).mn.live
  {
    AlwaysPids(acts + more);
    if more == [] {
      assert acts + more == acts;
    } else {
      var front := more[..|more| - 1];
      LostRunsForGood(acts, front, p);
      assert (acts + more)[..|acts + more| - 1] == acts + front;
      LostStays(Exec(acts + front), more[|more| - 1], p);
    }
  }

  lemma LostStays(w: World, a: Act, p: nat)
    requires p in w.lost
    ensures p in Step(w, a).lost
  {
    hide Overwritten, ProxyIps, MakeSubnet, NetworkMove, ContainerMove;
  }

  /** When main finishes a stop, every proxy ever spawned for that container has been killed (exactly once, by the lemma
      above), except the PIDs lost before; on a prompt schedule there are none of those. */
  lemma StopKillsAll(acts: seq<Act>, ok: bool)
    requires var w := Exec(acts); !w.down && w.mn.pc.Killing? && w.mn.pc.k == |w.mn.pc.list|
    ensures var w, w' := Exec(acts), Step(Exec(acts), MainStep(ok));
            && w'.mn.pc == Selecting && w'.mn.killed == w.mn.killed && w'.mn.spawned == w.mn.spawned
            && (forall p: nat | p < |w'.mn.spawned| && w'.mn.spawned[p] == w.mn.pc.container.id :: p in w'.mn.killed || p in w'.lost)
            && (PromptRun(acts) ==> forall p: nat | p < |w'.mn.spawned| && w'.mn.spawned[p] == w.mn.pc.container.id :: p in w'.mn.killed)
  {
    AlwaysPids(acts);
    var w := Exec(acts);
    FinishKeeps(w.mn, w.pids, w.lost);
    if PromptRun(acts) { NothingLost(acts); }
  }

  /** Once docker has reported a container's stop, a second report (die, then stop) changes nothing, however long after and
      whatever happened since, unless the container was started again. */
  lemma SecondStopIgnored(acts: seq<Act>, id: string, more: seq<Act>)
    requires !Exec(acts).down && Exec(acts).ev.pc == Listening
    requires forall a | a in more :: !(a.ContainerStart? && a.id == id)
    ensures var w := Exec(acts + [ContainerStop(id)] + more); Step(w, ContainerStop(id)) == w
  {
    StaysForgotten(acts, id, more);
  }

  lemma {:induction false} StaysForgotten(acts: seq<Act>, id: string, more: seq<Act>)
    requires !Exec(acts).down && Exec(acts).ev.pc == Listening
    requires forall a | a in more :: !(a.ContainerStart? && a.id == id)
    ensures id !in Exec(acts + [ContainerStop(id)] + more).ev.conts
  {
    var stopped := acts + [ContainerStop(id)];
    if more == [] {
      ExecSnoc(acts, ContainerStop(id));
      assert stopped + more == stopped;
    } else {
      var front, a := more[..|more| - 1], more[|more| - 1];
      StaysForgotten(acts, id, front);
      assert stopped + more == stopped + front + [a];
      ExecSnoc(stopped + front, a);
      assert a in more;
      NoNewContainer(Exec(stopped + front), id, a);
    }
  }

  lemma NoNewContainer(w: World, id: string, a: Act)
    requires id !in w.ev.conts && !(a.ContainerStart? && a.id == id)
    ensures id !in Step(w, a).ev.conts
  {
    hide ProxyIps, MakeSubnet, NetworkMove, ContainerMove, Overwritten;
  }

  // ---------- the schedule is needed ----------

  lemma ExecSnoc(acts: seq<Act>, a: Act)
    ensures Exec(acts + [a]) == Step(Exec(acts), a)
  {
    assert (acts + [a])[..|acts|] == acts;
  }

  lemma Then(acts: seq<Act>, a: Act) returns (more: seq<Act>)
    ensures more == acts + [a] && Exec(more) == Step(Exec(acts), a)
  {
    more := acts + [a];
    ExecSnoc(acts, a);
  }

  /** A run that brings one network up. */
  lemma NetworkUp(docker: string) returns (acts: seq<Act>)
    requires ParseCidr(docker).Some?
    ensures var w := Exec(acts);
            && !w.down && w.ev.pc == Listening && w.mn.pc == Selecting && w.mn.live == map[] && w.mn.spawned == []
            && w.ev.nets == map["n" := NetworkInfo("n", Create, [MakeSubnet(docker, 1)])]
            && w.pids == map[] && w.ev.conts == map[]
  {
    acts := NetworkMade(docker);
    hide Exec, Rewrite, ParseCidr, EventMove, ContainerMove, Accept;
    acts := Then(acts, Deliver);
    acts := Then(acts, MainStep(true));
    acts := Then(acts, MainStep(true));
  }

  lemma NetworkMade(docker: string) returns (acts: seq<Act>)
    ensures var info := NetworkInfo("n", Create, [MakeSubnet(docker, 1)]);
            Exec(acts).ev.pc == SendingNetwork(info) && Exec(acts).ev.nets == map["n" := info] && Exec(acts).ev.conts == map[]
    ensures Exec(acts).mn == INIT.mn && Exec(acts).pids == map[] && !Exec(acts).down
  {
    assert Exec([]) == INIT;
    hide Exec, Rewrite, NetworkMove, ContainerMove;
    var s := MakeSubnet(docker, 1);
    acts := Then([], NetworkCreate("n", [docker]));
    assert [docker][1..] == [] && [] + [s] == [s];
    acts := Then(acts, EventStep);
    assert Exec(acts).ev.pc == Marking("n", [], [s]);
    acts := Then(acts, EventStep);
  }

  const ATTACHED := [Endpoint("n", "172.18.0.2")]
  const START := ContainerStart("c", 7, [Port("tcp", 80)], ATTACHED)

  /** The container that START announces when its network owns octet 1 asks for one proxy. */
  lemma OneRequest(nets: map<string, NetworkInfo>, docker: string)
    requires nets == map["n" := NetworkInfo("n", Create, [MakeSubnet(docker, 1)])]
    ensures |ProxyIps(nets, ATTACHED)| == 1
    ensures forall ip :: |RequestsFor([ip], [Port("tcp", 80)], 7)| == 1 && RequestsFor([ip], [Port("tcp", 80)], 7)[0].proto == "tcp"
  {
    hide Rewrite, HostOctets;
    var subnets := [MakeSubnet(docker, 1)];
    assert ATTACHED[1..] == [] && ATTACHED[0].net == "n" && nets["n"].subnets == subnets;
    assert subnets[1..] == [];
    assert SubnetIps(subnets, "172.18.0.2") == [Rewrite("172.18.0.2", HostOctets(1))];
    assert ProxyIps(nets, ATTACHED) == SubnetIps(subnets, "172.18.0.2") + ProxyIps(nets, ATTACHED[1..]);
    forall ip ensures |RequestsFor([ip], [Port("tcp", 80)], 7)| == 1 && RequestsFor([ip], [Port("tcp", 80)], 7)[0].proto == "tcp" {
      assert [ip][1..] == [];
    }
  }

  /** A run at whose end a container has a live proxy. */
  lemma ContainerUp(docker: string) returns (acts: seq<Act>)
    requires ParseCidr(docker).Some?
    ensures var w := Exec(acts);
            && !w.down && w.ev.pc == Listening && w.mn.pc == Selecting && 0 in w.mn.live
            && "c" in w.ev.conts && w.ev.conts["c"].id == "c" && w.pids == map["c" := [0]]
  {
    acts := ContainerReceived(docker);
    hide Exec, RequestsFor, NetworkMove, EventMove, Accept;
    acts := Then(acts, MainStep(true));
    acts := Then(acts, MainStep(true));
    assert [] + [0] == [0];
    assert Exec(acts).pids == map["c" := [0]];
    acts := Then(acts, MainStep(true));
  }

  lemma ContainerReceived(docker: string) returns (acts: seq<Act>)
    requires ParseCidr(docker).Some?
    ensures var w := Exec(acts);
            && !w.down && w.ev.pc == Listening && w.mn.pc.Spawning? && w.mn.pc.k == 0 && w.mn.live == map[] && w.mn.spawned == []
            && w.pids == map["c" := []] && "c" in w.ev.conts && w.ev.conts["c"] == w.mn.pc.container
            && w.mn.pc.container.id == "c" && |Requests(w.mn.pc.container)| == 1 && Requests(w.mn.pc.container)[0].proto == "tcp"
  {
    acts := NetworkUp(docker);
    OneRequest(Exec(acts).ev.nets, docker);
    var info := Started(Exec(acts), START);
    OnlyRequest(info);
    StartDelivered(Exec(acts), START);
    hide *;
    acts := Then(acts, START);
    acts := Then(acts, Deliver);
  }

  /** What a start announces. */
  function Started(w: World, a: Act): ContainerInfo
    requires a.ContainerStart?
  {
    ContainerInfo(a.id, Start, a.pid, a.ports, ProxyIps(w.ev.nets, a.attached))
  }

  lemma StartDelivered(w: World, a: Act)
    requires !w.down && w.ev.pc == Listening && w.mn.pc == Selecting && a.ContainerStart?
    ensures var w', info := Step(Step(w, a), Deliver), Started(w, a);
            && !w'.down && w'.ev.pc == Listening && w'.mn.pc == Spawning(info, 0)
            && w'.mn.live == w.mn.live && w'.mn.spawned == w.mn.spawned
            && w'.pids == w.pids[a.id := []] && w'.ev.conts == w.ev.conts[a.id := info]
  {
    hide ProxyIps, Overwritten;
  }

  lemma OnlyRequest(info: ContainerInfo)
    requires |info.ips| == 1 && info.ports == [Port("tcp", 80)] && info.pid == 7
    requires forall ip :: |RequestsFor([ip], [Port("tcp", 80)], 7)| == 1 && RequestsFor([ip], [Port("tcp", 80)], 7)[0].proto == "tcp"
    ensures |Requests(info)| == 1 && Requests(info)[0].proto == "tcp"
  {
    hide RequestsFor;
    assert info.ips == [info.ips[0]];
  }

  /** A run on which a container restarts before main has read the PIDs of its stop: its proxy is lost while live. */
  lemma RestartCanLose()
    ensures exists acts :: 0 in Exec(acts).lost && 0 in Exec(acts).mn.live && !PromptRun(acts)
  {
    var subnet := Cidr(Address(172, 18, 0, 0), 16);
    CidrRoundTrip(subnet);
    var acts := ContainerUp(CidrText(subnet));
    RestartLoses(Exec(acts), "c", START, 0);
    hide *;
    acts := Then(acts, ContainerStop("c"));
    acts := Then(acts, Deliver);
    acts := Then(acts, START);
    if PromptRun(acts) { NothingLost(acts); }
  }

  lemma RestartLoses(w: World, id: string, a: Act, p: nat)
    requires !w.down && w.ev.pc == Listening && w.mn.pc == Selecting && p in w.mn.live
    requires id in w.ev.conts && w.ev.conts[id].id == id && w.pids == map[id := [p]]
    requires a.ContainerStart? && a.id == id
    ensures var w' := Step(Step(Step(w, ContainerStop(id)), Deliver), a); p in w'.lost && p in w'.mn.live
  {
    hide ProxyIps;
  }
}
