/** Rules and octets over every interleaving of the forwarder. */
module Networks {
  import opened Wrappers
  import opened Dotted
  import opened Octets
  import opened DindTypes
  import opened Forwarder

  // ---------- histories of network messages ----------

  /** Subnets as the event goroutine builds them: rewritten text, octets in 1..255 and pairwise distinct. */
  predicate WellMade(subnets: seq<Subnet>) {
    && (forall s | s in subnets :: 1 <= s.octet <= 255 && s == MakeSubnet(s.docker, s.octet))
    && (forall i, j | 0 <= i < j < |subnets| :: subnets[i].octet != subnets[j].octet)
  }

  /** Every message as the event goroutine may form it after the ones before. */
  predicate WellLogged(msgs: seq<NetworkInfo>) {
    msgs == [] ||
    var before, m := msgs[..|msgs| - 1], msgs[|msgs| - 1];
    && WellLogged(before)
    && WellMade(m.subnets)
    && if m.action == Create then OctetsOf(m.subnets) !! Marked(before)
       else m.action == Destroy && m.id in Alive(before) && Alive(before)[m.id].subnets == m.subnets
  }

  /** Every message announcing IPv4 subnets only. */
  predicate AllIPv4(msgs: seq<NetworkInfo>) {
    forall m, s | m in msgs && s in m.subnets :: ParseCidr(s.docker).Some?
  }

  /** No create took the identifier of a living network that has subnets. */
  predicate Unshadowed(msgs: seq<NetworkInfo>) {
    msgs == [] ||
    var before, m := msgs[..|msgs| - 1], msgs[|msgs| - 1];
    Unshadowed(before) && (m.action == Create && m.id in Alive(before) ==> Alive(before)[m.id].subnets == [])
  }

  /** Networks owning disjoint octets, all of them marked. */
  ghost predicate Disjoint(nets: map<string, NetworkInfo>, marked: set<nat>) {
    && (forall id | id in nets ::
          nets[id].id == id && nets[id].action == Create && WellMade(nets[id].subnets) && OctetsOf(nets[id].subnets) <= marked)
    && (forall x, y | x in nets && y in nets && x != y :: OctetsOf(nets[x].subnets) !! OctetsOf(nets[y].subnets))
  }

  lemma {:induction false} AliveDisjoint(msgs: seq<NetworkInfo>)
    requires WellLogged(msgs)
    ensures Disjoint(Alive(msgs), Marked(msgs))
  {
    if msgs != [] {
      AliveDisjoint(msgs[..|msgs| - 1]);
    }
  }

  /** When no living network was overwritten, the marked octets are exactly those the living networks own. */
  lemma {:induction false} MarkedIsOwned(msgs: seq<NetworkInfo>)
    requires WellLogged(msgs)
    ensures OwnedOctets(Alive(msgs)) <= Marked(msgs)
    ensures Unshadowed(msgs) ==> Marked(msgs) == OwnedOctets(Alive(msgs))
  {
    AliveDisjoint(msgs);
    forall o | o in OwnedOctets(Alive(msgs)) ensures o in Marked(msgs) {
      var id, s :| id in Alive(msgs) && s in Alive(msgs)[id].subnets && s.octet == o;
      assert o in OctetsOf(Alive(msgs)[id].subnets);
    }
    if msgs != [] && Unshadowed(msgs) {
      var before, m := msgs[..|msgs| - 1], msgs[|msgs| - 1];
      MarkedIsOwned(before);
      AliveDisjoint(before);
      forall o | o in Marked(msgs) ensures o in OwnedOctets(Alive(msgs)) {
        if m.action == Create && o in OctetsOf(m.subnets) {
          assert Alive(msgs)[m.id] == m;
        } else {
          var id, s :| id in Alive(before) && s in Alive(before)[id].subnets && s.octet == o;
          assert id != m.id;
          assert Alive(msgs)[id] == Alive(before)[id];
        }
      }
    }
  }

  /** Rules that name marked octets, no octet twice. */
  ghost predicate OneRulePerOctet(rules: set<Rule>, marked: set<nat>) {
    && (forall r | r in rules :: SecondOctet(r.target).Some? && SecondOctet(r.target).value in marked)
    && (forall r, q | r in rules && q in rules && SecondOctet(r.target) == SecondOctet(q.target) :: r == q)
  }

  lemma RuleNamesOctet(s: Subnet)
    requires s == MakeSubnet(s.docker, s.octet) && s.octet <= 255 && ParseCidr(s.docker).Some?
    ensures SecondOctet(RuleOf(s).target) == Some(s.octet)
  {
    TargetNamesOctet(s.docker, s.octet);
  }

  /** Acting on a well formed history leaves one rule per octet, including every rule of every living network, and
      nothing else when no living network was overwritten. */
  lemma {:induction false} AppliedRules(msgs: seq<NetworkInfo>)
    requires WellLogged(msgs) && AllIPv4(msgs)
    ensures OneRulePerOctet(Applied(msgs), Marked(msgs))
    ensures OwnedRules(Alive(msgs)) <= Applied(msgs)
    ensures Unshadowed(msgs) ==> Applied(msgs) == OwnedRules(Alive(msgs))
  {
    if msgs != [] {
      var before, m := msgs[..|msgs| - 1], msgs[|msgs| - 1];
      assert AllIPv4(before);
      AppliedRules(before);
      AliveDisjoint(before);
      assert m in msgs;
      forall s | s in m.subnets ensures SecondOctet(RuleOf(s).target) == Some(s.octet) { RuleNamesOctet(s); }
      forall id, s | id in Alive(before) && s in Alive(before)[id].subnets
        ensures RuleOf(s) in Applied(before) && SecondOctet(RuleOf(s).target) == Some(s.octet)
      {
        assert RuleOf(s) in OwnedRules(Alive(before));
        AliveIPv4(before, id);
        RuleNamesOctet(s);
      }
      if m.action == Create { AppliedCreate(before, m); } else { AppliedDestroy(before, m); }
      assert msgs == before + [m];
    }
  }

  lemma {:induction false} AliveIPv4(msgs: seq<NetworkInfo>, id: string)
    requires AllIPv4(msgs) && id in Alive(msgs)
    ensures forall s | s in Alive(msgs)[id].subnets :: ParseCidr(s.docker).Some?
  {
    var before, m := msgs[..|msgs| - 1], msgs[|msgs| - 1];
    if m.action == Create && m.id == id {
      assert m in msgs;
    } else {
      assert AllIPv4(before);
      AliveIPv4(before, id);
    }
  }

  lemma RulesOfOnePerOctet(subnets: seq<Subnet>)
    requires WellMade(subnets) && forall s | s in subnets :: SecondOctet(RuleOf(s).target) == Some(s.octet)
    ensures OneRulePerOctet(RulesOf(subnets), OctetsOf(subnets))
  {
  }

  lemma UnionOnePerOctet(r1: set<Rule>, m1: set<nat>, r2: set<Rule>, m2: set<nat>)
    requires OneRulePerOctet(r1, m1) && OneRulePerOctet(r2, m2) && m1 !! m2
    ensures OneRulePerOctet(r1 + r2, m1 + m2)
  {
  }

  /** Facts about a history that its extension by one message starts from. */
  ghost predicate Ready(before: seq<NetworkInfo>, m: NetworkInfo) {
    && WellLogged(before + [m]) && WellLogged(before)
    && OneRulePerOctet(Applied(before), Marked(before))
    && OwnedRules(Alive(before)) <= Applied(before)
    && Disjoint(Alive(before), Marked(before))
    && (forall s | s in m.subnets :: SecondOctet(RuleOf(s).target) == Some(s.octet))
    && (forall id, s | id in Alive(before) && s in Alive(before)[id].subnets ::
          RuleOf(s) in Applied(before) && SecondOctet(RuleOf(s).target) == Some(s.octet))
  }

  lemma AppliedCreate(before: seq<NetworkInfo>, m: NetworkInfo)
    requires Ready(before, m) && m.action == Create
    ensures var msgs := before + [m];
            && OneRulePerOctet(Applied(msgs), Marked(msgs))
            && OwnedRules(Alive(msgs)) <= Applied(msgs)
            && (Unshadowed(msgs) && Applied(before) == OwnedRules(Alive(before)) ==> Applied(msgs) == OwnedRules(Alive(msgs)))
  {
    var msgs := before + [m];
    assert msgs[..|msgs| - 1] == before;
    RulesOfOnePerOctet(m.subnets);
    UnionOnePerOctet(Applied(before), Marked(before), RulesOf(m.subnets), OctetsOf(m.subnets));
    assert Unshadowed(msgs) && m.id in Alive(before) ==> Alive(before)[m.id].subnets == [];
    hide WellLogged, Unshadowed, Ready, Disjoint, OneRulePerOctet, Marked, Applied;
    OwnedWithMore(Alive(before), m);
  }

  /** Adding a network adds its rules, and takes none away unless it replaces one that has some. */
  lemma OwnedWithMore(nets: map<string, NetworkInfo>, m: NetworkInfo)
    ensures OwnedRules(nets[m.id := m]) <= OwnedRules(nets) + RulesOf(m.subnets)
    ensures (m.id in nets ==> nets[m.id].subnets == []) ==> OwnedRules(nets[m.id := m]) == OwnedRules(nets) + RulesOf(m.subnets)
  {
    var more := nets[m.id := m];
    forall r | r in OwnedRules(more) ensures r in OwnedRules(nets) + RulesOf(m.subnets) {
      var id, s :| id in more && s in more[id].subnets && RuleOf(s) == r;
      if id == m.id { assert r in RulesOf(m.subnets); } else { assert id in nets && s in nets[id].subnets; }
    }
    if m.id in nets ==> nets[m.id].subnets == [] {
      forall r | r in OwnedRules(nets) + RulesOf(m.subnets) ensures r in OwnedRules(more) {
        if r in RulesOf(m.subnets) {
          var s :| s in m.subnets && RuleOf(s) == r;
          assert more[m.id] == m;
        } else {
          var id, s :| id in nets && s in nets[id].subnets && RuleOf(s) == r;
          assert more[id] == nets[id];
        }
      }
    }
  }

  lemma AppliedDestroy(before: seq<NetworkInfo>, m: NetworkInfo)
    requires Ready(before, m) && m.action != Create
    ensures var msgs := before + [m];
            && OneRulePerOctet(Applied(msgs), Marked(msgs))
            && OwnedRules(Alive(msgs)) <= Applied(msgs)
            && (Applied(before) == OwnedRules(Alive(before)) ==> Applied(msgs) == OwnedRules(Alive(msgs)))
            && RulesOf(m.subnets) <= Applied(before)
  {
    var msgs := before + [m];
    assert msgs[..|msgs| - 1] == before;
    forall r | r in RulesOf(m.subnets) ensures r in Applied(before) {
      var s :| s in m.subnets && RuleOf(s) == r;
      assert s in Alive(before)[m.id].subnets;
    }
    forall r | r in Applied(msgs) ensures SecondOctet(r.target).value in Marked(msgs) {
      assert r in Applied(before) && r !in RulesOf(m.subnets);
    }
    forall r | r in OwnedRules(Alive(msgs)) ensures r in Applied(msgs) {
      var id, s :| id in Alive(msgs) && s in Alive(msgs)[id].subnets && RuleOf(s) == r;
      assert id != m.id && Alive(msgs)[id] == Alive(before)[id];
      assert s.octet in OctetsOf(Alive(before)[id].subnets);
      assert r !in RulesOf(m.subnets);
    }
    if Applied(before) == OwnedRules(Alive(before)) {
      forall r | r in Applied(msgs) ensures r in OwnedRules(Alive(msgs)) {
        var id, s :| id in Alive(before) && s in Alive(before)[id].subnets && RuleOf(s) == r;
        assert id != m.id;
        assert Alive(msgs)[id] == Alive(before)[id];
      }
    }
  }

  // ---------- the invariant ----------

  /** The event goroutine's side: cache and table against the messages formed so far. */
  ghost predicate EventOk(sent: seq<NetworkInfo>, received: nat, nets: map<string, NetworkInfo>, used: set<nat>, ev: EventPc) {
    && WellLogged(sent)
    && nets == Alive(sent)
    && (if ev.SendingNetwork? then |sent| == received + 1 && sent[received] == ev.net else |sent| == received)
    && match ev
       case Marking(_, _, subnets) =>
         WellMade(subnets) && OctetsOf(subnets) !! Marked(sent) && used == Marked(sent) + OctetsOf(subnets)
       case Freeing(net, i) =>
         net.id in nets && nets[net.id] == net && i <= |net.subnets| && used == Marked(sent) - OctetsOf(net.subnets[..i])
       case _ => used == Marked(sent)
  }

  ghost predicate EventInv(e: Events, received: nat) {
    EventOk(e.sent, received, e.nets, e.used, e.pc)
  }

  /** The rules while main is at subnet i of message net, after the messages before. */
  ghost predicate Midway(before: seq<NetworkInfo>, net: NetworkInfo, i: nat, rules: set<Rule>, installing: bool) {
    && i <= |net.subnets| && AllIPv4(before) && (net.action == Create <==> installing)
    && if installing then
         && (forall s | s in net.subnets[..i] :: ParseCidr(s.docker).Some?)
         && rules == Applied(before) + RulesOf(net.subnets[..i])
       else rules == Applied(before) - RulesOf(net.subnets[..i])
  }

  /** The main loop's side: the installed rules against the messages received so far. */
  ghost predicate RuleOk(got: seq<NetworkInfo>, rules: set<Rule>, mn: MainPc) {
    if mn.Installing? || mn.Removing? then
      got != [] && got[|got| - 1] == mn.net && Midway(got[..|got| - 1], mn.net, mn.i, rules, mn.Installing?)
    else
      AllIPv4(got) && rules == Applied(got)
  }

  ghost predicate RuleInv(sent: seq<NetworkInfo>, m: Main) {
    m.received <= |sent| && RuleOk(sent[..m.received], m.rules, m.pc)
  }

  ghost predicate Inv(w: World) {
    EventInv(w.ev, w.mn.received) && RuleInv(w.ev.sent, w.mn)
  }

  lemma {:induction false} WellLoggedPrefix(msgs: seq<NetworkInfo>, k: nat)
    requires WellLogged(msgs) && k <= |msgs|
    ensures WellLogged(msgs[..k])
  {
    if k < |msgs| {
      WellLoggedPrefix(msgs[..|msgs| - 1], k);
      assert msgs[..|msgs| - 1][..k] == msgs[..k];
    } else {
      assert msgs[..k] == msgs;
    }
  }

  lemma MarkKeeps(sent: seq<NetworkInfo>, nets: map<string, NetworkInfo>, used: set<nat>, id: string, todo: seq<string>, subnets: seq<Subnet>)
    requires EventOk(sent, |sent|, nets, used, Marking(id, todo, subnets)) && todo != [] && LeastFree(used) < 256
    ensures var o := LeastFree(used);
            EventOk(sent, |sent|, nets, used + {o}, Marking(id, todo[1..], subnets + [MakeSubnet(todo[0], o)]))
  {
    hide Rewrite;
    var o := LeastFree(used);
    var more := subnets + [MakeSubnet(todo[0], o)];
    assert OctetsOf(more) == OctetsOf(subnets) + {o};
    forall i, j | 0 <= i < j < |more| ensures more[i].octet != more[j].octet {
      if j == |subnets| { assert subnets[i].octet in OctetsOf(subnets); }
    }
    assert WellMade(more);
  }

  lemma PublishKeeps(sent: seq<NetworkInfo>, nets: map<string, NetworkInfo>, used: set<nat>, id: string, subnets: seq<Subnet>)
    requires EventOk(sent, |sent|, nets, used, Marking(id, [], subnets))
    ensures var info := NetworkInfo(id, Create, subnets);
            EventOk(sent + [info], |sent|, nets[id := info], used, SendingNetwork(info))
  {
    var sent' := sent + [NetworkInfo(id, Create, subnets)];
    assert sent'[..|sent'| - 1] == sent;
  }

  lemma FreeKeeps(sent: seq<NetworkInfo>, nets: map<string, NetworkInfo>, used: set<nat>, net: NetworkInfo, i: nat)
    requires EventOk(sent, |sent|, nets, used, Freeing(net, i)) && i < |net.subnets|
    ensures EventOk(sent, |sent|, nets, used - {net.subnets[i].octet}, Freeing(net, i + 1))
  {
    assert net.subnets[..i + 1] == net.subnets[..i] + [net.subnets[i]];
    assert OctetsOf(net.subnets[..i + 1]) == OctetsOf(net.subnets[..i]) + {net.subnets[i].octet};
  }

  lemma ForgetKeeps(sent: seq<NetworkInfo>, nets: map<string, NetworkInfo>, used: set<nat>, net: NetworkInfo)
    requires EventOk(sent, |sent|, nets, used, Freeing(net, |net.subnets|))
    ensures var info := net.(action := Destroy);
            EventOk(sent + [info], |sent|, nets - {net.id}, used, SendingNetwork(info))
  {
    var sent' := sent + [net.(action := Destroy)];
    assert sent'[..|sent'| - 1] == sent;
    assert net.subnets[..|net.subnets|] == net.subnets;
    AliveDisjoint(sent);
  }

  lemma EventMoveKeeps(e: Events, received: nat)
    requires EventInv(e, received) && EventMove(e).Some?
    ensures EventInv(EventMove(e).value, received)
    ensures e.sent <= EventMove(e).value.sent
  {
    hide Rewrite, WellLogged;
    match e.pc
    case Marking(id, todo, subnets) =>
      if todo == [] {
        PublishKeeps(e.sent, e.nets, e.used, id, subnets);
      } else {
        MarkKeeps(e.sent, e.nets, e.used, id, todo, subnets);
      }
    case Freeing(net, i) =>
      if i < |net.subnets| { FreeKeeps(e.sent, e.nets, e.used, net, i); } else { ForgetKeeps(e.sent, e.nets, e.used, net); }
    case _ =>
  }

  lemma AcceptKeeps(e: Events, received: nat, a: Act)
    requires EventInv(e, received) && e.pc == Listening
    ensures EventInv(Accept(e, a), received) && Accept(e, a).sent == e.sent
  {
    match a
    case NetworkCreate(_, _) => assert OctetsOf([]) == {};
    case NetworkDestroy(id) =>
      AliveDisjoint(e.sent);
      if id in e.nets { assert OctetsOf(e.nets[id].subnets[..0]) == {}; }
    case _ =>
  }

  lemma NextSubnet(net: NetworkInfo, i: nat)
    requires i < |net.subnets|
    ensures net.subnets[..i + 1] == net.subnets[..i] + [net.subnets[i]]
    ensures RulesOf(net.subnets[..i + 1]) == RulesOf(net.subnets[..i]) + {RuleOf(net.subnets[i])}
  {
    assert net.subnets[..i + 1] == net.subnets[..i] + [net.subnets[i]];
  }

  /** What a message received after a well formed history looks like to main. */
  ghost predicate Received(got: seq<NetworkInfo>, mn: MainPc) {
    WellLogged(got) && (mn.Installing? || mn.Removing?) && got != [] && got[|got| - 1] == mn.net
  }

  /** The subnets of a network being torn down were alive until its message, and so is every one of them IPv4. */
  lemma RemovedWereAlive(got: seq<NetworkInfo>, rules: set<Rule>, mn: MainPc)
    requires Received(got, mn) && mn.Removing? && RuleOk(got, rules, mn)
    ensures var before := got[..|got| - 1];
            && WellLogged(before) && mn.net.id in Alive(before)
            && Alive(before)[mn.net.id].subnets == mn.net.subnets && WellMade(mn.net.subnets)
            && forall s | s in mn.net.subnets :: ParseCidr(s.docker).Some?
  {
    AliveIPv4(got[..|got| - 1], mn.net.id);
  }

  /** The rule a teardown is about to delete is there: Delete never fails and never cuts the loop short. */
  lemma DeleteFindsRule(got: seq<NetworkInfo>, rules: set<Rule>, mn: MainPc)
    requires Received(got, mn) && mn.Removing? && RuleOk(got, rules, mn) && mn.i < |mn.net.subnets|
    ensures RuleOf(mn.net.subnets[mn.i]) in rules
  {
    var before := got[..|got| - 1];
    RemovedWereAlive(got, rules, mn);
    var r := RuleOf(mn.net.subnets[mn.i]);
    assert mn.net.subnets[mn.i] in Alive(before)[mn.net.id].subnets;
    assert r in OwnedRules(Alive(before));
    AppliedRules(before);
    RuleNamesOctet(mn.net.subnets[mn.i]);
    forall s | s in mn.net.subnets[..mn.i] ensures RuleOf(s) != r {
      RuleNamesOctet(s);
    }
  }

  lemma InstallKeeps(before: seq<NetworkInfo>, net: NetworkInfo, i: nat, rules: set<Rule>)
    requires Midway(before, net, i, rules, true) && i < |net.subnets| && ParseCidr(net.subnets[i].docker).Some?
    ensures Midway(before, net, i + 1, rules + {RuleOf(net.subnets[i])}, true)
  {
    hide Rewrite, Applied, ParseCidr;
    NextSubnet(net, i);
  }

  lemma RemoveKeeps(before: seq<NetworkInfo>, net: NetworkInfo, i: nat, rules: set<Rule>)
    requires Midway(before, net, i, rules, false) && i < |net.subnets|
    ensures Midway(before, net, i + 1, rules - {RuleOf(net.subnets[i])}, false)
  {
    hide Rewrite, Applied, ParseCidr;
    NextSubnet(net, i);
  }

  lemma HandlerEnds(got: seq<NetworkInfo>, rules: set<Rule>, mn: MainPc)
    requires Received(got, mn) && RuleOk(got, rules, mn) && mn.i == |mn.net.subnets|
    ensures RuleOk(got, rules, Selecting)
  {
    assert mn.net.subnets[..mn.i] == mn.net.subnets;
    if mn.Removing? { RemovedWereAlive(got, rules, mn); }
    forall m, s | m in got && s in m.subnets ensures ParseCidr(s.docker).Some? {
      assert m in got[..|got| - 1] || m == mn.net;
    }
  }

  lemma NetworkMoveKeeps(sent: seq<NetworkInfo>, m: Main, ok: bool)
    requires WellLogged(sent) && RuleInv(sent, m) && (m.pc.Installing? || m.pc.Removing?) && NetworkMove(m, ok).Some?
    ensures RuleInv(sent, NetworkMove(m, ok).value) && NetworkMove(m, ok).value.received == m.received
  {
    hide Rewrite, Applied, WellLogged, ParseCidr, Alive, Marked;
    var got := sent[..m.received];
    WellLoggedPrefix(sent, m.received);
    if m.pc.i == |m.pc.net.subnets| {
      HandlerEnds(got, m.rules, m.pc);
    } else if m.pc.Installing? {
      InstallKeeps(got[..|got| - 1], m.pc.net, m.pc.i, m.rules);
    } else {
      DeleteFindsRule(got, m.rules, m.pc);
      RemoveKeeps(got[..|got| - 1], m.pc.net, m.pc.i, m.rules);
    }
  }

  lemma TakeKeeps(sent: seq<NetworkInfo>, m: Main, net: NetworkInfo)
    requires m.received < |sent| && sent[m.received] == net && RuleInv(sent, m) && m.pc == Selecting
    ensures RuleInv(sent, Take(m, SendingNetwork(net)))
  {
    var m' := Take(m, SendingNetwork(net));
    var got := sent[..m'.received];
    assert got[..|got| - 1] == sent[..m.received];
    assert net.subnets[..0] == [];
    assert RulesOf([]) == {};
  }

  lemma ContainerMoveKeeps(sent: seq<NetworkInfo>, m: Main, pids: map<string, seq<nat>>, ok: bool)
    requires RuleInv(sent, m) && m.pc != Selecting && !m.pc.Installing? && !m.pc.Removing? && ContainerMove(m, pids, ok).Some?
    ensures RuleInv(sent, ContainerMove(m, pids, ok).value.0) && ContainerMove(m, pids, ok).value.0.received == m.received
  {
    hide Applied, ParseCidr, Requests;
  }

  lemma LongerLog(sent: seq<NetworkInfo>, more: seq<NetworkInfo>, m: Main)
    requires RuleInv(sent, m) && sent <= more
    ensures RuleInv(more, m)
  {
    assert more[..m.received] == sent[..m.received];
  }

  lemma InvKept(w: World, a: Act)
    requires Inv(w)
    ensures Inv(Step(w, a))
  {
    hide EventOk, RuleOk, ContainerMove, NetworkMove;
    var sent, received := w.ev.sent, w.mn.received;
    assert WellLogged(sent) by { Facts(w); }
    if w.down {
    } else if a == EventStep {
      if EventMove(w.ev).Some? {
        EventMoveKeeps(w.ev, received);
        LongerLog(sent, EventMove(w.ev).value.sent, w.mn);
      }
    } else if a.MainStep? {
      if w.mn.pc.Installing? || w.mn.pc.Removing? {
        if NetworkMove(w.mn, a.ok).Some? { NetworkMoveKeeps(sent, w.mn, a.ok); }
      } else if w.mn.pc != Selecting {
        if ContainerMove(w.mn, w.pids, a.ok).Some? { ContainerMoveKeeps(sent, w.mn, w.pids, a.ok); }
      }
    } else if a == Deliver {
      if w.mn.pc == Selecting { DeliverKeeps(w); }
    } else if a != Exit {
      if w.ev.pc == Listening { AcceptKeeps(w.ev, received, a); }
    }
  }

  lemma Facts(w: World)
    requires Inv(w)
    ensures WellLogged(w.ev.sent)
  {
  }

  lemma DeliverKeeps(w: World)
    requires Inv(w) && w.mn.pc == Selecting
    ensures Inv(StepDeliver(w))
  {
    if w.ev.pc.SendingNetwork? {
      TakeKeeps(w.ev.sent, w.mn, w.ev.pc.net);
    }
  }

  /** The invariant holds in every reachable state. */
  lemma {:induction false} AlwaysInv(acts: seq<Act>)
    ensures Inv(Exec(acts))
  {
    if acts != [] {
      AlwaysInv(acts[..|acts| - 1]);
      InvKept(Exec(acts[..|acts| - 1]), acts[|acts| - 1]);
    }
  }

  // ---------- identifiers used twice ----------

  /** An octet that is taken although no living network owns it. */
  ghost predicate Leaked(msgs: seq<NetworkInfo>, o: nat) {
    o in Marked(msgs) && o !in OwnedOctets(Alive(msgs))
  }

  lemma OctetOwned(nets: map<string, NetworkInfo>, id: string, t: Subnet)
    requires id in nets && t in nets[id].subnets
    ensures t.octet in OwnedOctets(nets) && t.octet in OctetsOf(nets[id].subnets) && RuleOf(t) in OwnedRules(nets)
  {
  }

  /** What an overwritten network leaves behind: an octet, and the rule that names it. */
  lemma {:induction false} ShadowLeaks(msgs: seq<NetworkInfo>) returns (s: Subnet)
    requires WellLogged(msgs) && !Unshadowed(msgs)
    ensures Leaked(msgs, s.octet)
    ensures AllIPv4(msgs) ==> RuleOf(s) in Applied(msgs) && SecondOctet(RuleOf(s).target) == Some(s.octet)
  {
    var before, m := msgs[..|msgs| - 1], msgs[|msgs| - 1];
    assert msgs == before + [m] && (AllIPv4(msgs) ==> AllIPv4(before));
    if Unshadowed(before) {
      s := Alive(before)[m.id].subnets[0];
      JustShadowed(before, m, s);
    } else {
      s := ShadowLeaks(before);
      StaysLeaked(before, m, s);
    }
  }

  lemma JustShadowed(before: seq<NetworkInfo>, m: NetworkInfo, s: Subnet)
    requires WellLogged(before + [m]) && WellLogged(before)
    requires m.action == Create && m.id in Alive(before) && s in Alive(before)[m.id].subnets
    ensures Leaked(before + [m], s.octet)
    ensures AllIPv4(before) ==> RuleOf(s) in Applied(before + [m]) && SecondOctet(RuleOf(s).target) == Some(s.octet)
  {
    assert (before + [m])[..|before|] == before;
    AliveDisjoint(before);
    var nets := Alive(before);
    OctetOwned(nets, m.id, s);
    if AllIPv4(before) {
      AppliedRules(before);
      AliveIPv4(before, m.id);
      RuleNamesOctet(s);
    }
    hide WellLogged, Applied, Marked;
    var more := nets[m.id := m];
    forall id, t | id in more && t in more[id].subnets ensures t.octet != s.octet { OctetOwned(more, id, t); }
  }

  lemma StaysLeaked(before: seq<NetworkInfo>, m: NetworkInfo, s: Subnet)
    requires WellLogged(before + [m]) && WellLogged(before) && Leaked(before, s.octet)
    ensures Leaked(before + [m], s.octet)
    ensures AllIPv4(before) && RuleOf(s) in Applied(before) && SecondOctet(RuleOf(s).target) == Some(s.octet) ==> RuleOf(s) in Applied(before + [m])
  {
    assert (before + [m])[..|before|] == before;
    var nets := Alive(before);
    var more := nets[m.id := m];
    if m.action == Create {
      forall id, t | id in more && t in more[id].subnets ensures t.octet != s.octet {
        if id == m.id { OctetOwned(more, id, t); } else { OctetOwned(nets, id, t); }
      }
    } else {
      AliveDisjoint(before);
      forall t | t in m.subnets ensures t.octet != s.octet { OctetOwned(nets, m.id, t); }
      if AllIPv4(before) {
        AliveIPv4(before, m.id);
        forall t | t in m.subnets ensures SecondOctet(RuleOf(t).target) == Some(t.octet) { RuleNamesOctet(t); }
      }
    }
  }

  /** The octets taken are exactly those of the living networks, and the rules left exactly theirs, if and only if no living
      network with subnets was ever overwritten by another of its identifier. */
  lemma NothingLeaksIff(msgs: seq<NetworkInfo>)
    requires WellLogged(msgs)
    ensures Marked(msgs) == OwnedOctets(Alive(msgs)) <==> Unshadowed(msgs)
    ensures AllIPv4(msgs) ==> (Applied(msgs) == OwnedRules(Alive(msgs)) <==> Unshadowed(msgs))
  {
    MarkedIsOwned(msgs);
    if AllIPv4(msgs) { AppliedRules(msgs); }
    if !Unshadowed(msgs) {
      var s := ShadowLeaks(msgs);
      AliveDisjoint(msgs);
      hide WellLogged, Applied, Marked, Unshadowed;
      if AllIPv4(msgs) {
        forall id, t | id in Alive(msgs) && t in Alive(msgs)[id].subnets ensures RuleOf(t) != RuleOf(s) {
          AliveIPv4(msgs, id);
          RuleNamesOctet(t);
          OctetOwned(Alive(msgs), id, t);
        }
      }
    }
  }

  // ---------- the theorems ----------

  /** In every interleaving, inside half-finished rule loops too, no two installed rules name the same second octet,
      although a destroy frees its octets before main has deleted the rules. */
  lemma DistinctOctets(acts: seq<Act>)
    ensures forall r | r in Exec(acts).mn.rules :: SecondOctet(r.target).Some?
    ensures forall r, q | r in Exec(acts).mn.rules && q in Exec(acts).mn.rules && r != q :: SecondOctet(r.target) != SecondOctet(q.target)
  {
    AlwaysInv(acts);
    var w := Exec(acts);
    var got := w.ev.sent[..w.mn.received];
    WellLoggedPrefix(w.ev.sent, w.mn.received);
    if w.mn.pc.Installing? {
      var before := got[..|got| - 1];
      AppliedRules(before);
      var part := w.mn.pc.net.subnets[..w.mn.pc.i];
      forall s | s in part ensures SecondOctet(RuleOf(s).target) == Some(s.octet) { RuleNamesOctet(s); }
      RulesOfOnePerOctet(part);
      assert OctetsOf(part) <= OctetsOf(w.mn.pc.net.subnets);
      UnionOnePerOctet(Applied(before), Marked(before), RulesOf(part), OctetsOf(part));
    } else if w.mn.pc.Removing? {
      AppliedRules(got[..|got| - 1]);
    } else {
      AppliedRules(got);
    }
  }

  /** Whenever main is between messages, the cache is ahead of the messages received by at most the one message the event
      goroutine is blocked on, and the rules are those of the networks alive after the messages received if and only if
      no create among them took the identifier of a living network that has subnets. */
  lemma RulesMatchReceived(acts: seq<Act>)
    requires !Exec(acts).mn.pc.Installing? && !Exec(acts).mn.pc.Removing?
    ensures var w := Exec(acts);
            && w.mn.received <= |w.ev.sent| <= w.mn.received + 1
            && (|w.ev.sent| == w.mn.received + 1 ==> w.ev.pc == SendingNetwork(w.ev.sent[w.mn.received]))
            && w.ev.nets == Alive(w.ev.sent)
            && (w.mn.rules == OwnedRules(Alive(w.ev.sent[..w.mn.received])) <==> Unshadowed(w.ev.sent[..w.mn.received]))
  {
    AlwaysInv(acts);
    var w := Exec(acts);
    WellLoggedPrefix(w.ev.sent, w.mn.received);
    NothingLeaksIff(w.ev.sent[..w.mn.received]);
  }

  lemma InstalledAreNew(got: seq<NetworkInfo>, rules: set<Rule>, mn: MainPc)
    requires Received(got, mn) && mn.Installing? && RuleOk(got, rules, mn)
    ensures Applied(got[..|got| - 1]) !! RulesOf(mn.net.subnets[..mn.i])
  {
    var before := got[..|got| - 1];
    AppliedRules(before);
    forall s | s in mn.net.subnets[..mn.i] ensures RuleOf(s) !in Applied(before) {
      RuleNamesOctet(s);
      assert s.octet in OctetsOf(mn.net.subnets);
    }
  }

  lemma RemovedAreThere(got: seq<NetworkInfo>, rules: set<Rule>, mn: MainPc)
    requires Received(got, mn) && mn.Removing? && RuleOk(got, rules, mn)
    ensures RulesOf(mn.net.subnets[..mn.i]) <= Applied(got[..|got| - 1])
  {
    var before := got[..|got| - 1];
    AppliedRules(before);
    RemovedWereAlive(got, rules, mn);
    hide WellLogged, Applied;
    forall s | s in mn.net.subnets ensures RuleOf(s) in Applied(before) {
      assert RuleOf(s) in OwnedRules(Alive(before));
    }
  }

  /** While main works on a message, exactly the rules of the subnets it has passed are added to, or gone from, what the
      messages before left; the rule next to be installed is new and the rule next to be deleted is there. */
  lemma RulesInsideHandler(acts: seq<Act>)
    requires Exec(acts).mn.pc.Installing? || Exec(acts).mn.pc.Removing?
    ensures var w := Exec(acts);
            && 0 < w.mn.received <= |w.ev.sent| && w.ev.sent[w.mn.received - 1] == w.mn.pc.net && w.mn.pc.i <= |w.mn.pc.net.subnets|
            && var before := Applied(w.ev.sent[..w.mn.received - 1]);
               var passed := RulesOf(w.mn.pc.net.subnets[..w.mn.pc.i]);
               && (w.mn.pc.Installing? ==> w.mn.rules == before + passed && before !! passed)
               && (w.mn.pc.Removing? ==> w.mn.rules == before - passed && passed <= before)
               && (w.mn.pc.Removing? && w.mn.pc.i < |w.mn.pc.net.subnets| ==> RuleOf(w.mn.pc.net.subnets[w.mn.pc.i]) in w.mn.rules)
  {
    AlwaysInv(acts);
    hide Exec, WellLogged, Applied, Alive, Marked;
    var w := Exec(acts);
    var got := w.ev.sent[..w.mn.received];
    WellLoggedPrefix(w.ev.sent, w.mn.received);
    assert got[..|got| - 1] == w.ev.sent[..w.mn.received - 1];
    if w.mn.pc.Installing? {
      InstalledAreNew(got, w.mn.rules, w.mn.pc);
    } else {
      RemovedAreThere(got, w.mn.rules, w.mn.pc);
      if w.mn.pc.i < |w.mn.pc.net.subnets| { DeleteFindsRule(got, w.mn.rules, w.mn.pc); }
    }
  }

  /** The octets marked while the event goroutine is at pc: those owned, with the ones its handler has gained or given up. */
  function MarkedAt(pc: EventPc, owned: set<nat>): set<nat> {
    match pc
    case Marking(_, _, subnets) => owned + OctetsOf(subnets)
    case Freeing(net, i) => owned - OctetsOf(net.subnets[..if i <= |net.subnets| then i else 0])
    case _ => owned
  }

  /** The allocator conserves octets over every run: cached networks own pairwise disjoint octets of 1..255, all marked unless
      being freed; and nothing else is marked if no create took the identifier of a living network that has subnets, and
      between handlers only then. */
  lemma OctetsConserved(acts: seq<Act>)
    ensures var w := Exec(acts);
            && (forall x, y | x in w.ev.nets && y in w.ev.nets && x != y ::
                  OctetsOf(w.ev.nets[x].subnets) !! OctetsOf(w.ev.nets[y].subnets))
            && (forall o | o in OwnedOctets(w.ev.nets) :: 1 <= o <= 255)
            && MarkedAt(w.ev.pc, OwnedOctets(w.ev.nets)) <= w.ev.used
            && (Unshadowed(w.ev.sent) ==> w.ev.used == MarkedAt(w.ev.pc, OwnedOctets(w.ev.nets)))
            && (!w.ev.pc.Marking? && !w.ev.pc.Freeing? ==> (w.ev.used == OwnedOctets(w.ev.nets) <==> Unshadowed(w.ev.sent)))
  {
    AlwaysInv(acts);
    AliveDisjoint(Exec(acts).ev.sent);
    MarkedIsOwned(Exec(acts).ev.sent);
    NothingLeaksIff(Exec(acts).ev.sent);
  }

  /** The next allocation takes the least octet no cached network and no earlier subnet of the same network owns, and
      the process dies exactly when all 255 are marked. */
  lemma AllocationIsLeast(acts: seq<Act>)
    requires var w := Exec(acts); !w.down && w.ev.pc.Marking? && w.ev.pc.todo != []
    ensures var w := Exec(acts);
            var w' := Step(w, EventStep);
            && (w'.down <==> forall o: nat | 1 <= o <= 255 :: o in w.ev.used)
            && (!w'.down ==>
                  exists o :: 1 <= o <= 255 && o !in w.ev.used && (forall i | 1 <= i < o :: i in w.ev.used)
                              && w'.ev.used == w.ev.used + {o} && w'.ev.pc.Marking?
                              && w'.ev.pc.subnets == w.ev.pc.subnets + [MakeSubnet(w.ev.pc.todo[0], o)])
  {
    hide Exec, MakeSubnet;
    var w := Exec(acts);
    ExhaustedIff(w.ev.used);
    var o := LeastFree(w.ev.used);
    if o < 256 {
      assert Step(w, EventStep).ev.used == w.ev.used + {o};
    }
  }
}
