/** Nothing that was accepted stays undone: every pending message can be received, every handler ends, and what an event asked
    for is in place when they have. */
module Draining {
  import opened Wrappers
  import opened Dotted
  import opened DindTypes
  import opened Forwarder
  import opened Networks
  import opened Proxies
  import opened Collisions
  import opened Delivery

  // ---------- the rendezvous ----------

  /** In every reachable state with main at its select, a message the event goroutine is blocked on is received: the goroutine
      goes on, and main is at the start of that message's handler. */
  lemma PendingIsReceived(acts: seq<Act>)
    requires var w := Exec(acts); !w.down && w.mn.pc == Selecting && (w.ev.pc.SendingNetwork? || w.ev.pc.SendingContainer?)
    ensures var w, w' := Exec(acts), Step(Exec(acts), Deliver);
            && !w'.down && w'.ev == w.ev.(pc := Listening) && w'.pids == w.pids && w'.lost == w.lost
            && w'.mn.rules == w.mn.rules && w'.mn.live == w.mn.live && w'.mn.spawned == w.mn.spawned && w'.mn.killed == w.mn.killed
            && (w.ev.pc.SendingNetwork? ==>
                  && w'.mn.received == w.mn.received + 1 && w'.mn.creceived == w.mn.creceived
                  && (w.ev.pc.net.action == Create || w.ev.pc.net.action == Destroy)
                  && (w.ev.pc.net.action == Create ==> w'.mn.pc == Installing(w.ev.pc.net, 0))
                  && (w.ev.pc.net.action == Destroy ==> w'.mn.pc == Removing(w.ev.pc.net, 0)))
            && (w.ev.pc.SendingContainer? ==>
                  && w'.mn.creceived == w.mn.creceived + 1 && w'.mn.received == w.mn.received
                  && (w.ev.pc.container.action == Start || w.ev.pc.container.action == Stop)
                  && (w.ev.pc.container.action == Start ==> w'.mn.pc == Spawning(w.ev.pc.container, 0))
                  && (w.ev.pc.container.action == Stop ==> w'.mn.pc == Reading(w.ev.pc.container)))
  {
    AlwaysInv(acts);
    AlwaysActions(acts);
  }

  /** Messages say what their kind can say. */
  predicate ProperPc(pc: EventPc) {
    && (pc.SendingNetwork? ==> pc.net.action == Create || pc.net.action == Destroy)
    && (pc.SendingContainer? ==> pc.container.action == Start || pc.container.action == Stop)
  }

  lemma {:induction false} AlwaysActions(acts: seq<Act>)
    ensures ProperPc(Exec(acts).ev.pc)
  {
    if acts != [] {
      AlwaysActions(acts[..|acts| - 1]);
      ActionsKept(Exec(acts[..|acts| - 1]), acts[|acts| - 1]);
    }
  }

  lemma ActionsKept(w: World, a: Act)
    requires ProperPc(w.ev.pc)
    ensures ProperPc(Step(w, a).ev.pc)
  {
    hide ProxyIps, MakeSubnet, NetworkMove, ContainerMove, Overwritten;
  }

  // ---------- every handler ends ----------

  /** A step either process can take by itself, all outside calls succeeding. */
  predicate Internal(a: Act) {
    a == EventStep || a == Deliver || a == MainStep(true)
  }

  predicate AllInternal(acts: seq<Act>) {
    forall a | a in acts :: Internal(a)
  }

  /** While main is in a handler, each statement brings it nearer to its select, or ends the process. */
  lemma MainAdvances(w: World)
    requires !w.down && w.mn.pc != Selecting
    ensures var w' := Step(w, MainStep(true)); w'.down || (Ahead(w'.mn.pc, w'.pids) < Ahead(w.mn.pc, w.pids) && w'.ev == w.ev)
    ensures var w' := Step(w, MainStep(true)); w.mn.pc.Removing? ==> !w'.down && (w'.mn.pc.Removing? || w'.mn.pc == Selecting)
  {
    hide Requests, ParseCidr;
  }

  lemma EventsAdvance(w: World)
    requires !w.down && (w.ev.pc.Marking? || w.ev.pc.Freeing?)
    ensures var w' := Step(w, EventStep);
            w'.down || (EventsAhead(w'.ev.pc) < EventsAhead(w.ev.pc) && w'.mn == w.mn && w'.pids == w.pids)
    ensures var w' := Step(w, EventStep);
            w.ev.pc.Freeing? ==> !w'.down && (w'.ev.pc.Freeing? || (w'.ev.pc.SendingNetwork? && w'.ev.pc.net.action == Destroy))
  {
    hide MakeSubnet;
  }

  lemma {:induction false} MainFinishes(acts: seq<Act>) returns (more: seq<Act>)
    ensures AllInternal(more)
    ensures var w := Exec(acts + more); w.down || (!Exec(acts).down && w.mn.pc == Selecting && w.ev == Exec(acts).ev)
    ensures !Exec(acts).down && (Exec(acts).mn.pc.Removing? || Exec(acts).mn.pc == Selecting) ==> !Exec(acts + more).down
    decreases Ahead(Exec(acts).mn.pc, Exec(acts).pids)
  {
    var w := Exec(acts);
    if w.down || w.mn.pc == Selecting {
      more := [];
      assert acts + more == acts;
    } else {
      MainAdvances(w);
      var next := Then(acts, MainStep(true));
      hide Exec, Step;
      if Exec(next).down {
        more := [MainStep(true)];
      } else {
        var rest := MainFinishes(next);
        more := [MainStep(true)] + rest;
        assert acts + more == next + rest;
      }
    }
  }

  lemma {:induction false} EventsFinish(acts: seq<Act>) returns (more: seq<Act>)
    ensures AllInternal(more)
    ensures var w := Exec(acts + more);
            w.down || (!Exec(acts).down && !w.ev.pc.Marking? && !w.ev.pc.Freeing? && w.mn == Exec(acts).mn)
    ensures var w := Exec(acts + more);
            !Exec(acts).down && Exec(acts).ev.pc.Freeing? ==> !w.down && w.ev.pc.SendingNetwork? && w.ev.pc.net.action == Destroy
    ensures !Exec(acts).down && !Exec(acts).ev.pc.Marking? && !Exec(acts).ev.pc.Freeing? ==> more == []
    decreases EventsAhead(Exec(acts).ev.pc)
  {
    var w := Exec(acts);
    if w.down || (!w.ev.pc.Marking? && !w.ev.pc.Freeing?) {
      more := [];
      assert acts + more == acts;
    } else {
      EventsAdvance(w);
      var next := Then(acts, EventStep);
      hide Exec, Step;
      if Exec(next).down {
        more := [EventStep];
      } else {
        var rest := EventsFinish(next);
        more := [EventStep] + rest;
        assert acts + more == next + rest;
      }
    }
  }

  /** Nothing is pending: both processes wait for the outside. */
  predicate AtRest(w: World) {
    w.mn.pc == Selecting && (w.ev.pc == Listening || w.ev.pc == Finished)
  }

  lemma Joined(a: seq<Act>, b: seq<Act>)
    requires AllInternal(a) && AllInternal(b)
    ensures AllInternal(a + b)
  {
  }

  lemma ReceiveAndFinish(acts: seq<Act>) returns (more: seq<Act>)
    requires var w := Exec(acts); !w.down && w.mn.pc == Selecting && (w.ev.pc.SendingNetwork? || w.ev.pc.SendingContainer?)
    ensures AllInternal(more) && (Exec(acts + more).down || AtRest(Exec(acts + more)))
    ensures Exec(acts).ev.pc.SendingNetwork? && Exec(acts).ev.pc.net.action == Destroy ==> !Exec(acts + more).down
  {
    hide Exec, Step;
    PendingIsReceived(acts);
    var next := Then(acts, Deliver);
    var last := MainFinishes(next);
    more := [Deliver] + last;
    assert next + last == acts + more;
  }

  /** From every reachable state the processes come to rest by their own steps, or the process ends: no send blocks for good.
      It does not end over a network being destroyed. */
  lemma Drains(acts: seq<Act>) returns (more: seq<Act>)
    ensures AllInternal(more) && (Exec(acts + more).down || AtRest(Exec(acts + more)))
    ensures var w := Exec(acts); !w.down && w.mn.pc == Selecting && w.ev.pc.Freeing? ==> !Exec(acts + more).down
  {
    hide Exec, Step;
    var main := MainFinishes(acts);
    var events := EventsFinish(acts + main);
    Joined(main, events);
    more := main + events;
    assert acts + main + events == acts + more;
    var w := Exec(acts + more);
    if !w.down && (w.ev.pc.SendingNetwork? || w.ev.pc.SendingContainer?) {
      var last := ReceiveAndFinish(acts + more);
      Joined(more, last);
      assert acts + more + last == acts + (more + last);
      more := more + last;
    }
  }

  /** End of events, or of dockerd: main leaves its loop once it is back at its select. */
  lemma EofEnds(acts: seq<Act>)
    requires var w := Exec(acts); w.ev.pc == Listening && w.mn.pc == Selecting
    ensures Step(Step(Exec(acts), Eof), Deliver).down && Step(Exec(acts), Exit).down
  {
  }

  /** A failing call panics: an iptables append that fails, a proxy that does not start. */
  lemma FailureEnds(w: World)
    requires (w.mn.pc.Installing? && w.mn.pc.i < |w.mn.pc.net.subnets|) || (w.mn.pc.Spawning? && w.mn.pc.k < |Requests(w.mn.pc.container)|)
    ensures Step(w, MainStep(false)).down
  {
    hide Requests;
  }

  // ---------- what is in place at rest ----------

  /** At rest in an orderly run the rules are exactly those of the cached networks, and main serves exactly the cached
      containers. */
  lemma RestIsExact(acts: seq<Act>)
    requires OrderlyRun(acts) && AtRest(Exec(acts))
    ensures var w := Exec(acts); w.mn.rules == OwnedRules(w.ev.nets) && Served(w) == w.ev.conts
  {
    OrderlyUnshadowed(acts);
    RulesMatchReceived(acts);
    AlwaysInv(acts);
    AlwaysStream(acts);
    var w := Exec(acts);
    assert w.ev.sent[..w.mn.received] == w.ev.sent;
    assert w.ev.csent[..w.mn.creceived] == w.ev.csent;
  }

  lemma {:induction false} InternalIsOrderly(acts: seq<Act>, more: seq<Act>)
    requires OrderlyRun(acts) && AllInternal(more)
    ensures OrderlyRun(acts + more)
  {
    hide Exec;
    if more == [] {
      assert acts + more == acts;
    } else {
      var front, a := more[..|more| - 1], more[|more| - 1];
      assert a in more;
      OrderlyStep(Exec(acts + front), a);
      hide Orderly;
      InternalIsOrderly(acts, front);
      assert (acts + more)[..|acts + more| - 1] == acts + front;
    }
  }

  lemma OrderlyStep(w: World, a: Act)
    requires Internal(a)
    ensures Orderly(w, a)
  {
  }

  /** The network of this identifier is being forgotten, or is gone, and no other network has come. */
  predicate Going(e: Events, nets: map<string, NetworkInfo>, id: string) {
    && !e.pc.Marking?
    && (id !in e.nets || (e.pc.Freeing? && e.pc.net.id == id))
    && (forall n | n in e.nets :: n in nets && e.nets[n] == nets[n])
  }

  lemma GoingStep(w: World, a: Act, nets: map<string, NetworkInfo>, id: string)
    requires Internal(a) && Going(w.ev, nets, id)
    ensures Going(Step(w, a).ev, nets, id)
  {
    hide ContainerMove, NetworkMove, MakeSubnet;
  }

  lemma {:induction false} GoingOn(acts: seq<Act>, more: seq<Act>, nets: map<string, NetworkInfo>, id: string)
    requires AllInternal(more) && Going(Exec(acts).ev, nets, id)
    ensures Going(Exec(acts + more).ev, nets, id)
  {
    if more == [] {
      assert acts + more == acts;
    } else {
      var front, a := more[..|more| - 1], more[|more| - 1];
      assert forall b | b in front :: b in more;
      GoingOn(acts, front, nets, id);
      assert (acts + more)[..|acts + more| - 1] == acts + front;
      assert a in more;
      GoingStep(Exec(acts + front), a, nets, id);
    }
  }

  /** A network that docker reports destroyed on an orderly run: the processes come to rest (unless main was in a handler that
      panics), and then it is not cached and none of its rules is left. */
  lemma DestroyedIsGone(acts: seq<Act>, id: string) returns (more: seq<Act>)
    requires OrderlyRun(acts + [NetworkDestroy(id)]) && OrderlyRun(acts)
    requires var w := Exec(acts); !w.down && w.ev.pc == Listening && id in w.ev.nets
    ensures AllInternal(more)
    ensures var w, w' := Exec(acts), Exec(acts + [NetworkDestroy(id)] + more);
            && (w'.down || (AtRest(w') && id !in w'.ev.nets && forall s | s in w.ev.nets[id].subnets :: RuleOf(s) !in w'.mn.rules))
            && (w.mn.pc == Selecting ==> !w'.down)
  {
    var w := Exec(acts);
    AlwaysInv(acts);
    AliveDisjoint(w.ev.sent);
    OrderlyIPv4(acts);
    var next := Then(acts, NetworkDestroy(id));
    more := Drains(next);
    GoingOn(next, more, w.ev.nets, id);
    InternalIsOrderly(next, more);
    var end := Exec(next + more);
    if !end.down {
      RestIsExact(next + more);
      hide *;
      NoRuleLeft(w.ev.nets, Marked(w.ev.sent), end.ev.nets, id);
    }
  }

  /** Disjoint octets: without a network none of the rules of the others is one of its own. */
  lemma NoRuleLeft(nets: map<string, NetworkInfo>, marked: set<nat>, left: map<string, NetworkInfo>, id: string)
    requires Disjoint(nets, marked) && id in nets && id !in left && forall n | n in left :: n in nets && left[n] == nets[n]
    requires forall n, s | n in nets && s in nets[n].subnets :: ParseCidr(s.docker).Some?
    ensures forall s | s in nets[id].subnets :: RuleOf(s) !in OwnedRules(left)
  {
    hide ParseCidr, MakeSubnet;
    forall s | s in nets[id].subnets ensures RuleOf(s) !in OwnedRules(left) {
      forall n, t | n in left && t in left[n].subnets ensures RuleOf(t) != RuleOf(s) {
        RuleNamesOctet(s);
        RuleNamesOctet(t);
        assert s.octet in OctetsOf(nets[id].subnets) && t.octet in OctetsOf(nets[n].subnets);
      }
    }
  }

  lemma OrderlyIPv4(acts: seq<Act>)
    requires OrderlyRun(acts)
    ensures forall n, s | n in Exec(acts).ev.nets && s in Exec(acts).ev.nets[n].subnets :: ParseCidr(s.docker).Some?
  {
    OrderlyKeeps(acts);
    var nets := Exec(acts).ev.nets;
    hide Exec, OrderlyRun, ParseCidr;
    forall n, s | n in nets && s in nets[n].subnets ensures ParseCidr(s.docker).Some? {
      var i :| 0 <= i < |nets[n].subnets| && nets[n].subnets[i] == s;
      assert DockerSubnets(nets[n].subnets)[i] in DockerSubnets(nets[n].subnets);
    }
  }
}
