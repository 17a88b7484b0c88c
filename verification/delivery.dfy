/** What the forwarder is for: traffic to a running container finds a rule and a proxy. */
module Delivery {
  import opened Dotted
  import opened DindTypes
  import opened Forwarder
  import opened Networks
  import opened Proxies
  import opened Collisions

  // ---------- every request has its proxy ----------

  ghost predicate HasProxy(live: map<nat, Proxy>, c: ContainerInfo, id: string, k: nat)
    requires k < |Requests(c)|
  {
    exists p :: p in live && live[p] == Proxy(id, k, Requests(c)[k])
  }

  /** How many of the requests of container id main has already started. */
  function Started(pc: MainPc, c: ContainerInfo, id: string): nat {
    if pc.Spawning? && pc.container.id == id then pc.k
    else if pc.Recording? && pc.container.id == id then pc.k + 1
    else |Requests(c)|
  }

  ghost predicate Present(live: map<nat, Proxy>, served: map<string, ContainerInfo>, pc: MainPc) {
    forall id, k | id in served && 0 <= k < |Requests(served[id])| && k < Started(pc, served[id], id) :: HasProxy(live, served[id], id, k)
  }

  lemma PresentSpawn(m: Main, served: map<string, ContainerInfo>, pids: map<string, seq<nat>>, ok: bool)
    requires Present(m.live, served, m.pc) && m.pc.Spawning? && ContainerMove(m, pids, ok).Some? && |m.spawned| !in m.live
    requires m.pc.container.id in served && served[m.pc.container.id] == m.pc.container
    ensures var m' := ContainerMove(m, pids, ok).value.0; Present(m'.live, served, m'.pc)
  {
    hide Requests;
    var m' := ContainerMove(m, pids, ok).value.0;
    forall id, k | id in served && 0 <= k < |Requests(served[id])| && k < Started(m'.pc, served[id], id)
      ensures HasProxy(m'.live, served[id], id, k)
    {
      if id == m.pc.container.id && k == m.pc.k {
        assert m'.live[|m.spawned|] == Proxy(id, k, Requests(served[id])[k]);
      } else {
        assert HasProxy(m.live, served[id], id, k);
        var p :| p in m.live && m.live[p] == Proxy(id, k, Requests(served[id])[k]);
        assert p in m'.live && m'.live[p] == m.live[p];
      }
    }
  }

  /** Killing a proxy takes none from the containers still served. */
  lemma PresentKill(m: Main, served: map<string, ContainerInfo>, pids: map<string, seq<nat>>, lost: set<nat>)
    requires Present(m.live, served, m.pc) && PidInv(m, pids, lost) && m.pc.Killing? && m.pc.k < |m.pc.list|
    requires m.pc.container.id !in served
    ensures var m' := ContainerMove(m, pids, true).value.0; Present(m'.live, served, m'.pc)
  {
    hide Requests, Tracked, NoDup;
    var m' := ContainerMove(m, pids, true).value.0;
    var dead := m.pc.list[m.pc.k];
    assert dead in m.pc.list[m.pc.k..] && dead in m.pc.list;
    forall id, k | id in served && 0 <= k < |Requests(served[id])| && k < Started(m'.pc, served[id], id)
      ensures HasProxy(m'.live, served[id], id, k)
    {
      assert HasProxy(m.live, served[id], id, k);
      var p :| p in m.live && m.live[p] == Proxy(id, k, Requests(served[id])[k]);
      assert p in m'.live && m'.live[p] == m.live[p];
    }
  }

  lemma PresentHandler(m: Main, served: map<string, ContainerInfo>, pids: map<string, seq<nat>>, lost: set<nat>, ok: bool)
    requires Present(m.live, served, m.pc) && PidInv(m, pids, lost) && Handling(m.pc) && ContainerMove(m, pids, ok).Some?
    requires m.pc.Spawning? || m.pc.Recording? ==> m.pc.container.id in served && served[m.pc.container.id] == m.pc.container
    requires m.pc.Reading? || m.pc.Killing? ==> m.pc.container.id !in served
    ensures var m' := ContainerMove(m, pids, ok).value.0; Present(m'.live, served, m'.pc)
  {
    match m.pc
    case Spawning(_, _) => PresentSpawn(m, served, pids, ok);
    case Killing(_, list, k) => if k < |list| { PresentKill(m, served, pids, lost); }
    case _ => hide Requests, HasProxy, PidInv;
  }

  /** The container main is busy with is served while it is being started and no longer while it is being stopped. */
  lemma BusyServed(w: World)
    requires StreamInv(w) && Handling(w.mn.pc)
    ensures var c := w.mn.pc.container;
            if w.mn.pc.Spawning? || w.mn.pc.Recording? then c.id in Served(w) && Served(w)[c.id] == c else c.id !in Served(w)
  {
    var got := w.ev.csent[..w.mn.creceived];
    assert got[|got| - 1] == w.mn.pc.container;
  }

  lemma PresentMain(w: World, ok: bool)
    requires StreamInv(w) && PidInv(w.mn, w.pids, w.lost) && Present(w.mn.live, Served(w), w.mn.pc)
    ensures Present(StepMain(w, ok).mn.live, Served(StepMain(w, ok)), StepMain(w, ok).mn.pc)
  {
    hide Requests, HasProxy, PidInv, ContainerMove, ParseCidr, Running;
    StreamMain(w, ok);
    SameReceived(w, ok);
    assert Served(StepMain(w, ok)) == Served(w);
    if Handling(w.mn.pc) {
      BusyServed(w);
      if ContainerMove(w.mn, w.pids, ok).Some? { PresentHandler(w.mn, Served(w), w.pids, w.lost, ok); }
    }
  }

  lemma PresentDeliver(w: World)
    requires StreamInv(w) && Present(w.mn.live, Served(w), w.mn.pc) && w.mn.pc == Selecting
    ensures var w' := StepDeliver(w); Present(w'.mn.live, Served(w'), w'.mn.pc)
  {
    hide Requests, HasProxy;
    var w' := StepDeliver(w);
    if w.ev.pc.SendingContainer? {
      var got := w'.ev.csent[..w'.mn.creceived];
      assert got[..|got| - 1] == w.ev.csent[..w.mn.creceived];
    } else {
      assert Served(w') == Served(w);
    }
  }

  lemma PresentKept(w: World, a: Act)
    requires StreamInv(w) && PidInv(w.mn, w.pids, w.lost) && Present(w.mn.live, Served(w), w.mn.pc)
    ensures var w' := Step(w, a); Present(w'.mn.live, Served(w'), w'.mn.pc)
  {
    hide StepDeliver, StepMain, MakeSubnet, ProxyIps, Overwritten, Present, PidInv;
    if w.down {
    } else if a.MainStep? {
      PresentMain(w, a.ok);
    } else if a == Deliver {
      if w.mn.pc == Selecting { PresentDeliver(w); }
    } else {
      var w' := Step(w, a);
      assert w'.mn == w.mn;
      assert w.ev.csent <= w'.ev.csent;
      assert w'.ev.csent[..w.mn.creceived] == w.ev.csent[..w.mn.creceived];
      assert Served(w') == Served(w);
    }
  }

  lemma {:induction false} AlwaysPresent(acts: seq<Act>)
    ensures var w := Exec(acts); Present(w.mn.live, Served(w), w.mn.pc)
  {
    if acts != [] {
      AlwaysPresent(acts[..|acts| - 1]);
      AlwaysStream(acts[..|acts| - 1]);
      AlwaysPids(acts[..|acts| - 1]);
      PresentKept(Exec(acts[..|acts| - 1]), acts[|acts| - 1]);
    }
  }

  /** On a prompt run no request has two proxies. */
  lemma {:induction false} PromptDistinct(acts: seq<Act>)
    requires PromptRun(acts)
    ensures Distinct(Exec(acts))
  {
    if acts != [] {
      var front, a := acts[..|acts| - 1], acts[|acts| - 1];
      PromptDistinct(front);
      AlwaysStream(front);
      AlwaysPids(front);
      NothingLost(front);
      DistinctKept(Exec(front), a);
    }
  }

  /** Whenever main is back at its select, in every run, each request of each container it serves has a live proxy; and on a
      prompt schedule exactly one, and there are no others. */
  lemma EveryRequestServed(acts: seq<Act>)
    requires Exec(acts).mn.pc == Selecting
    ensures var w := Exec(acts);
            && (forall id, k | id in Served(w) && 0 <= k < |Requests(Served(w)[id])| ::
                  HasProxy(w.mn.live, Served(w)[id], id, k))
            && (PromptRun(acts) ==>
                  && (forall p, q | p in w.mn.live && q in w.mn.live && p != q ::
                        w.mn.live[p].owner != w.mn.live[q].owner || w.mn.live[p].k != w.mn.live[q].k)
                  && (forall p | p in w.mn.live :: w.mn.live[p].owner in Served(w) && w.mn.live[p].k < |Requests(Served(w)[w.mn.live[p].owner])|))
  {
    hide Requests, HasProxy;
    AlwaysPresent(acts);
    if PromptRun(acts) { PromptDistinct(acts); }
  }

  // ---------- end to end ----------

  lemma {:induction false} OrderlyUnshadowed(acts: seq<Act>)
    requires OrderlyRun(acts)
    ensures Unshadowed(Exec(acts).ev.sent)
  {
    if acts != [] {
      var front, a := acts[..|acts| - 1], acts[|acts| - 1];
      OrderlyUnshadowed(front);
      OrderlyKeeps(front);
      AlwaysInv(front);
      AlwaysStream(front);
      KeepsUnshadowed(Exec(front), a);
    }
  }

  lemma KeepsUnshadowed(w: World, a: Act)
    requires Unshadowed(w.ev.sent) && Attached(w.ev) && Inv(w) && StreamInv(w)
    ensures Unshadowed(Step(w, a).ev.sent)
  {
    hide ProxyIps, MakeSubnet, WellAttached, Share, Supported, WellLogged, RuleInv, Accept, StepMain, Overwritten, StreamInv;
    var sent := Step(w, a).ev.sent;
    if !w.down && a.EventStep? && sent != w.ev.sent {
      assert sent[..|sent| - 1] == w.ev.sent;
    } else if !w.down && a.MainStep? {
      StreamMain(w, a.ok);
    } else if !w.down && w.ev.pc == Listening {
      AcceptSendsNone(w.ev, a);
    }
  }

  lemma AcceptSendsNone(e: Events, a: Act)
    requires e.pc == Listening
    ensures Accept(e, a).sent == e.sent
  {
    hide ProxyIps;
  }

  lemma {:induction false} IpListed(nets: map<string, NetworkInfo>, attached: seq<Endpoint>, e: Endpoint, s: Subnet)
    requires e in attached && e.net in nets && s in nets[e.net].subnets
    ensures Rewrite(e.ip, HostOctets(s.octet)) in ProxyIps(nets, attached)
  {
    hide Rewrite;
    if attached[0] == e {
      SubnetListed(nets[e.net].subnets, e.ip, s);
    } else {
      IpListed(nets, attached[1..], e, s);
    }
  }

  lemma {:induction false} SubnetListed(subnets: seq<Subnet>, ip: string, s: Subnet)
    requires s in subnets
    ensures Rewrite(ip, HostOctets(s.octet)) in SubnetIps(subnets, ip)
  {
    hide Rewrite;
    if subnets[0] != s { SubnetListed(subnets[1..], ip, s); }
  }

  lemma {:induction false} RequestListed(ips: seq<string>, ports: seq<Port>, pid: int, ip: string, port: Port)
    requires ip in ips && port in ports
    ensures Request(port.proto, ip, port.port, pid) in RequestsFor(ips, ports, pid)
  {
    if ips[0] == ip {
      var i :| 0 <= i < |ports| && ports[i] == port;
      assert PortRequests(ip, ports, pid)[i] == Request(port.proto, ip, port.port, pid);
    } else {
      RequestListed(ips[1..], ports, pid, ip, port);
    }
  }

  /** Where NETMAP sends traffic for an attachment is the address its proxies listen on. */
  lemma NetmapMeetsProxy(e: Endpoint, s: Subnet)
    requires WellMade([s]) && Supported([s.docker]) && AddressIn([s], e.ip)
    ensures var to := ParseCidr(s.proxy);
            to.Some? && Rewrite(e.ip, HostOctets(s.octet)) == AddressText(Netmap(ParseAddress(e.ip).value, to.value))
  {
    assert s in [s] && s.docker in [s.docker];
    hide *;
    SubnetFacts(e, s);
    var x, net, n := ParseAddress(e.ip).value, ParseCidr(s.docker).value, s.octet;
    AddressTextUnique(e.ip);
    CidrTextUnique(s.docker);
    RewriteIsNetmap(net, x, n);
    AddressTextUnique(Rewrite(e.ip, HostOctets(n)));
  }

  lemma SubnetFacts(e: Endpoint, s: Subnet)
    requires WellMade([s]) && Supported([s.docker]) && AddressIn([s], e.ip)
    ensures 1 <= s.octet <= 255 && s.proxy == Rewrite(s.docker, HostOctets(s.octet))
    ensures ParseAddress(e.ip).Some? && ParseCidr(s.docker).Some? && ParseCidr(s.docker).value.prefix >= 16
    ensures InSubnet(ParseAddress(e.ip).value, ParseCidr(s.docker).value)
  {
    hide Rewrite, ParseAddress, ParseCidr, InSubnet;
    assert s in [s] && s.docker in [s.docker];
  }

  /** With nothing pending in an orderly run, whatever is sent to a running container is forwarded: for each of its
      attachments and ports the rule of the network is installed, and at the address that rule maps the container's address
      to, a live proxy of that container listens on that protocol and port. */
  lemma TrafficArrives(acts: seq<Act>, c: string, e: Endpoint, s: Subnet, port: Port)
    requires var w := Exec(acts); OrderlyRun(acts) && w.ev.pc == Listening && w.mn.pc == Selecting
    requires var v := Exec(acts).ev;
             && c in v.conts && c in v.endpoints && e in v.endpoints[c] && port in v.conts[c].ports
             && e.net in v.nets && s in v.nets[e.net].subnets
    ensures var w := Exec(acts);
            && Rule(s.docker, s.proxy) in w.mn.rules
            && ParseCidr(s.docker).Some? && ParseCidr(s.proxy).Some? && ParseAddress(e.ip).Some?
            && InSubnet(ParseAddress(e.ip).value, ParseCidr(s.docker).value)
            && exists p :: p in w.mn.live && w.mn.live[p].owner == c
                           && w.mn.live[p].request == Request(port.proto, AddressText(Netmap(ParseAddress(e.ip).value, ParseCidr(s.proxy).value)),
                                                              port.port, w.ev.conts[c].pid)
  {
    var w := Exec(acts);
    var ip := Rewrite(e.ip, HostOctets(s.octet));
    RuleThere(acts, e.net, s);
    assert RuleOf(s) == Rule(s.docker, s.proxy);
    ProxyThere(acts, c, e, s, port);
    OneSubnet(acts, c, e, s);
    hide *;
    SubnetFacts(e, s);
    NetmapMeetsProxy(e, s);
  }

  lemma RuleThere(acts: seq<Act>, net: string, s: Subnet)
    requires var w := Exec(acts); OrderlyRun(acts) && w.ev.pc == Listening && w.mn.pc == Selecting
    requires net in Exec(acts).ev.nets && s in Exec(acts).ev.nets[net].subnets
    ensures RuleOf(s) in Exec(acts).mn.rules
  {
    hide OrderlyRun, RuleOf, Unshadowed, Alive;
    OrderlyUnshadowed(acts);
    RulesMatchReceived(acts);
    AlwaysInv(acts);
    var w := Exec(acts);
    assert w.ev.sent[..w.mn.received] == w.ev.sent;
    hide Exec;
    OctetOwned(w.ev.nets, net, s);
  }

  lemma OneSubnet(acts: seq<Act>, c: string, e: Endpoint, s: Subnet)
    requires OrderlyRun(acts)
    requires var v := Exec(acts).ev; c in v.conts && c in v.endpoints && e in v.endpoints[c] && e.net in v.nets && s in v.nets[e.net].subnets
    ensures WellMade([s]) && Supported([s.docker]) && AddressIn([s], e.ip)
  {
    OrderlyKeeps(acts);
    AlwaysInv(acts);
    var v := Exec(acts).ev;
    AliveDisjoint(v.sent);
    hide *;
    AttachedFacts(v, Marked(v.sent), c, e);
    SoleSubnet(v.nets[e.net].subnets, s, e.ip);
  }

  lemma AttachedFacts(v: Events, marked: set<nat>, c: string, e: Endpoint)
    requires Attached(v) && Disjoint(v.nets, marked) && c in v.conts && c in v.endpoints && e in v.endpoints[c] && e.net in v.nets
    ensures var subnets := v.nets[e.net].subnets; WellMade(subnets) && Supported(DockerSubnets(subnets)) && AddressIn(subnets, e.ip)
  {
    hide WellMade, Supported, DockerSubnets, AddressIn, ProxyIps, Share, NoDup;
    assert WellAttached(v.nets, v.endpoints[c]);
  }

  lemma SoleSubnet(subnets: seq<Subnet>, s: Subnet, ip: string)
    requires WellMade(subnets) && Supported(DockerSubnets(subnets)) && AddressIn(subnets, ip) && s in subnets
    ensures WellMade([s]) && Supported([s.docker]) && AddressIn([s], ip)
  {
    hide MakeSubnet, ParseCidr, ParseAddress, InSubnet;
    var i :| 0 <= i < |subnets| && subnets[i] == s;
    assert DockerSubnets(subnets)[i] == s.docker && DockerSubnets(subnets)[i] in DockerSubnets(subnets);
  }

  lemma ProxyThere(acts: seq<Act>, c: string, e: Endpoint, s: Subnet, port: Port)
    requires var w := Exec(acts); OrderlyRun(acts) && w.ev.pc == Listening && w.mn.pc == Selecting
    requires var v := Exec(acts).ev;
             && c in v.conts && c in v.endpoints && e in v.endpoints[c] && port in v.conts[c].ports
             && e.net in v.nets && s in v.nets[e.net].subnets
    ensures var w := Exec(acts);
            exists p :: p in w.mn.live && w.mn.live[p].owner == c
                        && w.mn.live[p].request == Request(port.proto, Rewrite(e.ip, HostOctets(s.octet)), port.port, w.ev.conts[c].pid)
  {
    OrderlyKeeps(acts);
    AlwaysStream(acts);
    EveryRequestServed(acts);
    var w := Exec(acts);
    var info := w.ev.conts[c];
    IpListed(w.ev.nets, w.ev.endpoints[c], e, s);
    assert w.ev.csent[..w.mn.creceived] == w.ev.csent;
    assert Served(w) == w.ev.conts;
    var ip := Rewrite(e.ip, HostOctets(s.octet));
    assert ip in info.ips;
    RequestListed(info.ips, info.ports, info.pid, ip, port);
    hide Exec, OrderlyRun, Rewrite, Distinct, Running, ProxyIps, RequestsFor, Attached, PromptRun;
    var k :| 0 <= k < |Requests(info)| && Requests(info)[k] == Request(port.proto, ip, port.port, info.pid);
    assert HasProxy(w.mn.live, Served(w)[c], c, k);
  }
}
