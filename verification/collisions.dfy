/** No two live port proxies listen on the same protocol, host address and port. */
module Collisions {
  import opened Dotted
  import opened DindTypes
  import opened Forwarder
  import opened Networks
  import opened Proxies

  // ---------- what the environment keeps to ----------

  /** A network as the forwarder supports it for containers: at most one subnet, IPv4, of prefix 16 or longer. */
  predicate Supported(dockerSubnets: seq<string>) {
    |dockerSubnets| <= 1 && forall s | s in dockerSubnets :: ParseCidr(s).Some? && ParseCidr(s).value.prefix >= 16
  }

  function DockerSubnets(subnets: seq<Subnet>): (r: seq<string>)
    ensures |r| == |subnets|
  {
    seq(|subnets|, i requires 0 <= i < |subnets| => subnets[i].docker)
  }

  /** An attachment whose address lies in the subnet of its network. */
  predicate AddressIn(subnets: seq<Subnet>, ip: string) {
    && ParseAddress(ip).Some?
    && forall s | s in subnets :: ParseCidr(s.docker).Some? && InSubnet(ParseAddress(ip).value, ParseCidr(s.docker).value)
  }

  predicate RefersTo(attached: seq<Endpoint>, net: string) {
    exists e | e in attached :: e.net == net
  }

  predicate Referenced(endpoints: map<string, seq<Endpoint>>, net: string) {
    exists c | c in endpoints :: RefersTo(endpoints[c], net)
  }

  /** Two containers that share an address on a network. */
  predicate Share(a: seq<Endpoint>, b: seq<Endpoint>) {
    exists e | e in a :: e in b
  }

  /** A container attached to distinct networks, with addresses of those networks. */
  predicate WellAttached(nets: map<string, NetworkInfo>, attached: seq<Endpoint>) {
    && (forall i, j | 0 <= i < j < |attached| :: attached[i].net != attached[j].net)
    && (forall e | e in attached && e.net in nets :: AddressIn(nets[e.net].subnets, e.ip))
  }

  /** What docker keeps to: network identifiers are fresh, a network is destroyed only after its containers stopped,
      running containers share no address on a network; starts come on the prompt schedule. */
  predicate Orderly(w: World, a: Act) {
    w.ev.pc != Listening || w.down ||
    match a
    case NetworkCreate(id, subnets) => id !in w.ev.nets && !Referenced(w.ev.endpoints, id) && Supported(subnets)
    case NetworkDestroy(id) => !Referenced(w.ev.endpoints, id)
    case ContainerStart(id, _, ports, attached) =>
      && Prompt(w, a) && NoDup(ports) && WellAttached(w.ev.nets, attached)
      && forall d | d in w.ev.endpoints && d != id :: !Share(attached, w.ev.endpoints[d])
    case _ => true
  }

  predicate OrderlyRun(acts: seq<Act>) {
    acts == [] || (OrderlyRun(acts[..|acts| - 1]) && Orderly(Exec(acts[..|acts| - 1]), acts[|acts| - 1]))
  }

  lemma {:induction false} OrderlyIsPrompt(acts: seq<Act>)
    requires OrderlyRun(acts)
    ensures PromptRun(acts)
  {
    if acts != [] { OrderlyIsPrompt(acts[..|acts| - 1]); }
  }

  // ---------- running containers ----------

  /** The running containers against the cached networks. */
  ghost predicate Attached(e: Events) {
    && e.endpoints.Keys == e.conts.Keys
    && (forall c | c in e.conts ::
          && e.conts[c].ips == ProxyIps(e.nets, e.endpoints[c])
          && NoDup(e.conts[c].ports)
          && WellAttached(e.nets, e.endpoints[c]))
    && (forall c, d | c in e.conts && d in e.conts && c != d :: !Share(e.endpoints[c], e.endpoints[d]))
    && (forall n | n in e.nets :: Supported(DockerSubnets(e.nets[n].subnets)))
    && match e.pc
       case Marking(id, todo, subnets) =>
         id !in e.nets && !Referenced(e.endpoints, id) && Supported(DockerSubnets(subnets) + todo)
       case Freeing(net, _) => !Referenced(e.endpoints, net.id)
       case _ => true
  }

  lemma {:induction false} SameIps(nets: map<string, NetworkInfo>, nets': map<string, NetworkInfo>, attached: seq<Endpoint>)
    requires forall e | e in attached :: (e.net in nets <==> e.net in nets') && (e.net in nets ==> nets[e.net] == nets'[e.net])
    ensures ProxyIps(nets, attached) == ProxyIps(nets', attached)
  {
    if attached != [] {
      assert attached[0] in attached;
      SameIps(nets, nets', attached[1..]);
    }
  }

  /** Changing a network no running container is attached to changes no container's addresses. */
  lemma UnreferencedNet(e: Events, nets': map<string, NetworkInfo>, id: string)
    requires Attached(e) && !Referenced(e.endpoints, id) && nets' - {id} == e.nets - {id}
    ensures forall c | c in e.conts :: e.conts[c].ips == ProxyIps(nets', e.endpoints[c]) && WellAttached(nets', e.endpoints[c])
  {
    hide AddressIn, ProxyIps;
    forall c | c in e.conts
      ensures e.conts[c].ips == ProxyIps(nets', e.endpoints[c]) && WellAttached(nets', e.endpoints[c])
    {
      assert !RefersTo(e.endpoints[c], id);
      forall x | x in e.endpoints[c]
        ensures (x.net in e.nets <==> x.net in nets') && (x.net in e.nets ==> e.nets[x.net] == nets'[x.net])
      {
        assert x.net in e.nets <==> x.net in e.nets - {id};
        assert x.net in nets' <==> x.net in nets' - {id};
      }
      SameIps(e.nets, nets', e.endpoints[c]);
    }
  }

  lemma AttachedMove(e: Events)
    requires Attached(e) && EventMove(e).Some?
    ensures Attached(EventMove(e).value)
  {
    hide AddressIn, ProxyIps, ParseCidr, Rewrite, Share;
    var e' := EventMove(e).value;
    match e.pc
    case Marking(id, todo, subnets) =>
      if todo == [] {
        assert e'.nets - {id} == e.nets - {id};
        UnreferencedNet(e, e'.nets, id);
        assert DockerSubnets(subnets) + todo == DockerSubnets(subnets);
      } else {
        assert DockerSubnets(e'.pc.subnets) + e'.pc.todo == DockerSubnets(subnets) + todo;
      }
    case Freeing(net, i) =>
      if i >= |net.subnets| {
        assert e'.nets - {net.id} == e.nets - {net.id};
        UnreferencedNet(e, e'.nets, net.id);
      }
    case _ =>
  }

  lemma AttachedAccept(w: World, a: Act)
    requires Attached(w.ev) && w.ev.pc == Listening && !w.down && Orderly(w, a)
    requires forall n | n in w.ev.nets :: w.ev.nets[n].id == n
    ensures Attached(Accept(w.ev, a))
  {
    match a
    case NetworkCreate(_, _) => AttachedCreate(w, a);
    case ContainerStart(_, _, _, _) => AttachedStart(w, a);
    case _ =>
      hide DockerSubnets, Supported, WellAttached, AddressIn, ProxyIps, ParseCidr, Share;
  }

  lemma AttachedCreate(w: World, a: Act)
    requires Attached(w.ev) && w.ev.pc == Listening && !w.down && Orderly(w, a) && a.NetworkCreate?
    ensures Attached(Accept(w.ev, a))
  {
    hide AddressIn, ProxyIps, ParseCidr, Share, WellAttached, NoDup, Referenced;
    assert DockerSubnets([]) + a.subnets == a.subnets;
  }

  lemma AttachedStart(w: World, a: Act)
    requires Attached(w.ev) && w.ev.pc == Listening && !w.down && Orderly(w, a) && a.ContainerStart?
    ensures Attached(Accept(w.ev, a))
  {
    forall d | d in w.ev.endpoints && d != a.id ensures !Share(w.ev.endpoints[d], a.attached) {
      ShareSymmetric(a.attached, w.ev.endpoints[d]);
    }
    hide AddressIn, ProxyIps, ParseCidr, Share, DockerSubnets, Supported, WellAttached, NoDup, Prompt;
  }

  lemma ShareSymmetric(xs: seq<Endpoint>, ys: seq<Endpoint>)
    ensures Share(xs, ys) <==> Share(ys, xs)
  {
  }

  // ---------- their proxy addresses ----------

  lemma {:induction false} IpOrigin(nets: map<string, NetworkInfo>, attached: seq<Endpoint>, ip: string)
    requires ip in ProxyIps(nets, attached)
    ensures exists e, s :: e in attached && e.net in nets && s in nets[e.net].subnets && ip == Rewrite(e.ip, HostOctets(s.octet))
  {
    hide Rewrite;
    var e := attached[0];
    if e.net in nets && ip in SubnetIps(nets[e.net].subnets, e.ip) {
      var s := SubnetOrigin(nets[e.net].subnets, e.ip, ip);
    } else {
      IpOrigin(nets, attached[1..], ip);
    }
  }

  lemma {:induction false} SubnetOrigin(subnets: seq<Subnet>, at: string, ip: string) returns (s: Subnet)
    requires ip in SubnetIps(subnets, at)
    ensures s in subnets && ip == Rewrite(at, HostOctets(s.octet))
  {
    if ip == Rewrite(at, HostOctets(subnets[0].octet)) { s := subnets[0]; } else { s := SubnetOrigin(subnets[1..], at, ip); }
  }

  /** Networks as the event goroutine caches them on an orderly run. */
  ghost predicate SoundNets(nets: map<string, NetworkInfo>) {
    && (exists marked :: Disjoint(nets, marked))
    && forall n | n in nets :: Supported(DockerSubnets(nets[n].subnets))
  }

  /** Attachments that differ in network or address get different host addresses. */
  lemma HostIpsDiffer(nets: map<string, NetworkInfo>, e: Endpoint, s: Subnet, f: Endpoint, t: Subnet)
    requires SoundNets(nets) && e.net in nets && f.net in nets && e != f
    requires s in nets[e.net].subnets && t in nets[f.net].subnets
    requires AddressIn(nets[e.net].subnets, e.ip) && AddressIn(nets[f.net].subnets, f.ip)
    ensures Rewrite(e.ip, HostOctets(s.octet)) != Rewrite(f.ip, HostOctets(t.octet))
  {
    hide Rewrite, HostOctets, ParseAddress, ParseCidr, AddressText, InSubnet;
    var x, y := ParseAddress(e.ip).value, ParseAddress(f.ip).value;
    AddressTextUnique(e.ip);
    AddressTextUnique(f.ip);
    RewriteInjective(x, y, s.octet, t.octet);
    if s.octet == t.octet {
      assert s.octet in OctetsOf(nets[e.net].subnets) && t.octet in OctetsOf(nets[f.net].subnets);
      assert e.net == f.net;
      var docker := DockerSubnets(nets[e.net].subnets);
      assert |docker| == 1 && nets[e.net].subnets[0] == s == t && docker[0] == s.docker;
      assert s.docker in docker;
      CidrTextUnique(s.docker);
      SameSubnetLowOctets(ParseCidr(s.docker).value, x, y);
    }
  }

  lemma {:induction false} OwnIpsDistinct(nets: map<string, NetworkInfo>, attached: seq<Endpoint>)
    requires SoundNets(nets) && WellAttached(nets, attached)
    ensures NoDup(ProxyIps(nets, attached))
  {
    hide Rewrite, AddressIn, ParseCidr;
    if attached != [] {
      var e, rest := attached[0], attached[1..];
      OwnIpsDistinct(nets, rest);
      if e.net in nets && nets[e.net].subnets != [] {
        var subnets := nets[e.net].subnets;
        assert |DockerSubnets(subnets)| <= 1;
        assert SubnetIps(subnets[1..], e.ip) == [];
        var ip := Rewrite(e.ip, HostOctets(subnets[0].octet));
        assert SubnetIps(subnets, e.ip) == [ip];
        if ip in ProxyIps(nets, rest) {
          IpOrigin(nets, rest, ip);
          var f, t :| f in rest && f.net in nets && t in nets[f.net].subnets && ip == Rewrite(f.ip, HostOctets(t.octet));
          assert e in attached && f in attached;
          HostIpsDiffer(nets, e, subnets[0], f, t);
          assert false;
        }
      }
    }
  }

  lemma IpsDisjoint(nets: map<string, NetworkInfo>, a: seq<Endpoint>, b: seq<Endpoint>, ip: string)
    requires SoundNets(nets) && WellAttached(nets, a) && WellAttached(nets, b) && !Share(a, b) && ip in ProxyIps(nets, a)
    ensures ip !in ProxyIps(nets, b)
  {
    hide Rewrite, AddressIn;
    IpOrigin(nets, a, ip);
    var e, s :| e in a && e.net in nets && s in nets[e.net].subnets && ip == Rewrite(e.ip, HostOctets(s.octet));
    if ip in ProxyIps(nets, b) {
      IpOrigin(nets, b, ip);
      var f, t :| f in b && f.net in nets && t in nets[f.net].subnets && ip == Rewrite(f.ip, HostOctets(t.octet));
      HostIpsDiffer(nets, e, s, f, t);
      assert false;
    }
  }

  /** Containers that ask for no proxy address twice. */
  predicate NoClash(conts: map<string, ContainerInfo>) {
    && (forall c | c in conts :: NoDup(conts[c].ips) && NoDup(conts[c].ports))
    && (forall c, d, ip | c in conts && d in conts && c != d && ip in conts[c].ips :: ip !in conts[d].ips)
  }

  lemma RunningDoNotClash(e: Events)
    requires Attached(e) && (exists marked :: Disjoint(e.nets, marked))
    ensures NoClash(e.conts)
  {
    hide AddressIn, ProxyIps, ParseCidr, Share, WellAttached;
    forall c | c in e.conts ensures NoDup(e.conts[c].ips) && NoDup(e.conts[c].ports) {
      OwnIpsDistinct(e.nets, e.endpoints[c]);
    }
    forall c, d, ip | c in e.conts && d in e.conts && c != d && ip in e.conts[c].ips ensures ip !in e.conts[d].ips {
      IpsDisjoint(e.nets, e.endpoints[c], e.endpoints[d], ip);
    }
  }

  // ---------- over whole runs ----------

  /** At every point of the history of container messages the running containers do not clash. */
  predicate ClashFree(msgs: seq<ContainerInfo>) {
    msgs == [] || (ClashFree(msgs[..|msgs| - 1]) && NoClash(Running(msgs)))
  }

  lemma {:induction false} ClashFreePrefix(msgs: seq<ContainerInfo>, k: nat)
    requires ClashFree(msgs) && k <= |msgs|
    ensures ClashFree(msgs[..k]) && NoClash(Running(msgs[..k]))
  {
    if k < |msgs| {
      ClashFreePrefix(msgs[..|msgs| - 1], k);
      assert msgs[..|msgs| - 1][..k] == msgs[..k];
    } else {
      assert msgs[..k] == msgs;
    }
  }

  /** What an orderly run keeps on the event goroutine's side. */
  ghost predicate Tidy(w: World) {
    Attached(w.ev) && ClashFree(w.ev.csent)
  }

  lemma TidyAccept(w: World, a: Act, e: Events)
    requires Tidy(w) && Orderly(w, a) && Inv(w) && !w.down && w.ev.pc == Listening && e == Accept(w.ev, a)
    requires e.conts == Running(e.csent) && WellLogged(e.sent) && e.nets == Alive(e.sent)
    requires e.csent == w.ev.csent || (|e.csent| > 0 && e.csent[..|e.csent| - 1] == w.ev.csent)
    ensures Attached(e) && ClashFree(e.csent)
  {
    hide Attached, Orderly, NoClash, ProxyIps, Accept;
    AliveDisjoint(w.ev.sent);
    AttachedAccept(w, a);
    AliveDisjoint(e.sent);
    RunningDoNotClash(e);
  }

  lemma AcceptLogs(e: Events, a: Act)
    requires e.pc == Listening
    ensures var e' := Accept(e, a); e'.csent == e.csent || (|e'.csent| > 0 && e'.csent[..|e'.csent| - 1] == e.csent)
  {
    hide ProxyIps;
  }

  lemma TidyKept(w: World, a: Act)
    requires Tidy(w) && Orderly(w, a) && Inv(w) && StreamInv(w) && Inv(Step(w, a)) && StreamInv(Step(w, a))
    ensures Tidy(Step(w, a))
  {
    hide Attached, Orderly, EventMove, NoClash, NetworkMove, ContainerMove, Accept, ClashFree, RuleInv;
    if w.down {
    } else if a.EventStep? {
      if EventMove(w.ev).Some? { AttachedMove(w.ev); EventMoveQuiet(w.ev); }
    } else if a.MainStep? || a.Exit? {
      assert Step(w, a).ev == w.ev;
    } else if a.Deliver? {
      AttachedListening(w.ev);
    } else if w.ev.pc == Listening {
      AcceptLogs(w.ev, a);
      TidyAccept(w, a, Accept(w.ev, a));
    }
  }

  lemma EventMoveQuiet(e: Events)
    requires EventMove(e).Some?
    ensures EventMove(e).value.csent == e.csent
  {
    hide MakeSubnet;
  }

  lemma AttachedListening(e: Events)
    requires Attached(e)
    ensures Attached(e.(pc := Listening))
  {
    hide WellAttached, ProxyIps, Share;
  }

  /** The containers whose proxies may be live: those main has been told of, including the one it is tearing down. */
  function Told(w: World): map<string, ContainerInfo> {
    var n := w.mn.creceived;
    if n > |w.ev.csent| then map[]
    else if (w.mn.pc.Reading? || w.mn.pc.Killing?) && n > 0 then Running(w.ev.csent[..n - 1])
    else Running(w.ev.csent[..n])
  }

  /** Each live proxy is one numbered request of one of those containers, and no request has two. */
  ghost predicate OnePerRequest(live: map<nat, Proxy>, told: map<string, ContainerInfo>) {
    && (forall p | p in live ::
          && live[p].owner in told
          && live[p].k < |Requests(told[live[p].owner])|
          && live[p].request == Requests(told[live[p].owner])[live[p].k])
    && (forall p, q | p in live && q in live && p != q :: live[p].owner != live[q].owner || live[p].k != live[q].k)
  }

  /** How far main has come with the container it is starting. */
  ghost predicate UpTo(m: Main, told: map<string, ContainerInfo>) {
    (m.pc.Spawning? || m.pc.Recording?) ==>
      && m.pc.container.id in told && told[m.pc.container.id] == m.pc.container
      && forall p | p in m.live && m.live[p].owner == m.pc.container.id :: m.live[p].k < m.pc.k + if m.pc.Recording? then 1 else 0
  }

  ghost predicate Distinct(w: World) {
    && OnePerRequest(w.mn.live, Told(w))
    && UpTo(w.mn, Told(w))
    && (w.ev.pc.SendingContainer? && w.ev.pc.container.action == Start ==>
          PidsOf(w.pids, w.ev.pc.container.id) == [] && !((w.mn.pc.Spawning? || w.mn.pc.Recording?) && w.mn.pc.container.id == w.ev.pc.container.id))
  }

  lemma OneMoreRequest(m: Main, told: map<string, ContainerInfo>, p: nat)
    requires OnePerRequest(m.live, told) && UpTo(m, told) && m.pc.Spawning? && m.pc.k < |Requests(m.pc.container)| && p !in m.live
    ensures var c, k := m.pc.container, m.pc.k;
            var live := m.live[p := Proxy(c.id, k, Requests(c)[k])];
            OnePerRequest(live, told) && forall q | q in live && live[q].owner == c.id :: live[q].k < k + 1
  {
    hide Requests;
  }

  lemma DistinctSpawn(w: World, ok: bool)
    requires Distinct(w) && PidInv(w.mn, w.pids, w.lost) && w.mn.pc.Spawning?
    ensures Distinct(StepMain(w, ok))
  {
    hide Requests, Running, ListOk, Tracked, HandOk, OnePerRequest;
    assert Told(StepMain(w, ok)) == Told(w);
    var p := |w.mn.spawned|;
    assert p !in w.mn.live;
    if w.mn.pc.k < |Requests(w.mn.pc.container)| { OneMoreRequest(w.mn, Told(w), p); }
  }

  lemma DistinctRecord(w: World, ok: bool)
    requires Distinct(w) && w.mn.pc.Recording?
    ensures Distinct(StepMain(w, ok))
  {
    hide Requests, Running;
    var w' := StepMain(w, ok);
    assert Told(w') == Told(w);
  }

  lemma DistinctKill(w: World, ok: bool)
    requires Distinct(w) && PidInv(w.mn, w.pids, w.lost) && (w.mn.pc.Reading? || (w.mn.pc.Killing? && w.mn.pc.k < |w.mn.pc.list|))
    requires w.ev.pc.SendingContainer? && w.ev.pc.container.action == Start ==> PidsOf(w.pids, w.ev.pc.container.id) == []
    ensures Distinct(StepMain(w, ok))
  {
    hide Requests, Running, PidInv;
    assert Told(StepMain(w, ok)) == Told(w);
  }

  lemma DistinctFinish(w: World, ok: bool)
    requires Distinct(w) && PidInv(w.mn, w.pids, w.lost) && StreamInv(w) && w.lost == {} && w.mn.pc.Killing? && w.mn.pc.k >= |w.mn.pc.list|
    ensures Distinct(StepMain(w, ok))
  {
    hide Requests, PidInv;
    var w' := StepMain(w, ok);
    KillingBound(w.mn, w.pids, w.lost);
    FinishKeeps(w.mn, w.pids, w.lost);
    var got := w.ev.csent[..w.mn.creceived];
    assert got[..|got| - 1] == w.ev.csent[..w.mn.creceived - 1];
    assert Told(w') == Told(w) - {w.mn.pc.container.id};
  }

  lemma DistinctMain(w: World, ok: bool)
    requires Distinct(w) && PidInv(w.mn, w.pids, w.lost) && StreamInv(w) && w.lost == {}
    ensures Distinct(StepMain(w, ok))
  {
    hide PidInv, StreamInv, OnePerRequest, ContainerMove, ParseCidr;
    match w.mn.pc
    case Spawning(_, _) => DistinctSpawn(w, ok);
    case Recording(_, _, _) => DistinctRecord(w, ok);
    case Reading(_) => DistinctKill(w, ok);
    case Killing(_, list, k) => if k < |list| { DistinctKill(w, ok); } else { DistinctFinish(w, ok); }
    case _ => assert Told(StepMain(w, ok)) == Told(w);
  }

  lemma DistinctStart(w: World)
    requires Distinct(w) && PidInv(w.mn, w.pids, w.lost) && StreamInv(w) && w.lost == {} && w.mn.pc == Selecting
    requires w.ev.pc.SendingContainer? && w.ev.pc.container.action == Start
    ensures Distinct(StepDeliver(w))
  {
    hide Requests, ListOk, Ledger;
    var w' := StepDeliver(w);
    var got := w'.ev.csent[..w'.mn.creceived];
    assert got[..|got| - 1] == w.ev.csent[..w.mn.creceived];
    var id := w.ev.pc.container.id;
    assert Told(w') == Told(w)[id := w.ev.pc.container];
    forall p | p in w.mn.live ensures w.mn.live[p].owner != id {
      assert Tracked(w.mn, w.pids, w.mn.live[p].owner, p);
    }
  }

  lemma DistinctDeliver(w: World)
    requires Distinct(w) && PidInv(w.mn, w.pids, w.lost) && StreamInv(w) && w.lost == {} && w.mn.pc == Selecting
    ensures Distinct(StepDeliver(w))
  {
    hide Requests, PidInv, OnePerRequest, Running;
    var w' := StepDeliver(w);
    if w.ev.pc.SendingContainer? && w.ev.pc.container.action == Start {
      DistinctStart(w);
    } else if w.ev.pc.SendingContainer? {
      assert w'.ev.csent[..w'.mn.creceived - 1] == w.ev.csent[..w.mn.creceived];
      assert Told(w') == Told(w);
    } else {
      assert Told(w') == Told(w);
    }
  }

  lemma DistinctAccept(w: World, a: Act)
    requires Distinct(w) && StreamInv(w) && w.ev.pc == Listening && !w.down && Prompt(w, a)
    requires !a.EventStep? && !a.Deliver? && !a.MainStep? && !a.Exit?
    ensures Distinct(StepAccept(w, a))
  {
    hide Requests, OnePerRequest, ProxyIps, Overwritten;
    var w' := StepAccept(w, a);
    var n := w.mn.creceived;
    assert w'.ev.csent[..n] == w.ev.csent[..n] == w.ev.csent;
    if n > 0 { assert w'.ev.csent[..n - 1] == w.ev.csent[..n - 1]; }
    assert Told(w') == Told(w);
    if (w.mn.pc.Spawning? || w.mn.pc.Recording?) && a.ContainerStart? {
      var got := w.ev.csent;
      assert got[|got| - 1] == w.mn.pc.container;
      assert w.mn.pc.container.id in w.ev.conts;
    }
  }

  lemma DistinctKept(w: World, a: Act)
    requires Distinct(w) && PidInv(w.mn, w.pids, w.lost) && StreamInv(w) && w.lost == {} && Prompt(w, a)
    ensures Distinct(Step(w, a))
  {
    hide OnePerRequest, UpTo, PidInv, StreamInv, StepMain, StepDeliver, StepAccept, EventMove, Running;
    if w.down {
    } else if a.MainStep? {
      DistinctMain(w, a.ok);
    } else if a.Deliver? {
      if w.mn.pc == Selecting { DistinctDeliver(w); }
    } else if a.EventStep? {
      if EventMove(w.ev).Some? {
        EventMoveQuiet(w.ev);
        EventMoveNoContainer(w.ev);
        assert Told(Step(w, a)) == Told(w);
      }
    } else if a.Exit? {
      assert Told(Step(w, a)) == Told(w);
    } else if w.ev.pc == Listening {
      DistinctAccept(w, a);
    }
  }

  lemma EventMoveNoContainer(e: Events)
    requires EventMove(e).Some?
    ensures EventMove(e).value.pc.SendingContainer? ==> EventMove(e).value.pc == e.pc
  {
    hide MakeSubnet;
  }

  lemma {:induction false} OrderlyKeeps(acts: seq<Act>)
    requires OrderlyRun(acts)
    ensures Tidy(Exec(acts)) && Distinct(Exec(acts))
  {
    if acts != [] {
      var front, a := acts[..|acts| - 1], acts[|acts| - 1];
      OrderlyKeeps(front);
      OrderlyIsPrompt(acts);
      AlwaysInv(front);
      AlwaysInv(acts);
      AlwaysStream(front);
      AlwaysStream(acts);
      AlwaysPids(front);
      NothingLost(front);
      TidyKept(Exec(front), a);
      DistinctKept(Exec(front), a);
    }
  }

  /** What a request listens on. */
  function Place(r: Request): (string, string, nat) {
    (r.proto, r.hostIp, r.hostPort)
  }

  lemma {:induction false} PlacesDistinct(ips: seq<string>, ports: seq<Port>, pid: int)
    requires NoDup(ips) && NoDup(ports)
    ensures forall r | r in RequestsFor(ips, ports, pid) :: r.hostIp in ips
    ensures forall i, j | 0 <= i < j < |RequestsFor(ips, ports, pid)| ::
              Place(RequestsFor(ips, ports, pid)[i]) != Place(RequestsFor(ips, ports, pid)[j])
  {
    if ips != [] {
      var first, rest := PortRequests(ips[0], ports, pid), RequestsFor(ips[1..], ports, pid);
      PlacesDistinct(ips[1..], ports, pid);
      forall i, j | 0 <= i < j < |first + rest| ensures Place((first + rest)[i]) != Place((first + rest)[j]) {
        if j < |first| {
          assert ports[i] != ports[j];
        } else if i < |first| {
          assert rest[j - |first|] in rest;
        }
      }
    }
  }

  /** Two requests of containers that do not clash listen on different places. */
  lemma RequestsDiffer(conts: map<string, ContainerInfo>, c: string, i: nat, d: string, j: nat)
    requires NoClash(conts) && c in conts && d in conts && (c != d || i != j)
    requires i < |Requests(conts[c])| && j < |Requests(conts[d])|
    ensures Place(Requests(conts[c])[i]) != Place(Requests(conts[d])[j])
  {
    PlacesDistinct(conts[c].ips, conts[c].ports, conts[c].pid);
    PlacesDistinct(conts[d].ips, conts[d].ports, conts[d].pid);
    assert Requests(conts[c])[i] in Requests(conts[c]);
    assert Requests(conts[d])[j] in Requests(conts[d]);
    if c == d && j < i { assert Place(Requests(conts[c])[j]) != Place(Requests(conts[c])[i]); }
  }

  /** At every state of every orderly run, two live proxies differ in protocol, host address or host port. */
  lemma ProxiesDoNotCollide(acts: seq<Act>, p: nat, q: nat)
    requires OrderlyRun(acts) && p in Exec(acts).mn.live && q in Exec(acts).mn.live && p != q
    ensures Place(Exec(acts).mn.live[p].request) != Place(Exec(acts).mn.live[q].request)
  {
    OrderlyKeeps(acts);
    AlwaysStream(acts);
    var w := Exec(acts);
    var n := w.mn.creceived;
    ClashFreePrefix(w.ev.csent, n);
    if n > 0 { ClashFreePrefix(w.ev.csent, n - 1); }
    RequestsDiffer(Told(w), w.mn.live[p].owner, w.mn.live[p].k, w.mn.live[q].owner, w.mn.live[q].k);
  }
}
