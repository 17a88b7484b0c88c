/** The code of dind/cache.go and of the handlers of dind/main.go and dind/docker.go as one process runs them, against
    what the two-process model says an undisturbed handler does. */
module Dind {
  import opened Wrappers
  import opened Dotted
  import opened Octets
  import opened DindTypes
  import opened Forwarder

  class Cache {
    var networkInfoByID: map<string, NetworkInfo>
    var containerInfoByID: map<string, ContainerInfo>
    var proxyPortPIDsByContainerID: map<string, seq<nat>>

    constructor ()
      ensures networkInfoByID == map[] && containerInfoByID == map[] && proxyPortPIDsByContainerID == map[]
    {
      networkInfoByID, containerInfoByID, proxyPortPIDsByContainerID := map[], map[], map[];
    }

    method AddNetworkInfo(info: NetworkInfo)
      modifies `networkInfoByID
      ensures networkInfoByID == old(networkInfoByID)[info.id := info]
    {
      networkInfoByID := networkInfoByID[info.id := info];
    }

    method DeleteNetworkInfo(id: string) returns (info: Option<NetworkInfo>)
      modifies `networkInfoByID
      ensures networkInfoByID == old(networkInfoByID) - {id}
      ensures info == if id in old(networkInfoByID) then Some(old(networkInfoByID)[id]) else None
    {
      info := if id in networkInfoByID then Some(networkInfoByID[id]) else None;
      networkInfoByID := networkInfoByID - {id};
    }

    method AddContainerInfo(info: ContainerInfo)
      modifies `containerInfoByID, `proxyPortPIDsByContainerID
      ensures containerInfoByID == old(containerInfoByID)[info.id := info]
      ensures proxyPortPIDsByContainerID == old(proxyPortPIDsByContainerID)[info.id := []]
    {
      containerInfoByID := containerInfoByID[info.id := info];
      proxyPortPIDsByContainerID := proxyPortPIDsByContainerID[info.id := []];
    }

    method DeleteContainerInfo(id: string) returns (info: Option<ContainerInfo>)
      modifies `containerInfoByID
      ensures containerInfoByID == old(containerInfoByID) - {id}
      ensures info == if id in old(containerInfoByID) then Some(old(containerInfoByID)[id]) else None
    {
      info := if id in containerInfoByID then Some(containerInfoByID[id]) else None;
      containerInfoByID := containerInfoByID - {id};
    }

    method AddProxyPortPID(id: string, pid: nat)
      modifies `proxyPortPIDsByContainerID
      ensures proxyPortPIDsByContainerID == old(proxyPortPIDsByContainerID)[id := PidsOf(old(proxyPortPIDsByContainerID), id) + [pid]]
    {
      proxyPortPIDsByContainerID := proxyPortPIDsByContainerID[id := PidsOf(proxyPortPIDsByContainerID, id) + [pid]];
    }

    method DeleteProxyPortPIDs(id: string)
      modifies `proxyPortPIDsByContainerID
      ensures proxyPortPIDsByContainerID == old(proxyPortPIDsByContainerID)[id := []]
    {
      proxyPortPIDsByContainerID := proxyPortPIDsByContainerID[id := []];
    }
  }

  // ---------- network created: the octets ----------

  /** Allocating octets for subnets one after another; None when they run out. */
  function AllocateAll(used: set<nat>, dockerSubnets: seq<string>): Option<seq<Subnet>>
    decreases |dockerSubnets|
  {
    if dockerSubnets == [] then Some([])
    else
      var o := LeastFree(used);
      if o == 256 then None
      else
        match AllocateAll(used + {o}, dockerSubnets[1..])
        case Some(rest) => Some([MakeSubnet(dockerSubnets[0], o)] + rest)
        case None => None
  }

  lemma OctetsOfJoin(s: Subnet, rest: seq<Subnet>)
    ensures OctetsOf([s] + rest) == {s.octet} + OctetsOf(rest)
  {
    assert forall x :: x in [s] + rest <==> x == s || x in rest;
  }

  lemma MadeFor(docker: string, o: nat)
    ensures MakeSubnet(docker, o).octet == o
  {
    hide Rewrite;
  }

  lemma {:induction false} AllocateOneMore(used: set<nat>, front: seq<string>, s: string, subnets: seq<Subnet>)
    requires AllocateAll(used, front) == Some(subnets)
    ensures var o := LeastFree(used + OctetsOf(subnets));
            AllocateAll(used, front + [s]) == if o == 256 then None else Some(subnets + [MakeSubnet(s, o)])
    decreases |front|
  {
    hide MakeSubnet, LeastFree;
    if front == [] {
      AllocateOne(used, s);
      assert front + [s] == [s] && used + OctetsOf(subnets) == used;
      assert subnets == [];
      var o := LeastFree(used);
      if o < 256 { assert subnets + [MakeSubnet(s, o)] == [MakeSubnet(s, o)]; }
    } else {
      var o := LeastFree(used);
      var first := MakeSubnet(front[0], o);
      var rest := AllocateAll(used + {o}, front[1..]).value;
      assert subnets == [first] + rest;
      OctetsOfJoin(first, rest);
      assert first.octet == o by { MadeFor(front[0], o); }
      assert used + OctetsOf(subnets) == used + {o} + OctetsOf(rest);
      AllocateOneMore(used + {o}, front[1..], s, rest);
      assert (front + [s])[1..] == front[1..] + [s];
      var p := LeastFree(used + OctetsOf(subnets));
      if p < 256 {
        assert [first] + (rest + [MakeSubnet(s, p)]) == subnets + [MakeSubnet(s, p)];
      }
    }
  }

  lemma AllocateOne(used: set<nat>, s: string)
    ensures AllocateAll(used, [s]) == if LeastFree(used) == 256 then None else Some([MakeSubnet(s, LeastFree(used))])
  {
    hide Rewrite, HostOctets;
    assert [s][1..] == [];
    var o := LeastFree(used);
    assert AllocateAll(used + {o}, []) == Some([]);
    if o < 256 { assert [MakeSubnet(s, o)] + [] == [MakeSubnet(s, o)]; }
  }

  lemma {:induction false} AllocationStops(used: set<nat>, front: seq<string>, rest: seq<string>)
    requires AllocateAll(used, front) == None
    ensures AllocateAll(used, front + rest) == None
    decreases |front|
  {
    var o := LeastFree(used);
    assert (front + rest)[1..] == front[1..] + rest;
    if o < 256 { AllocationStops(used + {o}, front[1..], rest); }
  }

  /** The loop over the subnets of a created network. */
  method DescribeNetwork(table: OctetTable, id: string, dockerSubnets: seq<string>) returns (info: Option<NetworkInfo>)
    requires table.flags.Length == 256
    modifies table.flags
    ensures match AllocateAll(old(table.Used()), dockerSubnets)
            case Some(subnets) => info == Some(NetworkInfo(id, Create, subnets)) && table.Used() == old(table.Used()) + OctetsOf(subnets)
            case None => info == None
  {
    hide Rewrite, HostOctets, LeastFree;
    var subnets: seq<Subnet> := [];
    for i := 0 to |dockerSubnets|
      invariant AllocateAll(old(table.Used()), dockerSubnets[..i]) == Some(subnets)
      invariant table.Used() == old(table.Used()) + OctetsOf(subnets)
    {
      AllocateOneMore(old(table.Used()), dockerSubnets[..i], dockerSubnets[i], subnets);
      assert dockerSubnets[..i + 1] == dockerSubnets[..i] + [dockerSubnets[i]];
      var o := table.MarkFirst();
      if o == 256 {
        AllocationStops(old(table.Used()), dockerSubnets[..i + 1], dockerSubnets[i + 1..]);
        assert dockerSubnets == dockerSubnets[..i + 1] + dockerSubnets[i + 1..];
        return None;
      }
      var subnet := MakeSubnet(dockerSubnets[i], o);
      assert OctetsOf(subnets + [subnet]) == OctetsOf(subnets) + {o};
      subnets := subnets + [subnet];
    }
    assert dockerSubnets[..|dockerSubnets|] == dockerSubnets;
    return Some(NetworkInfo(id, Create, subnets));
  }

  /** The event goroutine alone, from one point of a handler until it sends or dies. */
  function RunEvents(e: Events): Option<Events>
    decreases EventsAhead(e.pc)
  {
    if !e.pc.Marking? && !e.pc.Freeing? then Some(e)
    else
      match EventMove(e)
      case Some(e') => RunEvents(e')
      case None => None
  }

  /** Undisturbed, the steps of the model for a created network are the loop above. */
  lemma {:induction false} MarkingIsLoop(e: Events)
    requires e.pc.Marking?
    ensures match AllocateAll(e.used, e.pc.todo)
            case Some(more) =>
              var info := NetworkInfo(e.pc.id, Create, e.pc.subnets + more);
              RunEvents(e) == Some(e.(pc := SendingNetwork(info), used := e.used + OctetsOf(more), nets := e.nets[info.id := info],
                                      sent := e.sent + [info]))
            case None => RunEvents(e) == None
    decreases |e.pc.todo|
  {
    hide MakeSubnet, LeastFree;
    var id, todo, subnets := e.pc.id, e.pc.todo, e.pc.subnets;
    if todo == [] {
      assert subnets + [] == subnets && e.used + OctetsOf([]) == e.used;
      var e' := EventMove(e).value;
      assert RunEvents(e) == RunEvents(e') == Some(e');
    } else if LeastFree(e.used) < 256 {
      var o := LeastFree(e.used);
      var e' := EventMove(e).value;
      MarkingIsLoop(e');
      assert RunEvents(e) == RunEvents(e');
      match AllocateAll(e'.used, todo[1..])
      case Some(rest) =>
        var more := [MakeSubnet(todo[0], o)] + rest;
        assert subnets + [MakeSubnet(todo[0], o)] + rest == subnets + more;
        OctetsOfJoin(MakeSubnet(todo[0], o), rest);
        MadeFor(todo[0], o);
        assert e.used + {o} + OctetsOf(rest) == e.used + OctetsOf(more);
      case None =>
    }
  }

  /** The handler of a created network: octets, cache, and the message to send. It does what the model's steps do, from the
      acceptance of the event to the send. */
  method CreateNetwork(table: OctetTable, cache: Cache, id: string, dockerSubnets: seq<string>, ghost e: Events) returns (info: Option<NetworkInfo>)
    requires table.flags.Length == 256
    requires e.pc == Listening && e.used == table.Used() && e.nets == cache.networkInfoByID
    modifies table.flags, cache`networkInfoByID
    ensures match RunEvents(Accept(e, NetworkCreate(id, dockerSubnets)))
            case Some(e') =>
              && info.Some? && e'.pc == SendingNetwork(info.value)
              && e'.used == table.Used() && e'.nets == cache.networkInfoByID && e'.sent == e.sent + [info.value]
            case None => info == None
  {
    hide LeastFree, MakeSubnet;
    MarkingIsLoop(Accept(e, NetworkCreate(id, dockerSubnets)));
    assert forall more: seq<Subnet> :: [] + more == more;
    info := DescribeNetwork(table, id, dockerSubnets);
    if info.Some? { cache.AddNetworkInfo(info.value); }
  }

  /** A destroyed network gives its octets back and leaves the cache; the message is its cached information. */
  method ForgetNetwork(table: OctetTable, cache: Cache, id: string, ghost e: Events) returns (info: Option<NetworkInfo>)
    requires table.flags.Length == 256
    requires e.pc == Listening && e.used == table.Used() && e.nets == cache.networkInfoByID
    requires id in cache.networkInfoByID ==> cache.networkInfoByID[id].id == id
    requires id in cache.networkInfoByID ==> forall s | s in cache.networkInfoByID[id].subnets :: s.octet < 256
    modifies table.flags, cache`networkInfoByID
    ensures if id in old(cache.networkInfoByID) then
              var net := old(cache.networkInfoByID)[id];
              && info == Some(net.(action := Destroy))
              && table.Used() == old(table.Used()) - OctetsOf(net.subnets)
              && cache.networkInfoByID == old(cache.networkInfoByID) - {id}
            else info == None && table.Used() == old(table.Used()) && cache.networkInfoByID == old(cache.networkInfoByID)
    ensures var e' := RunEvents(Accept(e, NetworkDestroy(id)));
            && e'.Some? && e'.value.used == table.Used() && e'.value.nets == cache.networkInfoByID
            && e'.value.pc == if info.Some? then SendingNetwork(info.value) else Listening
  {
    if id in e.nets {
      FreeingIsLoop(Accept(e, NetworkDestroy(id)));
      assert e.nets[id].subnets[0..] == e.nets[id].subnets;
    }
    if id !in cache.networkInfoByID { return None; }
    var net := cache.networkInfoByID[id];
    for i := 0 to |net.subnets|
      invariant table.Used() == old(table.Used()) - OctetsOf(net.subnets[..i])
      invariant cache.networkInfoByID == old(cache.networkInfoByID)
    {
      assert net.subnets[..i + 1] == net.subnets[..i] + [net.subnets[i]];
      table.Release(net.subnets[i].octet);
    }
    assert net.subnets[..|net.subnets|] == net.subnets;
    var _ := cache.DeleteNetworkInfo(id);
    return Some(net.(action := Destroy));
  }

  /** Undisturbed, the steps of the model for a destroyed network are the loop above. */
  lemma {:induction false} FreeingIsLoop(e: Events)
    requires e.pc.Freeing? && e.pc.i <= |e.pc.net.subnets|
    ensures var net := e.pc.net;
            var info := net.(action := Destroy);
            RunEvents(e) == Some(e.(pc := SendingNetwork(info), used := e.used - OctetsOf(net.subnets[e.pc.i..]), nets := e.nets - {net.id},
                                    sent := e.sent + [info]))
    decreases |e.pc.net.subnets| - e.pc.i
  {
    var net, i := e.pc.net, e.pc.i;
    var e' := EventMove(e).value;
    assert RunEvents(e) == RunEvents(e');
    if i == |net.subnets| {
      assert e.used - OctetsOf(net.subnets[i..]) == e.used;
      assert RunEvents(e') == Some(e');
    } else {
      FreeingIsLoop(e');
      OctetsOfJoin(net.subnets[i], net.subnets[i + 1..]);
      assert net.subnets[i..] == [net.subnets[i]] + net.subnets[i + 1..];
      assert e'.used - OctetsOf(net.subnets[i + 1..]) == e.used - OctetsOf(net.subnets[i..]);
    }
  }

  // ---------- network rules ----------

  /** The OUTPUT chain of the nat table. */
  class IpTables {
    var chain: seq<Rule>

    ghost function Rules(): set<Rule>
      reads this
    {
      set r | r in chain
    }

    ghost predicate Valid()
      reads this
    {
      forall i, j | 0 <= i < j < |chain| :: chain[i] != chain[j]
    }

    /** Appends the rule unless it is there; the IPv4 binary refuses any other destination. */
    method AppendUnique(r: Rule) returns (ok: bool)
      requires Valid()
      modifies this
      ensures Valid() && ok == ParseCidr(r.docker).Some?
      ensures Rules() == old(Rules()) + if ok then {r} else {}
    {
      hide ParseCidr;
      ok := ParseCidr(r.docker).Some?;
      if ok && r !in chain {
        chain := chain + [r];
      }
    }

    /** Removes the first occurrence of the rule; an error when there is none. */
    method Delete(r: Rule) returns (ok: bool)
      requires Valid()
      modifies this
      ensures Valid() && ok == (r in old(Rules()))
      ensures Rules() == old(Rules()) - {r}
    {
      var i := 0;
      while i < |chain|
        invariant 0 <= i <= |chain| && chain == old(chain)
        invariant forall k | 0 <= k < i :: chain[k] != r
      {
        if chain[i] == r {
          chain := chain[..i] + chain[i + 1..];
          assert forall x | x in old(chain) && x != r :: x in chain;
          return true;
        }
        i := i + 1;
      }
      return false;
    }
  }

  method SetupNetworkPortForward(iptables: IpTables, info: NetworkInfo) returns (ok: bool)
    requires iptables.Valid()
    modifies iptables
    ensures iptables.Valid()
    ensures ok <==> forall s | s in info.subnets :: ParseCidr(s.docker).Some?
    ensures ok ==> iptables.Rules() == old(iptables.Rules()) + RulesOf(info.subnets)
    ensures old(iptables.Rules()) <= iptables.Rules() <= old(iptables.Rules()) + RulesOf(info.subnets)
  {
    hide ParseCidr;
    for i := 0 to |info.subnets|
      invariant iptables.Valid()
      invariant forall s | s in info.subnets[..i] :: ParseCidr(s.docker).Some?
      invariant iptables.Rules() == old(iptables.Rules()) + RulesOf(info.subnets[..i])
    {
      var s := info.subnets[i];
      var added := iptables.AppendUnique(RuleOf(s));
      assert s in info.subnets;
      if !added { return false; }
      assert info.subnets[..i + 1] == info.subnets[..i] + [s];
    }
    assert info.subnets[..|info.subnets|] == info.subnets;
    return true;
  }

  /** Deleting the rules of subnets one after another, up to the first that is not there. */
  function Deleted(rules: set<Rule>, subnets: seq<Subnet>): (set<Rule>, bool) {
    if subnets == [] then (rules, true)
    else if RuleOf(subnets[0]) !in rules then (rules, false)
    else Deleted(rules - {RuleOf(subnets[0])}, subnets[1..])
  }

  predicate RulesDiffer(subnets: seq<Subnet>) {
    forall i, j | 0 <= i < j < |subnets| :: RuleOf(subnets[i]) != RuleOf(subnets[j])
  }

  lemma RulesDifferIff(s: Subnet, rest: seq<Subnet>)
    ensures RulesDiffer([s] + rest) <==> RuleOf(s) !in RulesOf(rest) && RulesDiffer(rest)
    ensures RulesOf([s] + rest) == {RuleOf(s)} + RulesOf(rest)
  {
    var all := [s] + rest;
    assert forall i | 0 <= i < |rest| :: all[i + 1] == rest[i];
    assert forall i | 0 < i < |all| :: all[i] == rest[i - 1];
    if RuleOf(s) in RulesOf(rest) {
      var i :| 0 <= i < |rest| && RuleOf(rest[i]) == RuleOf(s);
      assert all[0] == s && RuleOf(all[i + 1]) == RuleOf(s);
    }
  }

  /** It removes nothing else, and gets through exactly when the rules are all there and no subnet comes twice. */
  lemma {:induction false} DeletedIff(rules: set<Rule>, subnets: seq<Subnet>)
    ensures var (left, ok) := Deleted(rules, subnets);
            && rules - RulesOf(subnets) <= left <= rules
            && (ok ==> left == rules - RulesOf(subnets))
            && (ok <==> RulesOf(subnets) <= rules && RulesDiffer(subnets))
  {
    if subnets != [] {
      DeletedIff(rules - {RuleOf(subnets[0])}, subnets[1..]);
      RulesDifferIff(subnets[0], subnets[1..]);
      assert subnets == [subnets[0]] + subnets[1..];
      hide RulesDiffer, RulesOf, RuleOf;
    }
  }

  method SetdownNetworkPortForward(iptables: IpTables, info: NetworkInfo) returns (ok: bool)
    requires iptables.Valid()
    modifies iptables
    ensures iptables.Valid()
    ensures (iptables.Rules(), ok) == Deleted(old(iptables.Rules()), info.subnets)
    ensures ok ==> iptables.Rules() == old(iptables.Rules()) - RulesOf(info.subnets)
    ensures old(iptables.Rules()) - RulesOf(info.subnets) <= iptables.Rules() <= old(iptables.Rules())
    ensures ok <==> RulesOf(info.subnets) <= old(iptables.Rules()) && RulesDiffer(info.subnets)
  {
    DeletedIff(iptables.Rules(), info.subnets);
    assert info.subnets[0..] == info.subnets;
    for i := 0 to |info.subnets|
      invariant iptables.Valid()
      invariant Deleted(iptables.Rules(), info.subnets[i..]) == Deleted(old(iptables.Rules()), info.subnets)
    {
      assert info.subnets[i..][1..] == info.subnets[i + 1..];
      ghost var before := iptables.Rules();
      var removed := iptables.Delete(RuleOf(info.subnets[i]));
      if !removed {
        assert iptables.Rules() == before;
        return false;
      }
    }
    return true;
  }

  /** The main loop alone, from one point of a network handler until it is back at its select. */
  function RunNetwork(m: Main): Option<Main>
    decreases Ahead(m.pc, map[])
  {
    if !m.pc.Installing? && !m.pc.Removing? then Some(m)
    else
      match NetworkMove(m, true)
      case Some(m') => RunNetwork(m')
      case None => None
  }

  /** Undisturbed, the steps of the model for a created network install what SetupNetworkPortForward installs. */
  lemma {:induction false} InstallingIsLoop(m: Main)
    requires m.pc.Installing? && m.pc.i <= |m.pc.net.subnets|
    ensures var rest := m.pc.net.subnets[m.pc.i..];
            if forall s | s in rest :: ParseCidr(s.docker).Some? then RunNetwork(m) == Some(m.(pc := Selecting, rules := m.rules + RulesOf(rest)))
            else RunNetwork(m) == None
    decreases |m.pc.net.subnets| - m.pc.i
  {
    hide ParseCidr;
    var subnets, i := m.pc.net.subnets, m.pc.i;
    if i == |subnets| {
      assert m.rules + RulesOf(subnets[i..]) == m.rules;
      assert RunNetwork(m) == RunNetwork(m.(pc := Selecting));
    } else {
      assert subnets[i] in subnets[i..];
      assert subnets[i..] == [subnets[i]] + subnets[i + 1..];
      if ParseCidr(subnets[i].docker).Some? {
        var m' := NetworkMove(m, true).value;
        InstallingIsLoop(m');
        assert RunNetwork(m) == RunNetwork(m');
        assert m.rules + {RuleOf(subnets[i])} + RulesOf(subnets[i + 1..]) == m.rules + RulesOf(subnets[i..]);
      }
    }
  }

  /** And for a destroyed network they delete what SetdownNetworkPortForward deletes, and stop where it stops. */
  lemma {:induction false} RemovingIsLoop(m: Main)
    requires m.pc.Removing? && m.pc.i <= |m.pc.net.subnets|
    ensures RunNetwork(m) == Some(m.(pc := Selecting, rules := Deleted(m.rules, m.pc.net.subnets[m.pc.i..]).0))
    decreases |m.pc.net.subnets| - m.pc.i
  {
    hide ParseCidr;
    var subnets, i := m.pc.net.subnets, m.pc.i;
    if i == |subnets| {
      assert RunNetwork(m) == RunNetwork(m.(pc := Selecting));
    } else {
      assert subnets[i..][1..] == subnets[i + 1..];
      var m' := NetworkMove(m, true).value;
      if RuleOf(subnets[i]) in m.rules { RemovingIsLoop(m'); }
      assert RunNetwork(m) == RunNetwork(m');
    }
  }

  // ---------- container events ----------

  lemma {:induction false} ProxyIpsSnoc(nets: map<string, NetworkInfo>, attached: seq<Endpoint>, e: Endpoint)
    ensures ProxyIps(nets, attached + [e]) == ProxyIps(nets, attached) + if e.net in nets then SubnetIps(nets[e.net].subnets, e.ip) else []
  {
    hide SubnetIps;
    var here := if e.net in nets then SubnetIps(nets[e.net].subnets, e.ip) else [];
    if attached == [] {
      assert attached + [e] == [e] && [e][1..] == [];
      assert ProxyIps(nets, [e]) == here + ProxyIps(nets, []) == here;
      assert [] + here == here;
    } else {
      ProxyIpsSnoc(nets, attached[1..], e);
      assert (attached + [e])[1..] == attached[1..] + [e];
    }
  }

  lemma {:induction false} SubnetIpsSnoc(subnets: seq<Subnet>, s: Subnet, ip: string)
    ensures SubnetIps(subnets + [s], ip) == SubnetIps(subnets, ip) + [Rewrite(ip, HostOctets(s.octet))]
  {
    hide Rewrite;
    if subnets == [] {
      assert subnets + [s] == [s] && [s][1..] == [];
    } else {
      SubnetIpsSnoc(subnets[1..], s, ip);
      assert (subnets + [s])[1..] == subnets[1..] + [s];
    }
  }

  /** The nested loop over the attachments of an inspected container and the subnets of their networks. */
  method ContainerIps(cache: Cache, attached: seq<Endpoint>) returns (ips: seq<string>)
    ensures ips == ProxyIps(cache.networkInfoByID, attached)
  {
    hide Rewrite, HostOctets, ProxyIps, SubnetIps;
    ips := [];
    assert ProxyIps(cache.networkInfoByID, []) == [] by { NoIps(cache.networkInfoByID, ""); }
    for i := 0 to |attached|
      invariant ips == ProxyIps(cache.networkInfoByID, attached[..i])
    {
      var e := attached[i];
      ProxyIpsSnoc(cache.networkInfoByID, attached[..i], e);
      assert attached[..i + 1] == attached[..i] + [e];
      if e.net !in cache.networkInfoByID { continue; }
      var subnets := cache.networkInfoByID[e.net].subnets;
      ghost var before := ips;
      NoIps(cache.networkInfoByID, e.ip);
      for j := 0 to |subnets|
        invariant ips == before + SubnetIps(subnets[..j], e.ip)
      {
        SubnetIpsSnoc(subnets[..j], subnets[j], e.ip);
        assert subnets[..j + 1] == subnets[..j] + [subnets[j]];
        ips := ips + [Rewrite(e.ip, HostOctets(subnets[j].octet))];
      }
      assert subnets[..|subnets|] == subnets;
    }
    assert attached[..|attached|] == attached;
  }

  lemma NoIps(nets: map<string, NetworkInfo>, ip: string)
    ensures ProxyIps(nets, []) == [] && SubnetIps([], ip) == []
  {
  }

  /** The cache is the shared part of a state of the model. */
  ghost predicate Mirrors(cache: Cache, w: World)
    reads cache
  {
    cache.networkInfoByID == w.ev.nets && cache.containerInfoByID == w.ev.conts && cache.proxyPortPIDsByContainerID == w.pids
  }

  /** The handler of a started container, which does what the model's acceptance of the event does. */
  method StartContainer(cache: Cache, id: string, pid: int, ports: seq<Port>, attached: seq<Endpoint>, ghost w: World) returns (info: ContainerInfo)
    requires w.ev.pc == Listening && Mirrors(cache, w)
    modifies cache
    ensures var w' := StepAccept(w, ContainerStart(id, pid, ports, attached));
            Mirrors(cache, w') && w'.ev.pc == SendingContainer(info) && w'.ev.csent == w.ev.csent + [info]
  {
    hide ProxyIps, Overwritten;
    var ips := ContainerIps(cache, attached);
    info := ContainerInfo(id, Start, pid, ports, ips);
    cache.AddContainerInfo(info);
  }

  /** The handler of a stopped container; of one not cached nothing is sent. */
  method StopContainer(cache: Cache, id: string, ghost w: World) returns (info: Option<ContainerInfo>)
    requires w.ev.pc == Listening && Mirrors(cache, w)
    modifies cache
    ensures var w' := StepAccept(w, ContainerStop(id));
            && Mirrors(cache, w')
            && w'.ev.pc == (if info.Some? then SendingContainer(info.value) else Listening)
            && w'.ev.csent == w.ev.csent + if info.Some? then [info.value] else []
  {
    var found := cache.DeleteContainerInfo(id);
    if found == None { return None; }
    return Some(found.value.(action := Stop));
  }

  // ---------- port proxies ----------

  predicate Startable(request: Request, pid: nat, starts: nat -> bool) {
    Proxied(request.proto) && starts(pid)
  }

  /** Requests that all start, given the PIDs from first on. */
  predicate AllStart(rs: seq<Request>, first: nat, starts: nat -> bool) {
    rs == [] || (Startable(rs[0], first, starts) && AllStart(rs[1..], first + 1, starts))
  }

  lemma {:induction false} AllStartJoin(rs: seq<Request>, more: seq<Request>, first: nat, starts: nat -> bool)
    ensures AllStart(rs + more, first, starts) <==> AllStart(rs, first, starts) && AllStart(more, first + |rs|, starts)
  {
    if rs == [] {
      assert rs + more == more;
    } else {
      AllStartJoin(rs[1..], more, first + 1, starts);
      assert (rs + more)[1..] == rs[1..] + more;
    }
  }

  lemma AllStartPrefix(rs: seq<Request>, all: seq<Request>, first: nat, starts: nat -> bool)
    requires rs <= all && AllStart(all, first, starts)
    ensures AllStart(rs, first, starts)
  {
    AllStartJoin(rs, all[|rs|..], first, starts);
    assert rs + all[|rs|..] == all;
  }

  /** The proxy processes, in the order they were started; a PID is a place in that order and never reused. */
  class PortProxies {
    const starts: nat -> bool
    var started: seq<Request>
    var killed: set<nat>

    constructor (starts: nat -> bool)
      ensures this.starts == starts && started == [] && killed == {}
    {
      this.starts, started, killed := starts, [], {};
    }

    /** AddPortProxy: refused without a command for the protocol, and starting one may fail; starts says of each PID. */
    method AddPortProxy(request: Request) returns (pid: Option<nat>)
      modifies `started
      ensures pid == if Startable(request, |old(started)|, starts) then Some(|old(started)|) else None
      ensures started == old(started) + if pid.Some? then [request] else []
    {
      if !Proxied(request.proto) { return None; }
      if !starts(|started|) { return None; }
      pid := Some(|started|);
      started := started + [request];
    }

    method RemovePortProxy(pid: nat)
      modifies `killed
      ensures killed == old(killed) + {pid}
    {
      killed := killed + {pid};
    }
  }

  lemma {:induction false} RequestsSnoc(ips: seq<string>, i: nat, ports: seq<Port>, pid: int)
    requires i < |ips|
    ensures RequestsFor(ips[..i + 1], ports, pid) == RequestsFor(ips[..i], ports, pid) + PortRequests(ips[i], ports, pid)
  {
    if i == 0 {
      assert ips[..1] == [ips[0]] && ips[..0] == [] && [ips[0]][1..] == [];
    } else {
      RequestsSnoc(ips[1..], i - 1, ports, pid);
      assert ips[..i + 1][1..] == ips[1..][..i] && ips[..i][1..] == ips[1..][..i - 1];
    }
  }

  /** The PIDs from one count of started proxies to another. */
  function Range(from: nat, to: nat): seq<nat>
    requires from <= to
  {
    seq(to - from, i requires 0 <= i < to - from => from + i)
  }

  /** The lists of all other containers are as before, and the one of id has the PIDs of the proxies started since. */
  predicate Recorded(pids: map<string, seq<nat>>, pids': map<string, seq<nat>>, id: string, from: nat, to: nat) {
    && from <= to && pids'.Keys <= pids.Keys + {id} && pids.Keys <= pids'.Keys
    && PidsOf(pids', id) == PidsOf(pids, id) + Range(from, to)
    && forall x | x in pids && x != id :: pids'[x] == pids[x]
  }

  lemma RecordedJoin(p: map<string, seq<nat>>, q: map<string, seq<nat>>, r: map<string, seq<nat>>, id: string, a: nat, b: nat, c: nat)
    requires Recorded(p, q, id, a, b) && Recorded(q, r, id, b, c)
    ensures Recorded(p, r, id, a, c)
  {
    assert Range(a, b) + Range(b, c) == Range(a, c);
    assert PidsOf(p, id) + Range(a, b) + Range(b, c) == PidsOf(p, id) + (Range(a, b) + Range(b, c));
  }

  lemma PrefixWithin(base: seq<Request>, done: seq<Request>, here: seq<Request>, all: seq<Request>, now: seq<Request>)
    requires done + here <= all && base + done <= now <= base + done + here
    ensures base <= now <= base + all
  {
    var rest := all[|done + here|..];
    assert all == done + here + rest;
    assert base + all == base + done + here + rest;
  }

  /** The inner loop of setupContainerPortProxy: one proxy per port on one address. */
  method StartPorts(cache: Cache, proxies: PortProxies, info: ContainerInfo, ip: string) returns (ok: bool)
    modifies cache`proxyPortPIDsByContainerID, proxies`started
    ensures old(proxies.started) <= proxies.started <= old(proxies.started) + PortRequests(ip, info.ports, info.pid)
    ensures ok <==> AllStart(PortRequests(ip, info.ports, info.pid), |old(proxies.started)|, proxies.starts)
    ensures ok ==> proxies.started == old(proxies.started) + PortRequests(ip, info.ports, info.pid)
    ensures Recorded(old(cache.proxyPortPIDsByContainerID), cache.proxyPortPIDsByContainerID, info.id, |old(proxies.started)|, |proxies.started|)
  {
    ghost var started, pids0 := proxies.started, cache.proxyPortPIDsByContainerID;
    ghost var here := PortRequests(ip, info.ports, info.pid);
    NoneYet(pids0, info, |started|);
    assert here[..0] == [];
    hide Recorded, PidsOf, Startable;
    for j := 0 to |info.ports|
      invariant proxies.started == started + here[..j] && AllStart(here[..j], |started|, proxies.starts)
      invariant Recorded(pids0, cache.proxyPortPIDsByContainerID, info.id, |started|, |proxies.started|)
    {
      var spec := info.ports[j];
      ghost var n, pids := |proxies.started|, cache.proxyPortPIDsByContainerID;
      assert here[..j + 1] == here[..j] + [here[j]];
      AllStartJoin(here[..j], [here[j]], |started|, proxies.starts);
      assert [here[j]][1..] == [];
      assert AllStart([here[j]], n, proxies.starts) == Startable(here[j], n, proxies.starts);
      var pid := proxies.AddPortProxy(Request(spec.proto, ip, spec.port, info.pid));
      if pid == None {
        if AllStart(here, |started|, proxies.starts) { AllStartPrefix(here[..j + 1], here, |started|, proxies.starts); }
        return false;
      }
      cache.AddProxyPortPID(info.id, pid.value);
      OneRecorded(pids, info.id, n);
      RecordedJoin(pids0, pids, cache.proxyPortPIDsByContainerID, info.id, |started|, n, n + 1);
    }
    assert here[..|here|] == here;
    return true;
  }

  /** Starts one proxy per address and port, in that order, and records each PID with its container; on an error the
      ones started so far stay. */
  method SetupContainerPortProxy(cache: Cache, proxies: PortProxies, info: ContainerInfo) returns (ok: bool)
    modifies cache`proxyPortPIDsByContainerID, proxies`started
    ensures old(proxies.started) <= proxies.started <= old(proxies.started) + Requests(info)
    ensures ok <==> AllStart(Requests(info), |old(proxies.started)|, proxies.starts)
    ensures ok ==> proxies.started == old(proxies.started) + Requests(info)
    ensures Recorded(old(cache.proxyPortPIDsByContainerID), cache.proxyPortPIDsByContainerID, info.id, |old(proxies.started)|, |proxies.started|)
  {
    ghost var started, pids0 := proxies.started, cache.proxyPortPIDsByContainerID;
    NoneYet(pids0, info, |started|);
    assert AllStart([], |started|, proxies.starts);
    hide *;
    for i := 0 to |info.ips|
      invariant proxies.started == started + RequestsFor(info.ips[..i], info.ports, info.pid)
      invariant AllStart(RequestsFor(info.ips[..i], info.ports, info.pid), |started|, proxies.starts)
      invariant Recorded(pids0, cache.proxyPortPIDsByContainerID, info.id, |started|, |proxies.started|)
    {
      ghost var n, pids := proxies.started, cache.proxyPortPIDsByContainerID;
      var started' := StartPorts(cache, proxies, info, info.ips[i]);
      RecordedJoin(pids0, pids, cache.proxyPortPIDsByContainerID, info.id, |started|, |n|, |proxies.started|);
      NextAddress(started, info, i, proxies.started);
      NextAllStart(info, i, |started|, proxies.starts);
      if !started' { return false; }
    }
    assert info.ips[..|info.ips|] == info.ips;
    AllRequests(started, info);
    return true;
  }

  lemma NextAllStart(info: ContainerInfo, i: nat, first: nat, starts: nat -> bool)
    requires i < |info.ips|
    ensures var front, here := RequestsFor(info.ips[..i], info.ports, info.pid), PortRequests(info.ips[i], info.ports, info.pid);
            && (AllStart(RequestsFor(info.ips[..i + 1], info.ports, info.pid), first, starts) <==>
                  AllStart(front, first, starts) && AllStart(here, first + |front|, starts))
            && (AllStart(Requests(info), first, starts) ==> AllStart(here, first + |front|, starts))
  {
    hide RequestsFor, PortRequests, AllStart;
    var front, here := RequestsFor(info.ips[..i], info.ports, info.pid), PortRequests(info.ips[i], info.ports, info.pid);
    RequestsSnoc(info.ips, i, info.ports, info.pid);
    AllStartJoin(front, here, first, starts);
    if AllStart(Requests(info), first, starts) {
      RequestsPrefix(info.ips, i + 1, info.ports, info.pid);
      AllStartPrefix(front + here, Requests(info), first, starts);
    }
  }

  lemma NoneYet(pids: map<string, seq<nat>>, info: ContainerInfo, n: nat)
    ensures Recorded(pids, pids, info.id, n, n) && RequestsFor(info.ips[..0], info.ports, info.pid) == []
  {
  }

  lemma AllRequests(started: seq<Request>, info: ContainerInfo)
    ensures RequestsFor(info.ips, info.ports, info.pid) == Requests(info)
    ensures started <= started + Requests(info)
  {
  }

  lemma NextAddress(started: seq<Request>, info: ContainerInfo, i: nat, now: seq<Request>)
    requires i < |info.ips|
    requires var from := started + RequestsFor(info.ips[..i], info.ports, info.pid);
             from <= now <= from + PortRequests(info.ips[i], info.ports, info.pid)
    ensures started <= now <= started + Requests(info)
    ensures now == started + RequestsFor(info.ips[..i], info.ports, info.pid) + PortRequests(info.ips[i], info.ports, info.pid) ==>
              now == started + RequestsFor(info.ips[..i + 1], info.ports, info.pid)
  {
    hide RequestsFor, PortRequests;
    var done, here := RequestsFor(info.ips[..i], info.ports, info.pid), PortRequests(info.ips[i], info.ports, info.pid);
    RequestsSnoc(info.ips, i, info.ports, info.pid);
    RequestsPrefix(info.ips, i + 1, info.ports, info.pid);
    PrefixWithin(started, done, here, Requests(info), now);
    assert started + done + here == started + (done + here);
  }

  lemma {:induction false} RequestsPrefix(ips: seq<string>, i: nat, ports: seq<Port>, pid: int)
    requires i <= |ips|
    ensures RequestsFor(ips[..i], ports, pid) <= RequestsFor(ips, ports, pid)
    decreases |ips| - i
  {
    if i == |ips| {
      assert ips[..i] == ips;
    } else {
      RequestsPrefix(ips, i + 1, ports, pid);
      RequestsSnoc(ips, i, ports, pid);
    }
  }

  /** Kills every proxy recorded for the container, then forgets them. */
  method SetdownContainerPortProxy(cache: Cache, proxies: PortProxies, info: ContainerInfo)
    modifies cache`proxyPortPIDsByContainerID, proxies`killed
    ensures proxies.killed == old(proxies.killed) + (set p | p in PidsOf(old(cache.proxyPortPIDsByContainerID), info.id))
    ensures cache.proxyPortPIDsByContainerID == old(cache.proxyPortPIDsByContainerID)[info.id := []]
  {
    var list := PidsOf(cache.proxyPortPIDsByContainerID, info.id);
    for i := 0 to |list|
      invariant proxies.killed == old(proxies.killed) + set p | p in list[..i]
      invariant cache.proxyPortPIDsByContainerID == old(cache.proxyPortPIDsByContainerID)
    {
      proxies.RemovePortProxy(list[i]);
      assert list[..i + 1] == list[..i] + [list[i]];
    }
    assert list[..|list|] == list;
    cache.DeleteProxyPortPIDs(info.id);
  }

  /** The main loop alone, from one point of a container handler until it is back at its select; None is a panic. */
  function RunContainer(m: Main, pids: map<string, seq<nat>>, starts: nat -> bool): Option<(Main, map<string, seq<nat>>)>
    decreases Ahead(m.pc, pids)
  {
    if !Handling(m.pc) then Some((m, pids))
    else
      match ContainerMove(m, pids, starts(|m.spawned|))
      case Some((m', pids')) => RunContainer(m', pids', starts)
      case None => None
  }

  /** Starting one proxy and recording its PID. */
  lemma SpawnAndRecord(m: Main, pids: map<string, seq<nat>>, starts: nat -> bool)
    requires m.pc.Spawning? && m.pc.k < |Requests(m.pc.container)|
    ensures var c, k, p := m.pc.container, m.pc.k, |m.spawned|;
            RunContainer(m, pids, starts) ==
              if !Startable(Requests(c)[k], p, starts) then None
              else
                RunContainer(m.(pc := Spawning(c, k + 1), live := m.live[p := Proxy(c.id, k, Requests(c)[k])], spawned := m.spawned + [c.id]),
                             pids[c.id := PidsOf(pids, c.id) + [p]], starts)
  {
    hide Requests;
    if Startable(Requests(m.pc.container)[m.pc.k], |m.spawned|, starts) {
      var (m1, pids1) := ContainerMove(m, pids, true).value;
      var (m2, pids2) := ContainerMove(m1, pids1, true).value;
      assert ContainerMove(m1, pids1, starts(|m1.spawned|)) == Some((m2, pids2));
      assert RunContainer(m, pids, starts) == RunContainer(m1, pids1, starts) == RunContainer(m2, pids2, starts);
    }
  }

  /** What SetupContainerPortProxy leaves behind when it has the requests of c from number k on ahead of it: they have become
      live proxies in order, and exactly their PIDs are added to the list of c. */
  predicate AllStarted(m: Main, pids: map<string, seq<nat>>, m': Main, pids': map<string, seq<nat>>, c: ContainerInfo, k: nat)
    requires k <= |Requests(c)|
  {
    var first, n := |m.spawned|, |Requests(c)| - k;
    && m'.pc == Selecting && m'.rules == m.rules && m'.killed == m.killed
    && m'.spawned == m.spawned + seq(n, _ => c.id)
    && Recorded(pids, pids', c.id, first, first + n)
    && (forall p | p in m.live && p < first :: p in m'.live && m'.live[p] == m.live[p])
    && (forall p | first <= p < first + n :: p in m'.live && m'.live[p] == Proxy(c.id, k + p - first, Requests(c)[k + p - first]))
  }

  lemma OneMoreStarted(m: Main, pids: map<string, seq<nat>>, m2: Main, m': Main, pids': map<string, seq<nat>>, c: ContainerInfo, k: nat)
    requires k < |Requests(c)|
    requires m2.spawned == m.spawned + [c.id] && m2.rules == m.rules && m2.killed == m.killed
    requires m2.live == m.live[|m.spawned| := Proxy(c.id, k, Requests(c)[k])]
    requires AllStarted(m2, pids[c.id := PidsOf(pids, c.id) + [|m.spawned|]], m', pids', c, k + 1)
    ensures AllStarted(m, pids, m', pids', c, k)
  {
    hide Requests;
    var first, n := |m.spawned|, |Requests(c)| - k;
    OneRecorded(pids, c.id, first);
    RecordedJoin(pids, pids[c.id := PidsOf(pids, c.id) + [first]], pids', c.id, first, first + 1, first + n);
    hide Recorded;
    assert m.spawned + [c.id] + seq(n - 1, _ => c.id) == m.spawned + seq(n, _ => c.id);
  }

  lemma OneRecorded(pids: map<string, seq<nat>>, id: string, p: nat)
    ensures Recorded(pids, pids[id := PidsOf(pids, id) + [p]], id, p, p + 1)
  {
    assert Range(p, p + 1) == [p];
  }

  /** Undisturbed, the steps of the model for a started container do what SetupContainerPortProxy does, and panic exactly when
      it fails. */
  lemma {:induction false} SpawningIsLoop(m: Main, pids: map<string, seq<nat>>, starts: nat -> bool)
    requires m.pc.Spawning? && m.pc.k <= |Requests(m.pc.container)|
    ensures RunContainer(m, pids, starts).Some? <==> AllStart(Requests(m.pc.container)[m.pc.k..], |m.spawned|, starts)
    ensures RunContainer(m, pids, starts).Some? ==>
      var (m', pids') := RunContainer(m, pids, starts).value;
      AllStarted(m, pids, m', pids', m.pc.container, m.pc.k)
    decreases |Requests(m.pc.container)| - m.pc.k
  {
    var c, k, first := m.pc.container, m.pc.k, |m.spawned|;
    if k == |Requests(c)| {
      hide Requests;
      assert PidsOf(pids, c.id) + Range(first, first) == PidsOf(pids, c.id);
      assert RunContainer(m.(pc := Selecting), pids, starts) == Some((m.(pc := Selecting), pids));
    } else {
      hide Requests, RunContainer, ContainerMove, AllStarted, PidsOf, Startable;
      assert Requests(c)[k..][1..] == Requests(c)[k + 1..];
      SpawnAndRecord(m, pids, starts);
      if Startable(Requests(c)[k], first, starts) {
        var m2 := m.(pc := Spawning(c, k + 1), live := m.live[first := Proxy(c.id, k, Requests(c)[k])], spawned := m.spawned + [c.id]);
        var pids2 := pids[c.id := PidsOf(pids, c.id) + [first]];
        SpawningIsLoop(m2, pids2, starts);
        if RunContainer(m2, pids2, starts).Some? {
          OneMoreStarted(m, pids, m2, RunContainer(m2, pids2, starts).value.0, RunContainer(m2, pids2, starts).value.1, c, k);
        }
      }
    }
  }

  function Elements(list: seq<nat>): set<nat> {
    set p | p in list
  }

  lemma FirstElement(list: seq<nat>, k: nat)
    requires k < |list|
    ensures list[k..] == [list[k]] + list[k + 1..] && Elements(list[k..]) == {list[k]} + Elements(list[k + 1..])
  {
    assert list[k..] == [list[k]] + list[k + 1..];
  }

  /** And for a stopped container they are SetdownContainerPortProxy: every PID read from the list is killed, in order. */
  lemma {:induction false} KillingIsLoop(m: Main, pids: map<string, seq<nat>>, starts: nat -> bool)
    requires m.pc.Killing? && m.pc.k <= |m.pc.list|
    ensures var rest := m.pc.list[m.pc.k..];
            RunContainer(m, pids, starts) ==
              Some((m.(pc := Selecting, live := m.live - Elements(rest), killed := m.killed + rest), pids[m.pc.container.id := []]))
    decreases |m.pc.list| - m.pc.k
  {
    var c, list, k := m.pc.container, m.pc.list, m.pc.k;
    if k == |list| {
      var m' := m.(pc := Selecting);
      assert m.live - Elements(list[k..]) == m.live && m.killed + list[k..] == m.killed;
      assert RunContainer(m', pids[c.id := []], starts) == Some((m', pids[c.id := []]));
    } else {
      var m' := m.(pc := Killing(c, list, k + 1), live := m.live - {list[k]}, killed := m.killed + [list[k]]);
      assert RunContainer(m, pids, starts) == RunContainer(m', pids, starts);
      hide RunContainer, ContainerMove, Elements;
      KillingIsLoop(m', pids, starts);
      FirstElement(list, k);
      assert m.live - {list[k]} - Elements(list[k + 1..]) == m.live - Elements(list[k..]);
      assert m.killed + [list[k]] + list[k + 1..] == m.killed + list[k..];
    }
  }
}
