/** Values of dind/types.go and the folds that say what a history of messages amounts to. */
module DindTypes {
  import opened Dotted

  datatype Action = Create | Destroy | Start | Stop

  datatype Subnet = Subnet(docker: string, proxy: string, octet: nat)

  datatype NetworkInfo = NetworkInfo(id: string, action: Action, subnets: seq<Subnet>)

  datatype Port = Port(proto: string, port: nat)

  datatype ContainerInfo = ContainerInfo(id: string, action: Action, pid: int, ports: seq<Port>, ips: seq<string>)

  /** One network attachment of an inspected container. */
  datatype Endpoint = Endpoint(net: string, ip: string)

  /** -t nat OUTPUT -d docker -j NETMAP --to target */
  datatype Rule = Rule(docker: string, target: string)

  /** What a port proxy listens on, and for whom. */
  datatype Request = Request(proto: string, hostIp: string, hostPort: nat, childPid: int)

  function MakeSubnet(docker: string, octet: nat): Subnet {
    Subnet(docker, Rewrite(docker, HostOctets(octet)), octet)
  }

  function RuleOf(s: Subnet): Rule {
    Rule(s.docker, s.proxy)
  }

  function RulesOf(subnets: seq<Subnet>): set<Rule> {
    set s | s in subnets :: RuleOf(s)
  }

  function OctetsOf(subnets: seq<Subnet>): set<nat> {
    set s | s in subnets :: s.octet
  }

  /** The proxy addresses of a container: for every attachment to a known network, one per subnet of it. */
  function ProxyIps(nets: map<string, NetworkInfo>, endpoints: seq<Endpoint>): seq<string> {
    if endpoints == [] then []
    else
      (if endpoints[0].net in nets then SubnetIps(nets[endpoints[0].net].subnets, endpoints[0].ip) else [])
      + ProxyIps(nets, endpoints[1..])
  }

  function SubnetIps(subnets: seq<Subnet>, ip: string): seq<string> {
    if subnets == [] then []
    else [Rewrite(ip, HostOctets(subnets[0].octet))] + SubnetIps(subnets[1..], ip)
  }

  /** The proxies a started container asks for, address by address and port by port. */
  function Requests(info: ContainerInfo): seq<Request> {
    RequestsFor(info.ips, info.ports, info.pid)
  }

  function RequestsFor(ips: seq<string>, ports: seq<Port>, pid: int): seq<Request> {
    if ips == [] then [] else PortRequests(ips[0], ports, pid) + RequestsFor(ips[1..], ports, pid)
  }

  function PortRequests(ip: string, ports: seq<Port>, pid: int): (r: seq<Request>)
    ensures |r| == |ports|
  {
    seq(|ports|, i requires 0 <= i < |ports| => Request(ports[i].proto, ip, ports[i].port, pid))
  }

  // ---------- what a history of network messages amounts to ----------

  /** The networks alive after the messages, each as last announced. */
  function Alive(msgs: seq<NetworkInfo>): map<string, NetworkInfo> {
    if msgs == [] then map[]
    else
      var m := msgs[|msgs| - 1];
      var before := Alive(msgs[..|msgs| - 1]);
      if m.action == Create then before[m.id := m] else before - {m.id}
  }

  /** The octets taken after the messages. */
  function Marked(msgs: seq<NetworkInfo>): set<nat> {
    if msgs == [] then {}
    else
      var m := msgs[|msgs| - 1];
      var before := Marked(msgs[..|msgs| - 1]);
      if m.action == Create then before + OctetsOf(m.subnets) else before - OctetsOf(m.subnets)
  }

  /** The rules left after the messages have been acted on in order. */
  function Applied(msgs: seq<NetworkInfo>): set<Rule> {
    if msgs == [] then {}
    else
      var m := msgs[|msgs| - 1];
      var before := Applied(msgs[..|msgs| - 1]);
      if m.action == Create then before + RulesOf(m.subnets) else before - RulesOf(m.subnets)
  }

  /** The octets owned by the networks of a map. */
  function OwnedOctets(nets: map<string, NetworkInfo>): set<nat> {
    set id, s | id in nets && s in nets[id].subnets :: s.octet
  }

  /** The rules of the networks of a map. */
  function OwnedRules(nets: map<string, NetworkInfo>): set<Rule> {
    set id, s | id in nets && s in nets[id].subnets :: RuleOf(s)
  }

  // ---------- what a history of container messages amounts to ----------

  /** The containers running after the messages. */
  function Running(msgs: seq<ContainerInfo>): map<string, ContainerInfo> {
    if msgs == [] then map[]
    else
      var m := msgs[|msgs| - 1];
      var before := Running(msgs[..|msgs| - 1]);
      if m.action == Start then before[m.id := m] else before - {m.id}
  }
}
