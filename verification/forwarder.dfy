/** The forwarder as two processes: the event goroutine of dind/docker.go and the main loop of dind/main.go, joined
    by two unbuffered channels. Every statement that touches shared state is a step of its own, so a run may
    interleave the two processes anywhere inside a half-finished handler. */
module Forwarder {
  import opened Wrappers
  import opened Dotted
  import opened Octets
  import opened DindTypes

  /** Where the event goroutine is. */
  datatype EventPc =
    | Listening
    | Marking(id: string, todo: seq<string>, subnets: seq<Subnet>)
    | Freeing(net: NetworkInfo, i: nat)
    | SendingNetwork(net: NetworkInfo)
    | SendingContainer(container: ContainerInfo)
    | Finished

  /** Where the main loop is. */
  datatype MainPc =
    | Selecting
    | Installing(net: NetworkInfo, i: nat)
    | Removing(net: NetworkInfo, i: nat)
    | Spawning(container: ContainerInfo, k: nat)
    | Recording(container: ContainerInfo, k: nat, proxy: nat)
    | Reading(container: ContainerInfo)
    | Killing(container: ContainerInfo, list: seq<nat>, k: nat)

  /** A proxy process: the container it serves, its number among that container's requests, what it listens on. */
  datatype Proxy = Proxy(owner: string, k: nat, request: Request)

  /** The event goroutine's part: table of octets, cached networks and containers; as history the messages formed so
      far and the attachments the running containers were inspected with. */
  datatype Events = Events(
    pc: EventPc,
    used: set<nat>,
    nets: map<string, NetworkInfo>,
    conts: map<string, ContainerInfo>,
    sent: seq<NetworkInfo>,
    csent: seq<ContainerInfo>,
    endpoints: map<string, seq<Endpoint>>)

  /** The main loop's part: installed rules and live proxies; as history the owners of all proxies ever spawned (a PID
      is its index), the kills, and how many messages were received. */
  datatype Main = Main(
    pc: MainPc,
    rules: set<Rule>,
    live: map<nat, Proxy>,
    spawned: seq<string>,
    killed: seq<nat>,
    received: nat,
    creceived: nat)

  /** Both parts, the cached PID lists they share, and the PIDs overwritten in that cache. */
  datatype World = World(ev: Events, mn: Main, pids: map<string, seq<nat>>, lost: set<nat>, down: bool)

  datatype Act =
    | NetworkCreate(id: string, subnets: seq<string>)
    | NetworkDestroy(id: string)
    | ContainerStart(id: string, pid: int, ports: seq<Port>, attached: seq<Endpoint>)
    | ContainerStop(id: string)
    | EventStep
    | Eof
    | Deliver
    | MainStep(ok: bool)
    | Exit

  const INIT := World(
    Events(Listening, {}, map[], map[], [], [], map[]),
    Main(Selecting, {}, map[], [], [], 0, 0),
    map[], {}, false)

  function PidsOf(pids: map<string, seq<nat>>, id: string): seq<nat> {
    if id in pids then pids[id] else []
  }

  /** An event handed to the idle event goroutine, as far as its own part goes. */
  function Accept(e: Events, a: Act): Events
    requires e.pc == Listening
  {
    match a
    case NetworkCreate(id, subnets) => e.(pc := Marking(id, subnets, []))
    case NetworkDestroy(id) => if id in e.nets then e.(pc := Freeing(e.nets[id], 0)) else e
    case ContainerStart(id, pid, ports, attached) =>
      var info := ContainerInfo(id, Start, pid, ports, ProxyIps(e.nets, attached));
      e.(pc := SendingContainer(info), conts := e.conts[id := info], csent := e.csent + [info], endpoints := e.endpoints[id := attached])
    case ContainerStop(id) =>
      if id in e.conts then
        var info := e.conts[id].(action := Stop);
        e.(pc := SendingContainer(info), conts := e.conts - {id}, csent := e.csent + [info], endpoints := e.endpoints - {id})
      else e
    case Eof => e.(pc := Finished)
    case _ => e
  }

  /** The PIDs that resetting a container's list drops for good: those main has not already loaded in order to kill them. */
  function Overwritten(m: Main, pids: map<string, seq<nat>>, id: string): set<nat> {
    (set p | p in PidsOf(pids, id)) - (if m.pc.Killing? then set p | p in m.pc.list else {})
  }

  /** One statement of the event goroutine inside a network handler; None is the allocator's panic. */
  function EventMove(e: Events): Option<Events> {
    match e.pc
    case Marking(id, todo, subnets) =>
      if todo == [] then
        var info := NetworkInfo(id, Create, subnets);
        Some(e.(pc := SendingNetwork(info), nets := e.nets[id := info], sent := e.sent + [info]))
      else
        var o := LeastFree(e.used);
        if o == 256 then None
        else Some(e.(pc := Marking(id, todo[1..], subnets + [MakeSubnet(todo[0], o)]), used := e.used + {o}))
    case Freeing(net, i) =>
      if i < |net.subnets| then Some(e.(pc := Freeing(net, i + 1), used := e.used - {net.subnets[i].octet}))
      else
        var info := net.(action := Destroy);
        Some(e.(pc := SendingNetwork(info), nets := e.nets - {net.id}, sent := e.sent + [info]))
    case _ => Some(e)
  }

  /** Main's half of the rendezvous with an event goroutine blocked on a send. */
  function Take(m: Main, from: EventPc): Main
    requires m.pc == Selecting
  {
    match from
    case SendingNetwork(net) =>
      m.(pc := if net.action == Create then Installing(net, 0) else Removing(net, 0), received := m.received + 1)
    case SendingContainer(container) =>
      m.(pc := if container.action == Start then Spawning(container, 0) else Reading(container), creceived := m.creceived + 1)
    case _ => m
  }

  /** One statement of a network handler of the main loop; None is a panic. An IPv4 iptables refuses a destination
      that is not an IPv4 subnet, and Delete refuses a rule that is not there, which ends the teardown. */
  function NetworkMove(m: Main, ok: bool): Option<Main>
    requires m.pc.Installing? || m.pc.Removing?
  {
    var net, i := m.pc.net, m.pc.i;
    if i >= |net.subnets| then Some(m.(pc := Selecting))
    else if m.pc.Installing? then
      if !ok || ParseCidr(net.subnets[i].docker).None? then None
      else Some(m.(pc := Installing(net, i + 1), rules := m.rules + {RuleOf(net.subnets[i])}))
    else
      if RuleOf(net.subnets[i]) !in m.rules then Some(m.(pc := Selecting))
      else Some(m.(pc := Removing(net, i + 1), rules := m.rules - {RuleOf(net.subnets[i])}))
  }

  /** The protocols createSocatCommand has a command for; with any other the nil command is dereferenced. */
  predicate Proxied(proto: string) {
    proto == "tcp" || proto == "udp"
  }

  /** One statement of a container handler of the main loop, with the PID lists after it; None is a panic. */
  function ContainerMove(m: Main, pids: map<string, seq<nat>>, ok: bool): Option<(Main, map<string, seq<nat>>)>
    requires m.pc.Spawning? || m.pc.Recording? || m.pc.Reading? || m.pc.Killing?
  {
    var id := m.pc.container.id;
    match m.pc
    case Spawning(container, k) =>
      var rs := Requests(container);
      if k >= |rs| then Some((m.(pc := Selecting), pids))
      else if !ok || !Proxied(rs[k].proto) then None
      else
        var p := |m.spawned|;
        Some((m.(pc := Recording(container, k, p), live := m.live[p := Proxy(id, k, rs[k])], spawned := m.spawned + [id]), pids))
    case Recording(container, k, p) => Some((m.(pc := Spawning(container, k + 1)), pids[id := PidsOf(pids, id) + [p]]))
    case Reading(container) => Some((m.(pc := Killing(container, PidsOf(pids, id), 0)), pids))
    case Killing(container, list, k) =>
      if k < |list| then
        Some((m.(pc := Killing(container, list, k + 1), live := m.live - {list[k]}, killed := m.killed + [list[k]]), pids))
      else Some((m.(pc := Selecting), pids[id := []]))
  }

  /** Main is inside a container handler. */
  predicate Handling(pc: MainPc) {
    pc.Spawning? || pc.Recording? || pc.Reading? || pc.Killing?
  }

  /** The statements main has ahead of it in a handler. */
  function Ahead(pc: MainPc, pids: map<string, seq<nat>>): nat {
    match pc
    case Selecting => 0
    case Installing(net, i) => if i <= |net.subnets| then |net.subnets| - i + 1 else 1
    case Removing(net, i) => if i <= |net.subnets| then |net.subnets| - i + 1 else 1
    case Spawning(c, k) => if k <= |Requests(c)| then 2 * (|Requests(c)| - k) + 1 else 1
    case Recording(c, k, _) => if k < |Requests(c)| then 2 * (|Requests(c)| - k) else 2
    case Reading(c) => |PidsOf(pids, c.id)| + 2
    case Killing(_, list, k) => if k <= |list| then |list| - k + 1 else 1
  }

  /** The statements the event goroutine has ahead of it before it sends. */
  function EventsAhead(pc: EventPc): nat {
    match pc
    case Marking(_, todo, _) => |todo| + 1
    case Freeing(net, i) => if i <= |net.subnets| then |net.subnets| - i + 1 else 1
    case _ => 0
  }

  function StepMain(w: World, ok: bool): World {
    if w.mn.pc == Selecting then w
    else if w.mn.pc.Installing? || w.mn.pc.Removing? then
      match NetworkMove(w.mn, ok)
      case Some(m) => w.(mn := m)
      case None => w.(down := true)
    else
      match ContainerMove(w.mn, w.pids, ok)
      case Some((m, pids)) => w.(mn := m, pids := pids)
      case None => w.(down := true)
  }

  function StepEvents(w: World): World {
    match EventMove(w.ev)
    case Some(e) => w.(ev := e)
    case None => w.(down := true)
  }

  /** A docker event reaches the event goroutine; starting a container also resets its list of PIDs. */
  function StepAccept(w: World, a: Act): World
    requires w.ev.pc == Listening
  {
    var e := Accept(w.ev, a);
    if a.ContainerStart? then
      w.(ev := e, pids := w.pids[a.id := []], lost := w.lost + Overwritten(w.mn, w.pids, a.id))
    else w.(ev := e)
  }

  /** The rendezvous: main's select receives what the event goroutine is blocked on, or the closed channels. */
  function StepDeliver(w: World): World
    requires w.mn.pc == Selecting
  {
    if w.ev.pc.SendingNetwork? || w.ev.pc.SendingContainer? then w.(ev := w.ev.(pc := Listening), mn := Take(w.mn, w.ev.pc))
    else if w.ev.pc == Finished then w.(down := true)
    else w
  }

  /** A step of either process; an action that is not enabled changes nothing. */
  function Step(w: World, a: Act): World {
    if w.down then w
    else
      match a
      case EventStep => StepEvents(w)
      case Deliver => if w.mn.pc == Selecting then StepDeliver(w) else w
      case MainStep(ok) => StepMain(w, ok)
      case Exit => if w.mn.pc == Selecting then w.(down := true) else w
      case _ => if w.ev.pc == Listening then StepAccept(w, a) else w
  }

  /** The state after any interleaving. */
  function Exec(acts: seq<Act>): World {
    if acts == [] then INIT else Step(Exec(acts[..|acts| - 1]), acts[|acts| - 1])
  }
}
