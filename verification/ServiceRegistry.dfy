/** The commands of the service center, and what each does to the service map. */
module RegistrySpec {
  import opened Options

  datatype Node = Node(addr: string, lastSeen: int)

  type Services = map<string, Node>

  const BUFFER_SIZE: nat := 1024

  // ---------- reading a request ----------

  /** Position of the first `c`, or the length. */
  function FirstOf(s: string, c: char): (n: nat)
    ensures n <= |s| && c !in s[..n] && (n < |s| ==> s[n] == c)
  {
    if s == [] || s[0] == c then 0
    else
      var n := FirstOf(s[1..], c);
      assert s[..n + 1] == [s[0]] + s[1..][..n];
      1 + n
  }

  /** What the receive buffer holds as a C string: at most 1023 characters, up to the first NUL. */
  function Received(raw: string): string {
    var s := if |raw| < BUFFER_SIZE then raw else raw[..BUFFER_SIZE - 1];
    s[..FirstOf(s, '\0')]
  }

  datatype NamedAddr = NamedAddr(name: string, addr: string)

  /** `name addr`, both non-empty; the address is everything behind the first space. */
  function ParseServiceAndAddr(content: string): Option<NamedAddr> {
    var split := FirstOf(content, ' ');
    if split == |content| then None
    else
      var name, addr := content[..split], content[split + 1..];
      if name == "" || addr == "" then None else Some(NamedAddr(name, addr))
  }

  datatype Command =
    | Put(operator: string, name: string, addr: string)
    | Modify(name: string, addr: string)
    | Delete(name: string)
    | Lookup
    | Invalid
    | Unknown

  function ParseCommand(command: string): Command {
    var opEnd := FirstOf(command, ' ');
    var op := command[..opEnd];
    var content := if opEnd == |command| then "" else command[opEnd + 1..];
    if op == "add" || op == "heartbeat" then
      match ParseServiceAndAddr(content)
      case None => Invalid
      case Some(x) => Put(op, x.name, x.addr)
    else if op == "delete" then Delete(content)
    else if op == "lookup" then Lookup
    else if op == "modify" then
      match ParseServiceAndAddr(content)
      case None => Invalid
      case Some(x) => Modify(x.name, x.addr)
    else Unknown
  }

  // ---------- carrying it out ----------

  /** What is sent back; a lookup lists names with their addresses. */
  datatype Reply =
    | Silence
    | Success(operator: string)
    | NotExist
    | InvalidCommand
    | UnknownCommand
    | NoServices
    | Listing(entries: map<string, string>)
    | Address(addr: string)
    | UnknownHost

  datatype Done = Done(services: Services, reply: Reply)

  predicate Expired(node: Node, ttl: int, now: int) {
    now - node.lastSeen > ttl
  }

  function Pruned(m: Services, ttl: int, now: int): Services {
    map name | name in m && !Expired(m[name], ttl, now) :: m[name]
  }

  function Execute(m: Services, ttl: int, c: Command, now: int): Done {
    match c
    case Put(op, name, addr) => Done(m[name := Node(addr, now)], Success(op))
    case Delete(name) =>
      if name in m then Done(m - {name}, Success("delete")) else Done(m, NotExist)
    case Lookup =>
      var p := Pruned(m, ttl, now);
      Done(p, if p == map[] then NoServices else Listing(map name | name in p :: p[name].addr))
    case Modify(name, addr) =>
      if name in m then Done(m[name := Node(addr, now)], Success("modify")) else Done(m, NotExist)
    case Invalid => Done(m, InvalidCommand)
    case Unknown => Done(m, UnknownCommand)
  }

  /** A query forgets an expired entry it runs into. */
  function Resolve(m: Services, ttl: int, name: string, now: int): Done {
    if name !in m then Done(m, UnknownHost)
    else if Expired(m[name], ttl, now) then Done(m - {name}, UnknownHost)
    else Done(m, Address(m[name].addr))
  }

  datatype Request = Control(raw: string) | Query(raw: string)

  /** One request; an empty one is ignored. */
  function Handle(m: Services, ttl: int, r: Request, now: int): Done {
    if r.raw == "" then Done(m, Silence)
    else
      match r
      case Control(raw) => Execute(m, ttl, ParseCommand(Received(raw)), now)
      case Query(raw) => Resolve(m, ttl, Received(raw), now)
  }
}

/** The service center object. */
module ServiceRegistry {
  import opened Options
  import opened RegistrySpec

  class Registry {
    const ttl: int
    var services: Services

    constructor (ttl: int)
      ensures this.ttl == ttl && services == map[]
    {
      this.ttl, services := ttl, map[];
    }

    /** Erase every expired entry, one after the other. */
    method PruneExpiredServices(now: int)
      modifies this
      ensures services == Pruned(old(services), ttl, now)
    {
      var todo := services.Keys;
      while todo != {}
        invariant todo <= services.Keys <= old(services).Keys
        invariant forall name :: name in services ==> services[name] == old(services)[name]
        invariant forall name :: name in old(services) && name !in todo ==>
          (name in services <==> !Expired(old(services)[name], ttl, now))
        decreases |todo|
      {
        var name :| name in todo;
        todo := todo - {name};
        if Expired(services[name], ttl, now) {
          services := services - {name};
        }
      }
    }

    /** One command on the control port. */
    method HandleControl(raw: string, now: int) returns (reply: Reply)
      modifies this
      ensures Done(services, reply) == Handle(old(services), ttl, Control(raw), now)
    {
      if raw == "" {
        return Silence;
      }
      match ParseCommand(Received(raw))
      case Put(op, name, addr) =>
        services := services[name := Node(addr, now)];
        reply := Success(op);
      case Delete(name) =>
        if name !in services {
          reply := NotExist;
        } else {
          services := services - {name};
          reply := Success("delete");
        }
      case Lookup =>
        PruneExpiredServices(now);
        if services == map[] {
          reply := NoServices;
        } else {
          reply := Listing(map name | name in services :: services[name].addr);
        }
      case Modify(name, addr) =>
        if name !in services {
          reply := NotExist;
        } else {
          services := services[name := Node(addr, now)];
          reply := Success("modify");
        }
      case Invalid => reply := InvalidCommand;
      case Unknown => reply := UnknownCommand;
    }

    /** One name on the query port. */
    method HandleQuery(raw: string, now: int) returns (reply: Reply)
      modifies this
      ensures Done(services, reply) == Handle(old(services), ttl, Query(raw), now)
    {
      if raw == "" {
        return Silence;
      }
      var name := Received(raw);
      if name !in services || Expired(services[name], ttl, now) {
        if name in services {
          services := services - {name};
        }
        reply := UnknownHost;
      } else {
        reply := Address(services[name].addr);
      }
    }
  }
}
