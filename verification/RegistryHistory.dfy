/**
 The lazily pruned service map against the history of requests. However and
 whenever entries were pruned, a query is answered as the history says: with the
 address of the latest successful registration that is young enough.
 */
module RegistryHistory {
  import opened Options
  import opened RegistrySpec

  /** A request, when it was handled, and what was replied. */
  datatype Record = Record(request: Request, now: int, reply: Reply)

  datatype Center = Center(services: Services, clock: int, history: seq<Record>)

  /** The clock is read once per request and never goes back. */
  function Step(s: Center, ttl: int, r: Request, now: int): Center {
    if now < s.clock then s
    else
      var d := Handle(s.services, ttl, r, now);
      Center(d.services, now, s.history + [Record(r, now, d.reply)])
  }

  datatype Timed = Timed(request: Request, now: int)

  function Run(s: Center, ttl: int, input: seq<Timed>): Center
    decreases |input|
  {
    if input == [] then s else Run(Step(s, ttl, input[0].request, input[0].now), ttl, input[1..])
  }

  // ---------- what the history says ----------

  /** What a record did to `name`: nothing, registered it, or removed it; only successful commands count. */
  datatype Mark = Nothing | Registered(node: Node) | Removed

  function CommandMark(c: Command, reply: Reply, now: int, name: string): Mark {
    match c
    case Put(op, n, addr) => if n == name && reply == Success(op) then Registered(Node(addr, now)) else Nothing
    case Modify(n, addr) => if n == name && reply == Success("modify") then Registered(Node(addr, now)) else Nothing
    case Delete(n) => if n == name && reply == Success("delete") then Removed else Nothing
    case _ => Nothing
  }

  function MarkOf(e: Record, name: string): Mark {
    if e.request.raw == "" || e.request.Query? then Nothing
    else CommandMark(ParseCommand(Received(e.request.raw)), e.reply, e.now, name)
  }

  /** What the marks on a name amount to: the last registration, unless it was removed later. */
  function LatestMark(marks: seq<Mark>): Option<Node> {
    if marks == [] then None
    else
      match marks[|marks| - 1]
      case Registered(node) => Some(node)
      case Removed => None
      case Nothing => LatestMark(marks[..|marks| - 1])
  }

  function MarksOf(h: seq<Record>, name: string): (m: seq<Mark>)
    ensures |m| == |h|
  {
    seq(|h|, i requires 0 <= i < |h| => MarkOf(h[i], name))
  }

  /** The latest successful registration of `name` that no successful delete followed. */
  function Latest(h: seq<Record>, name: string): Option<Node> {
    LatestMark(MarksOf(h, name))
  }

  /** `name` is registered and young enough at `now`. */
  predicate Visible(h: seq<Record>, ttl: int, name: string, now: int) {
    Latest(h, name).Some? && !Expired(Latest(h, name).value, ttl, now)
  }

  function Answer(h: seq<Record>, ttl: int, name: string, now: int): Reply {
    if Visible(h, ttl, name, now) then Address(Latest(h, name).value.addr) else UnknownHost
  }

  // ---------- the map agrees with it ----------

  /** What is in the map is the latest registration; what is missing is not registered or has expired. */
  ghost predicate Agrees(s: Center, ttl: int) {
    forall name: string ::
      if name in s.services then Latest(s.history, name) == Some(s.services[name])
      else !Visible(s.history, ttl, name, s.clock)
  }

  lemma LatestOfOneMore(h: seq<Record>, e: Record, name: string)
    ensures Latest(h + [e], name) ==
      match MarkOf(e, name)
      case Registered(node) => Some(node)
      case Removed => None
      case Nothing => Latest(h, name)
  {
    var marks := MarksOf(h, name);
    assert MarksOf(h + [e], name) == marks + [MarkOf(e, name)];
    assert (marks + [MarkOf(e, name)])[..|h|] == marks;
  }

  /** One command, seen from one name. */
  lemma ExecuteAgrees(m: Services, ttl: int, c: Command, now: int, name: string)
    ensures var d := Execute(m, ttl, c, now);
      match CommandMark(c, d.reply, now, name)
      case Registered(node) => name in d.services && d.services[name] == node
      case Removed => name !in d.services
      case Nothing =>
        (name in d.services ==> name in m && d.services[name] == m[name])
        && (name in m && name !in d.services ==> Expired(m[name], ttl, now))
  {
  }

  lemma HandleAgrees(s: Center, ttl: int, r: Request, now: int, name: string)
    requires Agrees(s, ttl) && now >= s.clock
    ensures var t := Step(s, ttl, r, now);
      if name in t.services then Latest(t.history, name) == Some(t.services[name])
      else !Visible(t.history, ttl, name, now)
  {
    var d := Handle(s.services, ttl, r, now);
    LatestOfOneMore(s.history, Record(r, now, d.reply), name);
    if r.Control? && r.raw != "" {
      ExecuteAgrees(s.services, ttl, ParseCommand(Received(r.raw)), now, name);
    }
  }

  lemma StepKeepsAgreement(s: Center, ttl: int, r: Request, now: int)
    requires Agrees(s, ttl)
    ensures Agrees(Step(s, ttl, r, now), ttl)
  {
    if now >= s.clock {
      forall name: string
        ensures var t := Step(s, ttl, r, now);
          if name in t.services then Latest(t.history, name) == Some(t.services[name])
          else !Visible(t.history, ttl, name, t.clock)
      {
        HandleAgrees(s, ttl, r, now, name);
      }
    }
  }

  lemma {:induction false} RunKeepsAgreement(s: Center, ttl: int, input: seq<Timed>)
    requires Agrees(s, ttl)
    ensures Agrees(Run(s, ttl, input), ttl)
    decreases |input|
  {
    if input != [] {
      StepKeepsAgreement(s, ttl, input[0].request, input[0].now);
      RunKeepsAgreement(Step(s, ttl, input[0].request, input[0].now), ttl, input[1..]);
    }
  }

  function Empty(clock: int): Center {
    Center(map[], clock, [])
  }

  /**
   The lazy registry agrees with its history: after every run from an empty
   registry, a query of any name at any later time is answered with the address
   of its latest successful add, heartbeat or modify, if no successful delete
   followed and its age is at most the TTL, and with "unknown host" otherwise.
   */
  lemma QueriesAgreeWithHistory(clock: int, ttl: int, input: seq<Timed>, raw: string, now: int)
    requires raw != "" && now >= Run(Empty(clock), ttl, input).clock
    ensures var s := Run(Empty(clock), ttl, input);
      Handle(s.services, ttl, Query(raw), now).reply == Answer(s.history, ttl, Received(raw), now)
  {
    RunKeepsAgreement(Empty(clock), ttl, input);
  }

  /** A lookup is answered with exactly the names a query would resolve, and the addresses it would give. */
  lemma LookupListsTheVisible(clock: int, ttl: int, input: seq<Timed>, now: int)
    requires now >= Run(Empty(clock), ttl, input).clock
    ensures var s := Run(Empty(clock), ttl, input);
      match Execute(s.services, ttl, Lookup, now).reply
      case Listing(entries) => entries != map[] && IsListing(entries, s.history, ttl, now)
      case NoServices => forall name: string :: !Visible(s.history, ttl, name, now)
      case _ => false
  {
    RunKeepsAgreement(Empty(clock), ttl, input);
    var s := Run(Empty(clock), ttl, input);
    var p := Pruned(s.services, ttl, now);
    forall name: string ensures name in p <==> Visible(s.history, ttl, name, now) {
      assert if name in s.services then Latest(s.history, name) == Some(s.services[name])
             else !Visible(s.history, ttl, name, s.clock);
    }
    var entries := map name | name in p :: p[name].addr;
    if p != map[] {
      var name :| name in p;
      assert name in entries;
    }
  }

  ghost predicate IsListing(entries: map<string, string>, h: seq<Record>, ttl: int, now: int) {
    forall name: string ::
      && (name in entries <==> Visible(h, ttl, name, now))
      && (name in entries ==> Address(entries[name]) == Answer(h, ttl, name, now))
  }

  // ---------- where laziness shows ----------

  /** A lookup, or a query of `name`: the requests that forget `name` if it has expired. */
  predicate Touches(r: Request, name: string) {
    r.raw != "" && if r.Query? then Received(r.raw) == name else ParseCommand(Received(r.raw)) == Lookup
  }

  /** `h[i]` found the present registration of `name` expired. */
  predicate FoundExpired(h: seq<Record>, ttl: int, name: string, i: nat) {
    && i < |h| && Touches(h[i].request, name)
    && Latest(h, name).Some? && Expired(Latest(h, name).value, ttl, h[i].now)
    && (forall j :: i < j < |h| ==> MarkOf(h[j], name) == Nothing)
  }

  /** Since the latest registration of `name` expired, a lookup or a query of the name has been handled. */
  predicate Forgotten(h: seq<Record>, ttl: int, name: string) {
    exists i :: 0 <= i < |h| && FoundExpired(h, ttl, name, i)
  }

  lemma ForgottenOfOneMore(h: seq<Record>, e: Record, ttl: int, name: string)
    ensures Forgotten(h + [e], ttl, name) <==>
      && MarkOf(e, name) == Nothing && Latest(h, name).Some?
      && (Forgotten(h, ttl, name) || (Touches(e.request, name) && Expired(Latest(h, name).value, ttl, e.now)))
  {
    var g := h + [e];
    LatestOfOneMore(h, e, name);
    assert g[|h|] == e;
    assert forall i :: 0 <= i < |h| ==> g[i] == h[i];
    if Forgotten(g, ttl, name) {
      var i :| 0 <= i < |g| && FoundExpired(g, ttl, name, i);
      if i < |h| { assert FoundExpired(h, ttl, name, i); }
    }
    if MarkOf(e, name) == Nothing && Latest(h, name).Some? {
      if Forgotten(h, ttl, name) {
        var i :| 0 <= i < |h| && FoundExpired(h, ttl, name, i);
        assert FoundExpired(g, ttl, name, i);
      }
      if Touches(e.request, name) && Expired(Latest(h, name).value, ttl, e.now) {
        assert FoundExpired(g, ttl, name, |h|);
      }
    }
  }

  /** The map, name by name, as the history determines it. */
  predicate Held(s: Center, ttl: int, name: string) {
    name in s.services <==> Latest(s.history, name).Some? && !Forgotten(s.history, ttl, name)
  }

  lemma StepKeepsHeld(s: Center, ttl: int, r: Request, now: int, name: string)
    requires Agrees(s, ttl) && Held(s, ttl, name)
    ensures Held(Step(s, ttl, r, now), ttl, name)
  {
    if now >= s.clock {
      var d := Handle(s.services, ttl, r, now);
      var e := Record(r, now, d.reply);
      assert name in s.services ==> Latest(s.history, name) == Some(s.services[name]);
      LatestOfOneMore(s.history, e, name);
      ForgottenOfOneMore(s.history, e, ttl, name);
      if r.Control? && r.raw != "" {
        ExecuteTouches(s.services, ttl, ParseCommand(Received(r.raw)), now, name);
      }
    }
  }

  /** What a command that does not register or remove `name` does to its entry. */
  lemma ExecuteTouches(m: Services, ttl: int, c: Command, now: int, name: string)
    ensures var d := Execute(m, ttl, c, now);
      match CommandMark(c, d.reply, now, name)
      case Registered(_) => name in d.services && c != Lookup
      case Removed => name !in d.services && c != Lookup
      case Nothing => name in d.services <==> name in m && !(c == Lookup && Expired(m[name], ttl, now))
  {
  }

  /**
   The condition of the next lemma in terms of requests: after every run, a name is
   in the map if and only if it is registered and no lookup and no query of it has
   been handled since its registration expired.
   */
  lemma {:induction false} HeldUntilFoundExpired(s: Center, ttl: int, input: seq<Timed>, name: string)
    requires Agrees(s, ttl) && Held(s, ttl, name)
    ensures Agrees(Run(s, ttl, input), ttl) && Held(Run(s, ttl, input), ttl, name)
    decreases |input|
  {
    if input != [] {
      StepKeepsAgreement(s, ttl, input[0].request, input[0].now);
      StepKeepsHeld(s, ttl, input[0].request, input[0].now, name);
      HeldUntilFoundExpired(Step(s, ttl, input[0].request, input[0].now), ttl, input[1..], name);
    }
  }

  /**
   `modify` and `delete` do not look at the age: they succeed on a name nobody can
   see exactly when it is registered, has expired, and no lookup and no query of it
   has been handled since it expired.
   */
  lemma LazinessShowsExactlyOnUnprunedEntries(clock: int, ttl: int, input: seq<Timed>, name: string, addr: string, now: int)
    requires now >= Run(Empty(clock), ttl, input).clock
    ensures var s := Run(Empty(clock), ttl, input);
      var modified := Execute(s.services, ttl, Modify(name, addr), now).reply == Success("modify");
      var deleted := Execute(s.services, ttl, Delete(name), now).reply == Success("delete");
      var latest := Latest(s.history, name);
      && modified == deleted
      && (modified != Visible(s.history, ttl, name, now) <==>
            latest.Some? && Expired(latest.value, ttl, now) && !Forgotten(s.history, ttl, name))
  {
    HeldUntilFoundExpired(Empty(clock), ttl, input, name);
    var s := Run(Empty(clock), ttl, input);
    assert if name in s.services then Latest(s.history, name) == Some(s.services[name])
           else !Visible(s.history, ttl, name, s.clock);
  }

  /** For instance: a modify long after the service expired brings it back, unless a lookup came in between. */
  lemma ExpiredServiceIsRevived(ttl: int)
    requires ttl >= 0
    ensures var m := Execute(map[], ttl, Put("add", "s", "a"), 0).services;
      && Resolve(Execute(m, ttl, Modify("s", "b"), ttl + 1).services, ttl, "s", ttl + 1).reply == Address("b")
      && Execute(Execute(m, ttl, Lookup, ttl + 1).services, ttl, Modify("s", "b"), ttl + 1).reply == NotExist
  {
    var m := Execute(map[], ttl, Put("add", "s", "a"), 0).services;
    assert m["s"] == Node("a", 0);
    assert "s" !in Pruned(m, ttl, ttl + 1);
  }
}
