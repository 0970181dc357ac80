/** What the rules of an apply do to a packet. */
module FirewallPackets {
  import opened Wrappers
  import opened Firewall

  const TAILSCALE0: int := 0
  const PORT: nat := 41641

  /** A packet: its interfaces, its UDP ports if it has any, the networks its source is in, and its destination. */
  datatype Packet = Packet(came: int, goes: int, ports: Option<(nat, nat)>, sources: set<int>, destination: int)

  datatype Decision = Accepted | Dropped | Masqueraded | SentTo(destination: int)

  /** The match and the target of a rule as its words on the command line read. */
  function Decides(r: Rule, p: Packet): Option<Decision> {
    match r
    case DropIn => if p.ports.Some? && p.ports.value.1 == PORT then Some(Dropped) else None
    case DropOut => if p.ports.Some? && p.ports.value.0 == PORT then Some(Dropped) else None
    case ToLan(device) => if p.came == TAILSCALE0 && p.goes == device then Some(Accepted) else None
    case FromLan(device) => if p.came == device && p.goes == TAILSCALE0 then Some(Accepted) else None
    case Masquerade(cidr) => if cidr in p.sources && p.goes == TAILSCALE0 then Some(Masqueraded) else None
    case Dnat(destination, ip) =>
      if p.came == TAILSCALE0 && p.destination == destination then Some(SentTo(ip)) else None
    case Jump(_) => None
    case Legacy(_, _) => None
    case Other(_) => None
  }

  function FirstOf(l: seq<Rule>, p: Packet): Option<Decision> {
    if l == [] then None else if Decides(l[0], p).Some? then Decides(l[0], p) else FirstOf(l[1..], p)
  }

  /** A built-in chain: its jump to the plugin's chain goes there and comes back; every other rule decides as
      `others` says. */
  function Walk(l: seq<Rule>, h: Hook, own: seq<Rule>, p: Packet, others: Rule -> Option<Decision>): Option<Decision> {
    if l == [] then None
    else
      var d := if l[0] == Jump(Own(h)) then FirstOf(own, p) else others(l[0]);
      if d.Some? then d else Walk(l[1..], h, own, p, others)
  }

  /** What a setup asks for at each hook. */
  function Wanted(h: Hook, c: Setup, p: Packet): Option<Decision> {
    match h
    case Input => if c.drop && p.ports.Some? && p.ports.value.1 == PORT then Some(Dropped) else None
    case Output => if c.drop && p.ports.Some? && p.ports.value.0 == PORT then Some(Dropped) else None
    case Forward =>
      if c.lan.Some? && ((p.came == TAILSCALE0 && p.goes == c.lan.value.device)
                         || (p.came == c.lan.value.device && p.goes == TAILSCALE0)) then Some(Accepted) else None
    case Postrouting =>
      if c.lan.Some? && c.lan.value.cidr in p.sources && p.goes == TAILSCALE0 then Some(Masqueraded) else None
    case Prerouting =>
      if c.lan.Some? && p.came == TAILSCALE0 && Some(p.destination) == c.tail then Some(SentTo(c.lan.value.ip)) else None
  }

  lemma OwnDecides(h: Hook, c: Setup, p: Packet)
    ensures FirstOf(OwnRules(h, c), p) == Wanted(h, c, p)
  {
    var l := OwnRules(h, c);
    if |l| > 0 { assert FirstOf(l, p) == if Decides(l[0], p).Some? then Decides(l[0], p) else FirstOf(l[1..], p); }
    if |l| == 2 { assert FirstOf(l[1..], p) == if Decides(l[1], p).Some? then Decides(l[1], p) else FirstOf(l[1..][1..], p); }
  }

  lemma {:induction false} WalkIs(l: seq<Rule>, h: Hook, own: seq<Rule>, p: Packet, others: Rule -> Option<Decision>)
    requires forall r | r in l && r != Jump(Own(h)) :: others(r).None?
    ensures Walk(l, h, own, p, others) == if Jump(Own(h)) in l then FirstOf(own, p) else None
  {
    if l != [] {
      WalkIs(l[1..], h, own, p, others);
    }
  }

  /** After an apply, whatever the rules were, a packet that nobody else's rule decides on meets exactly what the
      setup asks for: port 41641 of a disabled family is closed, the LAN and the tailnet may talk, what leaves the
      LAN is masqueraded, and what reaches the router's Tailscale address is sent to its LAN address. */
  lemma PacketsMeetTheSetup(s: Rules, c: Setup, h: Hook, p: Packet, others: Rule -> Option<Decision>)
    requires HasHooks(s) && Touches(c, h)
    requires forall r | r in Get(Apply(s, c), Builtin(h)) && r != Jump(Own(h)) :: others(r).None?
    ensures Builtin(h) in Apply(s, c) && Own(h) in Apply(s, c)
    ensures Walk(Apply(s, c)[Builtin(h)], h, Apply(s, c)[Own(h)], p, others) == Wanted(h, c, p)
  {
    var t := Apply(s, c);
    assert Builtin(h) in s && Builtin(h) in t && Own(h) in t;
    OwnDecides(h, c, p);
    WalkIs(t[Builtin(h)], h, t[Own(h)], p, others);
    HookedHas(h, Tidy(s[Builtin(h)], c));
  }

  lemma HookedHas(h: Hook, l: seq<Rule>)
    ensures Jump(Own(h)) in Hooked(h, l)
  {
  }

  /** Where the hook was not there before, the plugin decides first, except behind the last POSTROUTING rule. */
  lemma NewHooksComeFirst(s: Rules, c: Setup, h: Hook, p: Packet, others: Rule -> Option<Decision>)
    requires HasHooks(s) && Touches(c, h) && !h.Postrouting? && Jump(Own(h)) !in s[Builtin(h)] && Wanted(h, c, p).Some?
    ensures Builtin(h) in Apply(s, c) && Own(h) in Apply(s, c)
    ensures Walk(Apply(s, c)[Builtin(h)], h, Apply(s, c)[Own(h)], p, others) == Wanted(h, c, p)
  {
    var t := Apply(s, c);
    assert Builtin(h) in s && Builtin(h) in t && Own(h) in t;
    OwnDecides(h, c, p);
    CleanHas(s[Builtin(h)], Jump(Own(h)));
    assert t[Builtin(h)][0] == Jump(Own(h));
  }
}
