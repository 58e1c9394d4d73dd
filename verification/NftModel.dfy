/** Nftables as far as the service ruleset uses it: commands, their effect on a table, and packets. */
module NftModel {
  import opened Wrappers
  import opened NftNames

  datatype MapName = ClusterIps | NodePorts | HostPorts

  /** Keys of the verdict maps: protocol number, destination address (cluster IPs only), port. */
  datatype Key = ClusterKey(proto: nat, ip: string, port: nat) | NodeKey(proto: nat, port: nat)

  /** An element of a verdict map: packets with this key jump to the target. */
  datatype Element = Element(key: Key, target: Name)

  datatype Backend = Backend(ip: string, port: nat)

  datatype Stmt =
    | MatchProto(protocol: string)
    | MatchMark(mark: nat)
    | SetMark(mark: nat)
    | Jump(target: Name)
    | LookupCluster(protocol: string)
    | LookupNodePort(protocol: string)
    | Reject
    | Masquerade
    | Dnat(backend: Backend)
    | DnatRandom(modulus: nat, backends: seq<(nat, Backend)>)
    | GotoRandom(modulus: nat, targets: seq<(nat, Name)>)

  type Rule = seq<Stmt>

  datatype Cmd =
    | AddTable
    | FlushTable
    | AddChain(name: Name)
    | FlushChain(name: Name)
    | DeleteChain(name: Name)
    | AddRule(chain: Name, rule: Rule)
    | FlushMap(map_: MapName)
    | AddElements(map_: MapName, elements: seq<Element>)
    | DeleteElements(map_: MapName, elements: seq<Element>)

  datatype Table = Table(chains: map<Name, seq<Rule>>, maps: map<MapName, map<Key, Name>>)

  // ---------- References ----------

  predicate StmtTargets(s: Stmt, name: Name) {
    match s
    case Jump(t) => t == name
    case GotoRandom(_, targets) => exists i :: 0 <= i < |targets| && targets[i].1 == name
    case _ => false
  }

  ghost predicate RuleTargets(r: Rule, name: Name) {
    exists i :: 0 <= i < |r| && StmtTargets(r[i], name)
  }

  ghost predicate ChainTargets(rules: seq<Rule>, name: Name) {
    exists i :: 0 <= i < |rules| && RuleTargets(rules[i], name)
  }

  /** Some rule or some map element points at the chain. */
  ghost predicate Referenced(t: Table, name: Name) {
    || (exists c :: c in t.chains && ChainTargets(t.chains[c], name))
    || (exists m, k :: m in t.maps && k in t.maps[m] && t.maps[m][k] == name)
  }

  // ---------- Commands ----------

  ghost function InsertAll(m: map<Key, Name>, chains: map<Name, seq<Rule>>, elements: seq<Element>): Option<map<Key, Name>>
    decreases |elements|
  {
    if elements == [] then Some(m)
    else
      var e := elements[0];
      if e.target !in chains then None
      else if e.key in m && m[e.key] != e.target then None
      else InsertAll(m[e.key := e.target], chains, elements[1..])
  }

  ghost function RemoveAll(m: map<Key, Name>, elements: seq<Element>): Option<map<Key, Name>>
    decreases |elements|
  {
    if elements == [] then Some(m)
    else
      var e := elements[0];
      if e.key !in m || m[e.key] != e.target then None
      else RemoveAll(m - {e.key}, elements[1..])
  }

  /** The effect of one command; `None` when nftables refuses it. */
  ghost function Apply(t: Table, c: Cmd): Option<Table> {
    match c
    case AddTable => Some(t)
    case FlushTable => Some(t.(chains := map n | n in t.chains :: []))
    case AddChain(n) => Some(if n in t.chains then t else t.(chains := t.chains[n := []]))
    case FlushChain(n) => if n in t.chains then Some(t.(chains := t.chains[n := []])) else None
    case DeleteChain(n) =>
      if n !in t.chains || t.chains[n] != [] || Referenced(t, n) then None
      else Some(t.(chains := t.chains - {n}))
    case AddRule(n, r) =>
      if n in t.chains && (forall d :: RuleTargets(r, d) ==> d in t.chains)
      then Some(t.(chains := t.chains[n := t.chains[n] + [r]])) else None
    case FlushMap(m) => if m in t.maps then Some(t.(maps := t.maps[m := map[]])) else None
    case AddElements(m, es) =>
      if m !in t.maps then None
      else
        (match InsertAll(t.maps[m], t.chains, es)
         case None => None
         case Some(m') => Some(t.(maps := t.maps[m := m'])))
    case DeleteElements(m, es) =>
      if m !in t.maps then None
      else
        (match RemoveAll(t.maps[m], es)
         case None => None
         case Some(m') => Some(t.(maps := t.maps[m := m'])))
  }

  /** One transaction: all commands in order, or nothing. */
  ghost function Exec(t: Table, cmds: seq<Cmd>): Option<Table>
    decreases |cmds|
  {
    if cmds == [] then Some(t)
    else
      match Apply(t, cmds[0])
      case None => None
      case Some(t') => Exec(t', cmds[1..])
  }

  lemma {:induction false} ExecConcat(t: Table, a: seq<Cmd>, b: seq<Cmd>)
    ensures Exec(t, a + b) == match Exec(t, a) case None => None case Some(t') => Exec(t', b)
    decreases |a|
  {
    hide Apply;
    if a == [] {
      assert a + b == b;
    } else {
      assert (a + b)[0] == a[0] && (a + b)[1..] == a[1..] + b;
      match Apply(t, a[0])
      case None =>
      case Some(t') => ExecConcat(t', a[1..], b);
    }
  }

  // ---------- Packets ----------

  datatype Packet = Packet(proto: nat, daddr: string, dport: nat)

  datatype Action = Translated(backend: Backend) | Rejected | Masqueraded

  /** A chain is left with the packet untouched, stops it, or cannot be evaluated. */
  datatype Outcome = Fall(mark: nat) | Stop(action: Action, mark: nat) | Stuck

  /** What a rule does to its chain: go on with the next rule, leave the chain, or end. */
  datatype RuleOutcome = Next(mark: nat) | Leave(mark: nat) | Done(outcome: Outcome)

  predicate ProtoIs(protocol: string, proto: nat) {
    (protocol == "tcp" && proto == 6) || (protocol == "udp" && proto == 17)
  }

  function Find<T>(entries: seq<(nat, T)>, key: nat): Option<T> {
    if entries == [] then None
    else if entries[0].0 == key then Some(entries[0].1)
    else Find(entries[1..], key)
  }

  /** The packet through a chain; `draw` feeds the random number generator, `depth` bounds nested jumps. */
  function EvalChain(t: Table, name: Name, p: Packet, mark: nat, draw: nat, depth: nat): Outcome
    decreases depth, 0, 0
  {
    if depth == 0 || name !in t.chains then Stuck
    else EvalRules(t, t.chains[name], p, mark, draw, depth - 1)
  }

  function EvalRules(t: Table, rules: seq<Rule>, p: Packet, mark: nat, draw: nat, depth: nat): Outcome
    decreases depth, 2, |rules|
  {
    if rules == [] then Fall(mark)
    else
      match EvalRule(t, rules[0], p, mark, draw, depth)
      case Next(mark') => EvalRules(t, rules[1..], p, mark', draw, depth)
      case Leave(mark') => Fall(mark')
      case Done(o) => o
  }

  function EvalRule(t: Table, stmts: seq<Stmt>, p: Packet, mark: nat, draw: nat, depth: nat): RuleOutcome
    decreases depth, 1, |stmts|
  {
    if stmts == [] then Next(mark)
    else
      match stmts[0]
      case MatchProto(protocol) =>
        if ProtoIs(protocol, p.proto) then EvalRule(t, stmts[1..], p, mark, draw, depth) else Next(mark)
      case MatchMark(m) => if mark == m then EvalRule(t, stmts[1..], p, mark, draw, depth) else Next(mark)
      case SetMark(m) => EvalRule(t, stmts[1..], p, m, draw, depth)
      case Jump(n) => JumpTo(t, n, p, mark, draw, depth)
      case LookupCluster(protocol) => JumpVia(t, ClusterIps, ClusterKey(p.proto, p.daddr, p.dport), p, mark, draw, depth)
      case LookupNodePort(protocol) => JumpVia(t, NodePorts, NodeKey(p.proto, p.dport), p, mark, draw, depth)
      case Reject => Done(Stop(Rejected, mark))
      case Masquerade => Done(Stop(Masqueraded, mark))
      case Dnat(b) => Done(Stop(Translated(b), mark))
      case DnatRandom(n, backends) =>
        if n == 0 then Done(Stuck)
        else (match Find(backends, draw % n)
              case None => Next(mark)
              case Some(b) => Done(Stop(Translated(b), mark)))
      case GotoRandom(n, targets) =>
        if n == 0 then Done(Stuck)
        else (match Find(targets, draw % n)
              case None => Next(mark)
              case Some(c) =>
                match EvalChain(t, c, p, mark, draw, depth)
                case Fall(mark') => Leave(mark')
                case o => Done(o))
  }

  function JumpTo(t: Table, n: Name, p: Packet, mark: nat, draw: nat, depth: nat): RuleOutcome
    decreases depth, 0, 1
  {
    match EvalChain(t, n, p, mark, draw, depth)
    case Fall(mark') => Next(mark')
    case o => Done(o)
  }

  function JumpVia(t: Table, m: MapName, k: Key, p: Packet, mark: nat, draw: nat, depth: nat): RuleOutcome
    decreases depth, 0, 2
  {
    if m !in t.maps then Done(Stuck)
    else if k in t.maps[m] then JumpTo(t, t.maps[m][k], p, mark, draw, depth)
    else Next(mark)
  }
}
