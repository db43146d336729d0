/** Pattern expansion of `core/data_policy.py` over a directory tree, beside the
    declarative matcher it is meant to agree with. */
module GlobModel {
  import opened Common

  type Path = seq<string>

  datatype Node = File | Link | Special(socket: bool) | Dir(entries: Entries)

  /** The entries of a directory, in name order. */
  datatype Entries = Empty | More(name: string, node: Node, rest: Entries)

  /** `fits` is `fnmatch.fnmatchcase`, `temp` recognises atomic-write temporaries. */
  datatype Rules = Rules(fits: (string, string) -> bool, temp: string -> bool)

  datatype Expansion = Refused | Paths(paths: seq<Path>)

  const RUNTIME_SOCKET: Path := [".silicon-interface", "daemon.sock"]

  predicate HasMagic(segment: string) {
    '*' in segment || '?' in segment || '[' in segment
  }

  predicate IsRuntimeSocket(at: Path, node: Node) {
    at == RUNTIME_SOCKET && node.Special? && node.socket
  }

  predicate Allowed(node: Node) {
    node.File? || node.Dir?
  }

  function Both(a: Expansion, b: Expansion): Expansion {
    if a.Refused? || b.Refused? then Refused else Paths(a.paths + b.paths)
  }

  // ------------------------------------------------------------------ expansion

  function SafeTree(r: Rules, at: Path, node: Node): Expansion
    decreases node, 1
  {
    if IsRuntimeSocket(at, node) then Paths([])
    else if !Allowed(node) then Refused
    else if node.File? then Paths([at])
    else Both(Paths([at]), SafeForest(r, at, node.entries))
  }

  function SafeForest(r: Rules, at: Path, entries: Entries): Expansion
    decreases entries, 0
  {
    match entries
    case Empty => Paths([])
    case More(name, node, rest) =>
      if r.temp(name) then SafeForest(r, at, rest)
      else Both(SafeTree(r, at + [name], node), SafeForest(r, at, rest))
  }

  function ExpandParts(r: Rules, at: Path, node: Node, parts: seq<string>): Expansion
    decreases node, |parts| + 1, 1
  {
    if parts == [] then Paths([at])
    else if parts[0] == "**" then
      if |parts| == 1 then SafeTree(r, at, node)
      else
        Both(ExpandParts(r, at, node, parts[1..]),
             if !Allowed(node) then Refused
             else if node.Dir? then ExpandBelow(r, at, node.entries, parts)
             else Paths([]))
    else if !Allowed(node) then Refused
    else if node.File? then Paths([])
    else ExpandSegment(r, at, node.entries, parts)
  }

  /** The directories `**` may step into. */
  function ExpandBelow(r: Rules, at: Path, entries: Entries, parts: seq<string>): Expansion
    decreases entries, |parts| + 1, 0
  {
    match entries
    case Empty => Paths([])
    case More(name, node, rest) =>
      if r.temp(name) || IsRuntimeSocket(at + [name], node) then ExpandBelow(r, at, rest, parts)
      else if !Allowed(node) then Refused
      else
        Both(if node.Dir? then ExpandParts(r, at + [name], node, parts) else Paths([]),
             ExpandBelow(r, at, rest, parts))
  }

  predicate Candidate(r: Rules, segment: string, name: string) {
    if HasMagic(segment) then !r.temp(name) && r.fits(name, segment) else name == segment
  }

  /** The children one ordinary segment selects. */
  function ExpandSegment(r: Rules, at: Path, entries: Entries, parts: seq<string>): Expansion
    requires parts != []
    decreases entries, |parts|, 0
  {
    match entries
    case Empty => Paths([])
    case More(name, node, rest) =>
      if !Candidate(r, parts[0], name) || IsRuntimeSocket(at + [name], node) then ExpandSegment(r, at, rest, parts)
      else if !Allowed(node) then Refused
      else
        Both(if |parts| == 1 then Paths([at + [name]])
             else if node.Dir? then ExpandParts(r, at + [name], node, parts[1..])
             else Paths([]),
             ExpandSegment(r, at, rest, parts))
  }

  // ------------------------------------------------------------------- meaning

  function Find(entries: Entries, name: string): Option<Node> {
    match entries
    case Empty => None
    case More(n, node, rest) => if n == name then Some(node) else Find(rest, name)
  }

  function Lookup(node: Node, p: Path): Option<Node>
    decreases |p|
  {
    if p == [] then Some(node)
    else if !node.Dir? then None
    else if Find(node.entries, p[0]).None? then None
    else Lookup(Find(node.entries, p[0]).value, p[1..])
  }

  /** A directory names each entry once. */
  predicate WellFormed(node: Node) {
    node.Dir? ==> WellFormedEntries(node.entries)
  }

  predicate WellFormedEntries(entries: Entries) {
    match entries
    case Empty => true
    case More(name, node, rest) => Find(rest, name).None? && WellFormed(node) && WellFormedEntries(rest)
  }

  predicate Durable(r: Rules, p: Path) {
    forall i :: 0 <= i < |p| ==> !r.temp(p[i])
  }

  /** The pattern language: `**` stands for zero or more directories, and at the end
      of a pattern for everything below.  While pattern remains, what has been matched
      must be a directory; `dir` says whether the whole path names one. */
  predicate Matches(r: Rules, parts: seq<string>, p: Path, dir: bool)
    decreases |parts| + |p|
  {
    if parts == [] then p == []
    else if parts == ["**"] then Durable(r, p)
    else if parts[0] == "**" then
      || Matches(r, parts[1..], p, dir)
      || (p != [] && !r.temp(p[0]) && (|p| > 1 || dir) && Matches(r, parts, p[1..], dir))
    else
      && p != [] && Candidate(r, parts[0], p[0])
      && (|parts| == 1 || |p| > 1 || dir)
      && Matches(r, parts[1..], p[1..], dir)
  }

  /** The entries an expansion has to look at. */
  predicate Inspects(r: Rules, parts: seq<string>, p: Path)
    decreases |parts| + |p|
  {
    if parts == [] then false
    else if parts == ["**"] then Durable(r, p)
    else if p == [] then false
    else if parts[0] == "**" then
      Inspects(r, parts[1..], p) || (!r.temp(p[0]) && (|p| == 1 || Inspects(r, parts, p[1..])))
    else Candidate(r, parts[0], p[0]) && (|p| == 1 || Inspects(r, parts[1..], p[1..]))
  }

  predicate Present(node: Node, p: Path) {
    Lookup(node, p).Some? && Allowed(Lookup(node, p).value)
  }

  /** A link or special file other than the runtime socket. */
  predicate Unsafe(at: Path, node: Node, p: Path) {
    Lookup(node, p).Some? && !Allowed(Lookup(node, p).value) && !IsRuntimeSocket(at + p, Lookup(node, p).value)
  }

  predicate Below(at: Path, q: Path) {
    |at| <= |q| && q[..|at|] == at
  }

  /** `q` is an existing file or directory that the pattern, read from `at`, accepts. */
  predicate Hits(r: Rules, at: Path, node: Node, parts: seq<string>, q: Path) {
    && Below(at, q) && Present(node, q[|at|..])
    && Matches(r, parts, q[|at|..], Lookup(node, q[|at|..]).value.Dir?)
  }

  /** `q` is an unsafe entry that the pattern makes the expansion look at. */
  predicate Trips(r: Rules, at: Path, node: Node, parts: seq<string>, q: Path) {
    Below(at, q) && Unsafe(at, node, q[|at|..]) && Inspects(r, parts, q[|at|..])
  }
}
