/** What a workspace holds, read off its directories: which file a path leads to, and how much lies below. */
module ArtifactContents {
  import opened ArtifactWalk

  /** The listing has the entry `name`. */
  predicate Lists(l: Listing, name: string, child: Node) {
    match l
    case End => false
    case Entry(n, node, rest) => (n == name && node == child) || Lists(rest, name, child)
  }

  /** A directory that is looked into: none that can be rebuilt and none of the platform's own. */
  predicate LookedInto(name: string, node: Node) {
    node.Dir? && name !in {
      "node_modules", ".venv", "venv", "__pycache__", ".pytest_cache", ".mypy_cache", ".ruff_cache", ".cache",
      ".gradle", ".tox", "dist", "build", ".next", "target", ".output", ".turbo", ".git", ".svn", ".hg",
      ".agents", ".blade", ".octagon"}
  }

  /** Following the names of `p` from `node`, through readable directories that are looked into, ends at `end`. */
  ghost predicate Leads(node: Node, p: Path, end: Node)
    decreases |p|
  {
    if p == [] then node == end
    else
      && node.Dir? && node.readable
      && exists child :: Lists(node.children, p[0], child) && (|p| > 1 ==> LookedInto(p[0], child)) && Leads(child, p[1..], end)
  }

  predicate Hidden(name: string) {
    name != "" && name[0] == '.'
  }

  /** What is summed up: files, or their bytes. */
  datatype Measure = Files | Bytes

  function Amount(m: Measure, size: nat): nat {
    match m
    case Files => 1
    case Bytes => size
  }

  /** What lies in a directory and below it, without anything hidden. */
  function Holdings(node: Node, m: Measure): nat
    decreases node, 0
  {
    if node.Dir? && node.readable then ListingHoldings(node.children, m) else 0
  }

  function ListingHoldings(l: Listing, m: Measure): nat
    decreases l, 0
  {
    match l
    case End => 0
    case Entry(name, node, rest) => EntryHoldings(name, node, m) + ListingHoldings(rest, m)
  }

  function EntryHoldings(name: string, node: Node, m: Measure): nat
    decreases node, 1
  {
    if Hidden(name) then 0
    else if node.File? then Amount(m, node.size)
    else if LookedInto(name, node) then Holdings(node, m)
    else 0
  }

  /** The files directly in a listing, and what lies below its directories. */
  function FileHoldings(l: Listing, m: Measure): nat {
    match l
    case End => 0
    case Entry(name, node, rest) => (if node.File? then EntryHoldings(name, node, m) else 0) + FileHoldings(rest, m)
  }

  function DirHoldings(l: Listing, m: Measure): nat {
    match l
    case End => 0
    case Entry(name, node, rest) => (if node.File? then 0 else EntryHoldings(name, node, m)) + DirHoldings(rest, m)
  }

  lemma {:induction false} HoldingsSplit(l: Listing, m: Measure)
    ensures ListingHoldings(l, m) == FileHoldings(l, m) + DirHoldings(l, m)
  {
    if l.Entry? {
      HoldingsSplit(l.rest, m);
    }
  }

  lemma {:induction false} ListsLooksUp(l: Listing, name: string, child: Node)
    requires Distinct(l)
    ensures Lists(l, name, child) <==> Lookup(l, name).Some? && Lookup(l, name).value == child
  {
    match l
    case End =>
    case Entry(n, node, rest) => ListsLooksUp(rest, name, child);
  }

  lemma EnteredLooksInto(name: string, node: Node)
    ensures Entered(name, node) <==> LookedInto(name, node)
  {
  }
}
