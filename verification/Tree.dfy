/** A worktree as the snapshot's walk meets it, and what a snapshot of it should hold. */
module Tree {

  newtype byte = x: int | 0 <= x < 256

  /** A node of a file system; a link may lead to a directory. */
  datatype Node =
    | File(executable: bool, content: seq<byte>)
    | Dir(children: seq<Child>)
    | Link(toDirectory: bool)
    | Special

  datatype Child = Child(name: string, node: Node)

  type Path = seq<string>

  /** A thing placed in the copy. */
  datatype Entry = Folder | Regular(executable: bool, content: seq<byte>)

  datatype Placed = Placed(path: Path, entry: Entry)

  const CACHE := "__pycache__"

  /** A live env file: .env and .env.* but .env.default. */
  predicate Skipped(name: string) {
    (name == ".env" || ".env." <= name) && name != ".env.default"
  }

  /** A directory, or a link to one: what the walk lists among the directories. */
  predicate ListedAsDirectory(n: Node) {
    n.Dir? || (n.Link? && n.toDirectory)
  }

  /** A cache directory, or a link to a directory by that name, is not looked at. */
  predicate Pruned(c: Child) {
    c.name == CACHE && ListedAsDirectory(c.node)
  }

  predicate Copied(c: Child) {
    c.node.File? && !Skipped(c.name)
  }

  /** No link and no special node but in a cache directory. */
  predicate Clean(cs: seq<Child>)
    decreases cs, 0
  {
    cs != [] ==>
      && Clean(cs[..|cs| - 1])
      && (Pruned(cs[|cs| - 1]) || CleanNode(cs[|cs| - 1].node))
  }

  predicate CleanNode(n: Node)
    decreases n, 1
  {
    match n
    case File(_, _) => true
    case Dir(cs) => Clean(cs)
    case _ => false
  }

  /** The entries the copy counts: every kept directory and every copied file. */
  function Entries(cs: seq<Child>): nat
    decreases cs, 0
  {
    if cs == [] then 0
    else
      var c := cs[|cs| - 1];
      Entries(cs[..|cs| - 1]) +
      if Pruned(c) then 0
      else if c.node.Dir? then 1 + EntriesIn(c.node)
      else if Copied(c) then 1 else 0
  }

  function EntriesIn(n: Node): nat
    decreases n, 1
  {
    if n.Dir? then Entries(n.children) else 0
  }

  function Bytes(cs: seq<Child>): nat
    decreases cs, 0
  {
    if cs == [] then 0
    else
      var c := cs[|cs| - 1];
      Bytes(cs[..|cs| - 1]) +
      if Pruned(c) then 0
      else if c.node.Dir? then BytesIn(c.node)
      else if Copied(c) then |c.node.content| else 0
  }

  function BytesIn(n: Node): nat
    decreases n, 1
  {
    if n.Dir? then Bytes(n.children) else 0
  }

  /** What the copy of the children should place: the tree without its cache directories and its live env files. */
  function Listing(cs: seq<Child>, here: Path): set<Placed>
    decreases cs, 0
  {
    if cs == [] then {}
    else
      var c := cs[|cs| - 1];
      Listing(cs[..|cs| - 1], here) +
      if Pruned(c) then {}
      else if c.node.Dir? then ListingIn(c.node, here + [c.name])
      else if Copied(c) then {Placed(here + [c.name], Regular(c.node.executable, c.node.content))}
      else {}
  }

  function ListingIn(n: Node, here: Path): set<Placed>
    decreases n, 1
  {
    if n.Dir? then {Placed(here, Folder)} + Listing(n.children, here) else {}
  }

  /** The names of one directory differ, all the way down. */
  predicate Distinct(cs: seq<Child>)
    decreases cs, 0
  {
    && (forall i, j :: 0 <= i < j < |cs| ==> cs[i].name != cs[j].name)
    && (forall c :: c in cs ==> DistinctNode(c.node))
  }

  predicate DistinctNode(n: Node)
    decreases n, 1
  {
    n.Dir? ==> Distinct(n.children)
  }

  /** One path lies at or below another. */
  predicate Below(p: Path, q: Path) {
    p <= q
  }

  lemma {:induction false} ListingLiesBelow(cs: seq<Child>, here: Path, e: Placed)
    requires e in Listing(cs, here)
    ensures exists c :: c in cs && !Pruned(c) && Below(here + [c.name], e.path) && |e.path| > |here|
    decreases cs, 0
  {
    var c := cs[|cs| - 1];
    if e in Listing(cs[..|cs| - 1], here) {
      ListingLiesBelow(cs[..|cs| - 1], here, e);
      var d :| d in cs[..|cs| - 1] && !Pruned(d) && Below(here + [d.name], e.path) && |e.path| > |here|;
      assert d in cs;
    } else if c.node.Dir? {
      NodeListingLiesBelow(c.node, here + [c.name], e);
      assert c in cs;
    } else {
      assert c in cs;
    }
  }

  lemma {:induction false} NodeListingLiesBelow(n: Node, here: Path, e: Placed)
    requires e in ListingIn(n, here)
    ensures Below(here, e.path)
    decreases n, 1
  {
    if e != Placed(here, Folder) {
      ListingLiesBelow(n.children, here, e);
      var c :| c in n.children && !Pruned(c) && Below(here + [c.name], e.path) && |e.path| > |here|;
      assert here <= here + [c.name];
    }
  }
}
