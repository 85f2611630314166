/** The in-memory filesystem: a flat table from paths to nodes, with no tree shape
    of its own. */
module MemoryVfs {
  import opened Prelude
  import opened Utf8
  import opened VfsCore
  import opened Paths
  import opened FileBytes

  datatype Node = FileNode(data: seq<byte>) | DirNode

  type Table = map<Key, Node>

  /** "hello.txt" */
  const HELLO_NAME: Name := [104, 101, 108, 108, 111, 46, 116, 120, 116]

  /** "hello-from-tokimo-vfs\n" */
  const HELLO_TEXT: seq<byte> :=
    [104, 101, 108, 108, 111, 45, 102, 114, 111, 109, 45, 116, 111, 107, 105, 109, 111, 45, 118, 102, 115, 10]

  const INITIAL: Table := map[ROOT_KEY := DirNode, Key(true, [HELLO_NAME]) := FileNode(HELLO_TEXT)]

  function NodeKind(n: Node): FsKind {
    match n case FileNode(_) => File case DirNode => Dir
  }

  /** A length `as u64`. */
  function Low64(n: nat): u64 { n % TWO_64 }

  /** `attr_of`; `now` is the time of the call. */
  function AttrOf(n: Node, now: i64): FileAttr {
    var size := if n.FileNode? then |n.data| else 0;
    FileAttr(Low64(size), if n.DirNode? then 0x1ED else 0x1A4, NodeKind(n), now, now, now)
  }

  // ------------------------------------------------ the operations on the table

  function StatIn(m: Table, p: Path, now: i64): VfsResult<FileAttr> {
    if KeyOf(p) in m then Ok(AttrOf(m[KeyOf(p)], now)) else Err(NotFound)
  }

  function EntryFor(m: Table, k: Key): DirEntry
    requires k in m
  {
    var name := match FileName(k) case Some(n) => (if ValidUtf8(n) then n else []) case None => [];
    DirEntry(name, NodeKind(m[k]))
  }

  predicate IsChild(k: Key, dir: Key) { k != dir && Parent(k) == Some(dir) }

  /** The entries of `dir`, met in the order the table is iterated. */
  function ChildrenIn(m: Table, dir: Key, order: seq<Key>): seq<DirEntry> {
    if order == [] then []
    else
      (if order[0] in m && IsChild(order[0], dir) then [EntryFor(m, order[0])] else [])
        + ChildrenIn(m, dir, order[1..])
  }

  function ListIn(m: Table, p: Path, order: seq<Key>): VfsResult<seq<DirEntry>> {
    var k := KeyOf(p);
    if k !in m then Err(NotFound)
    else if m[k].FileNode? then Err(NotADirectory)
    else Ok(ChildrenIn(m, k, order))
  }

  function ReadIn(m: Table, p: Path, o: nat, len: nat): VfsResult<seq<byte>> {
    var k := KeyOf(p);
    if k !in m then Err(NotFound)
    else if m[k].DirNode? then Err(IsADirectory)
    else Ok(Slice(m[k].data, o, len))
  }

  function EditIn(m: Table, p: Path, e: Edit): VfsResult<Table> {
    var k := KeyOf(p);
    if k !in m then Err(NotFound)
    else if m[k].DirNode? then Err(IsADirectory)
    else Ok(m[k := FileNode(Edited(m[k].data, e))])
  }

  function MakeIn(m: Table, p: Path, n: Node): VfsResult<Table> {
    if KeyOf(p) in m then Err(AlreadyExists) else Ok(m[KeyOf(p) := n])
  }

  function RemoveIn(m: Table, p: Path): VfsResult<Table> {
    if KeyOf(p) in m then Ok(m - {KeyOf(p)}) else Err(NotFound)
  }

  function RenameIn(m: Table, from: Path, to: Path): VfsResult<Table> {
    if KeyOf(from) in m then Ok((m - {KeyOf(from)})[KeyOf(to) := m[KeyOf(from)]]) else Err(NotFound)
  }

  /** `data.len() as u32`. */
  function Count(data: seq<byte>): u32 { |data| % TWO_32 }

  ghost predicate Enumerates(order: seq<Key>, keys: set<Key>) {
    && (forall k :: k in order <==> k in keys)
    && (forall i, j :: 0 <= i < j < |order| ==> order[i] != order[j])
  }

  // ------------------------------------------------ the filesystem object

  /** The codes of a text without characters beyond ASCII. */
  function Ascii(s: string): seq<byte>
    requires forall i :: 0 <= i < |s| ==> s[i] < 128 as char
  {
    seq<byte>(|s|, i requires 0 <= i < |s| => s[i] as int)
  }

  lemma HelloIsHello()
    ensures HELLO_NAME == Ascii("hello.txt")
    ensures HELLO_TEXT == Ascii("hello-from-tokimo-vfs\n")
  {
  }

  class MemoryFs {
    var nodes: Table

    constructor ()
      ensures nodes == INITIAL
      ensures nodes == map[
        Key(true, []) := DirNode,
        Key(true, [Ascii("hello.txt")]) := FileNode(Ascii("hello-from-tokimo-vfs\n"))]
    {
      nodes := INITIAL;
      HelloIsHello();
    }

    method Stat(p: Path, now: i64) returns (r: VfsResult<FileAttr>)
      ensures r == StatIn(nodes, p, now)
    {
      var k := KeyOf(p);
      if k in nodes { return Ok(AttrOf(nodes[k], now)); }
      return Err(NotFound);
    }

    method List(p: Path) returns (r: VfsResult<seq<DirEntry>>)
      ensures exists order :: Enumerates(order, nodes.Keys) && r == ListIn(nodes, p, order)
    {
      var dir := KeyOf(p);
      var out: seq<DirEntry> := [];
      var left := nodes.Keys;
      var seen: seq<Key> := [];
      while left != {}
        invariant left <= nodes.Keys && Enumerates(seen, nodes.Keys - left)
        invariant out == ChildrenIn(nodes, dir, seen)
        decreases left
      {
        var k :| k in left;
        ChildrenAppend(nodes, dir, seen, k);
        if k != dir && Parent(k) == Some(dir) {
          out := out + [EntryFor(nodes, k)];
        }
        seen := seen + [k];
        left := left - {k};
      }
      assert nodes.Keys - left == nodes.Keys;
      if dir !in nodes {
        r := Err(NotFound);
      } else if nodes[dir].FileNode? {
        r := Err(NotADirectory);
      } else {
        r := Ok(out);
      }
      assert Enumerates(seen, nodes.Keys) && r == ListIn(nodes, p, seen);
    }

    method Read(p: Path, o: u64, len: u32) returns (r: VfsResult<seq<byte>>)
      ensures r == ReadIn(nodes, p, o, len)
    {
      var k := KeyOf(p);
      if k !in nodes { return Err(NotFound); }
      match nodes[k]
      case FileNode(d) =>
        var end := Min(o + len, |d|);
        return Ok(if o >= |d| then [] else d[o..end]);
      case DirNode => return Err(IsADirectory);
    }

    method Write(p: Path, o: u64, data: seq<byte>) returns (r: VfsResult<u32>)
      modifies this
      ensures match EditIn(old(nodes), p, Wrote(o, data))
              case Ok(m) => nodes == m && r == Ok(|data| % 0x1_0000_0000)
              case Err(e) => nodes == old(nodes) && r == Err(e)
    {
      var k := KeyOf(p);
      if k !in nodes { return Err(NotFound); }
      match nodes[k]
      case FileNode(d) =>
        var grown := d;
        if |d| < o + |data| {
          grown := Resize(d, o + |data|);
        }
        grown := grown[..o] + data + grown[o + |data|..];
        nodes := nodes[k := FileNode(grown)];
        return Ok(Count(data));
      case DirNode => return Err(IsADirectory);
    }

    method Create(p: Path, now: i64) returns (r: VfsResult<FileAttr>)
      modifies this
      ensures match MakeIn(old(nodes), p, FileNode([]))
              case Ok(m) => nodes == m && r == StatIn(m, p, now)
              case Err(e) => nodes == old(nodes) && r == Err(e)
    {
      var k := KeyOf(p);
      if k in nodes { return Err(AlreadyExists); }
      nodes := nodes[k := FileNode([])];
      return Ok(AttrOf(nodes[k], now));
    }

    method Mkdir(p: Path, now: i64) returns (r: VfsResult<FileAttr>)
      modifies this
      ensures match MakeIn(old(nodes), p, DirNode)
              case Ok(m) => nodes == m && r == StatIn(m, p, now)
              case Err(e) => nodes == old(nodes) && r == Err(e)
    {
      var k := KeyOf(p);
      if k in nodes { return Err(AlreadyExists); }
      nodes := nodes[k := DirNode];
      return Ok(AttrOf(nodes[k], now));
    }

    /** `remove` and `rmdir` are the same: neither looks at what it deletes. */
    method Remove(p: Path) returns (r: VfsResult<()>)
      modifies this
      ensures match RemoveIn(old(nodes), p)
              case Ok(m) => nodes == m && r == Ok(())
              case Err(e) => nodes == old(nodes) && r == Err(e)
    {
      var k := KeyOf(p);
      if k !in nodes { return Err(NotFound); }
      nodes := nodes - {k};
      return Ok(());
    }

    method Rename(from: Path, to: Path) returns (r: VfsResult<()>)
      modifies this
      ensures match RenameIn(old(nodes), from, to)
              case Ok(m) => nodes == m && r == Ok(())
              case Err(e) => nodes == old(nodes) && r == Err(e)
    {
      var k := KeyOf(from);
      if k !in nodes { return Err(NotFound); }
      var node := nodes[k];
      nodes := nodes - {k};
      nodes := nodes[KeyOf(to) := node];
      return Ok(());
    }

    method Truncate(p: Path, size: u64) returns (r: VfsResult<()>)
      modifies this
      ensures match EditIn(old(nodes), p, Cut(size))
              case Ok(m) => nodes == m && r == Ok(())
              case Err(e) => nodes == old(nodes) && r == Err(e)
    {
      var k := KeyOf(p);
      if k !in nodes { return Err(NotFound); }
      match nodes[k]
      case FileNode(d) =>
        nodes := nodes[k := FileNode(Resize(d, size))];
        return Ok(());
      case DirNode => return Err(IsADirectory);
    }
  }

  lemma ChildrenFirst(m: Table, dir: Key, k: Key, order: seq<Key>)
    ensures ChildrenIn(m, dir, [k] + order) == ChildrenIn(m, dir, [k]) + ChildrenIn(m, dir, order)
  {
    assert ([k] + order)[1..] == order;
  }

  lemma {:induction false} ChildrenAppend(m: Table, dir: Key, order: seq<Key>, k: Key)
    ensures ChildrenIn(m, dir, order + [k]) == ChildrenIn(m, dir, order) + ChildrenIn(m, dir, [k])
  {
    if order == [] {
      assert order + [k] == [k];
    } else {
      assert order + [k] == [order[0]] + (order[1..] + [k]);
      ChildrenFirst(m, dir, order[0], order[1..] + [k]);
      ChildrenFirst(m, dir, order[0], order[1..]);
      assert order == [order[0]] + order[1..];
      ChildrenAppend(m, dir, order[1..], k);
    }
  }

  // ------------------------------------------------ listing agrees with lookup

  /** A key the kernel can build from the root by adding names. */
  predicate Tidy(k: Key) {
    k.rooted && forall n <- k.comps :: Plain(n) && ValidUtf8(n)
  }

  predicate TidyTable(m: Table) {
    forall k <- m :: Tidy(k)
  }

  lemma {:induction false} ChildrenAreListed(m: Table, dir: Key, order: seq<Key>, k: Key)
    requires TidyTable(m) && k in m && IsChild(k, dir) && k in order
    ensures exists i :: 0 <= i < |ChildrenIn(m, dir, order)| && ChildrenIn(m, dir, order)[i] == EntryFor(m, k)
  {
    if order[0] == k {
      assert ChildrenIn(m, dir, order)[0] == EntryFor(m, k);
    } else {
      ChildrenAreListed(m, dir, order[1..], k);
      var rest := ChildrenIn(m, dir, order[1..]);
      var i :| 0 <= i < |rest| && rest[i] == EntryFor(m, k);
      var first := |ChildrenIn(m, dir, order)| - |rest|;
      assert ChildrenIn(m, dir, order)[first + i] == EntryFor(m, k);
    }
  }

  /** An entry's name names exactly the child it was made from. */
  lemma EntryNamesChild(m: Table, dir: Key, k: Key)
    requires TidyTable(m) && k in m && IsChild(k, dir)
    ensures k == Child(dir, EntryFor(m, k).name)
    ensures Plain(EntryFor(m, k).name)
  {
    var n := |k.comps| - 1;
    assert k.comps == k.comps[..n] + [k.comps[n]];
    assert k.comps[n] in k.comps;
  }

  lemma {:induction false} ListedAreStored(m: Table, dir: Key, order: seq<Key>)
    requires TidyTable(m)
    ensures forall e <- ChildrenIn(m, dir, order) ::
      Plain(e.name) && Child(dir, e.name) in m && e.kind == NodeKind(m[Child(dir, e.name)])
  {
    if order != [] {
      ListedAreStored(m, dir, order[1..]);
      if order[0] in m && IsChild(order[0], dir) {
        EntryNamesChild(m, dir, order[0]);
      }
    }
  }

  lemma {:induction false} ListedAreChildren(m: Table, dir: Key, order: seq<Key>)
    requires TidyTable(m)
    requires forall i, j :: 0 <= i < j < |order| ==> order[i] != order[j]
    ensures forall i :: 0 <= i < |ChildrenIn(m, dir, order)| ==>
      var e := ChildrenIn(m, dir, order)[i];
      Plain(e.name) && Child(dir, e.name) in order && Child(dir, e.name) in m
        && e == EntryFor(m, Child(dir, e.name)) && IsChild(Child(dir, e.name), dir)
    ensures forall i, j :: 0 <= i < j < |ChildrenIn(m, dir, order)| ==>
      ChildrenIn(m, dir, order)[i].name != ChildrenIn(m, dir, order)[j].name
  {
    if order != [] {
      ListedAreChildren(m, dir, order[1..]);
      if order[0] in m && IsChild(order[0], dir) {
        EntryNamesChild(m, dir, order[0]);
        var rest := ChildrenIn(m, dir, order[1..]);
        assert order[0] !in order[1..];
        assert forall i :: 0 <= i < |rest| ==> rest[i].name != EntryFor(m, order[0]).name;
      }
    }
  }

  function Children(m: set<Key>, dir: Key): set<Key> { set k | k in m && IsChild(k, dir) }

  function Met(m: Table, order: seq<Key>): set<Key> { set k | k in order && k in m }

  lemma MetFirst(m: Table, dir: Key, order: seq<Key>)
    requires order != []
    ensures Children(Met(m, order), dir) ==
      Children(Met(m, order[1..]), dir) + (if order[0] in m && IsChild(order[0], dir) then {order[0]} else {})
  {
    hide IsChild;
    assert order == [order[0]] + order[1..];
  }

  /** A listing has as many entries as the directory has children. */
  lemma {:induction false} ChildrenCounted(m: Table, dir: Key, order: seq<Key>)
    requires forall i, j :: 0 <= i < j < |order| ==> order[i] != order[j]
    ensures |ChildrenIn(m, dir, order)| == |Children(Met(m, order), dir)|
  {
    hide IsChild, EntryFor;
    if order != [] {
      ChildrenCounted(m, dir, order[1..]);
      MetFirst(m, dir, order);
      assert order[0] !in order[1..];
      assert order[0] !in Met(m, order[1..]);
    }
  }

  lemma ListingCounted(m: Table, p: Path, order: seq<Key>)
    requires Enumerates(order, m.Keys) && ListIn(m, p, order).Ok?
    ensures |ListIn(m, p, order).value| == |Children(m.Keys, KeyOf(p))|
  {
    hide KeyOf;
    ChildrenCounted(m, KeyOf(p), order);
    assert Met(m, order) == m.Keys;
  }

  /** A child is one component longer. */
  lemma IsChildIff(k: Key, dir: Key)
    ensures IsChild(k, dir) <==>
      k.rooted == dir.rooted && |k.comps| == |dir.comps| + 1 && k.comps[..|dir.comps|] == dir.comps
    ensures IsChild(k, dir) <==> exists n: Name :: k == Key(dir.rooted, dir.comps + [n])
  {
    if IsChild(k, dir) {
      var n := k.comps[|dir.comps|];
      assert k.comps == dir.comps + [n];
    }
  }

  /** Every name a listing yields can be looked up at once, with the same kind; every
      stored path directly below the directory is listed, and under one entry only. */
  lemma ListingAgreesWithLookup(m: Table, p: Path, order: seq<Key>, now: i64)
    requires TidyTable(m) && KeyOf(p).rooted && Enumerates(order, m.Keys)
    requires ListIn(m, p, order).Ok?
    ensures
      var es := ListIn(m, p, order).value;
      && (forall e <- es :: Plain(e.name) && StatIn(m, Push(p, e.name), now).Ok?
            && StatIn(m, Push(p, e.name), now).value.kind == e.kind)
      && (forall k <- m :: IsChild(k, KeyOf(p)) ==>
            exists i :: 0 <= i < |es| && KeyOf(Push(p, es[i].name)) == k && es[i].kind == NodeKind(m[k]))
      && (forall i, j :: 0 <= i < j < |es| ==> es[i].name != es[j].name)
  {
    hide KeyOf, Push;
    var dir := KeyOf(p);
    var es := ListIn(m, p, order).value;
    ListedAreChildren(m, dir, order);
    forall i | 0 <= i < |es|
      ensures KeyOf(Push(p, es[i].name)) == Child(dir, es[i].name)
    {
      PushAddsComponent(p, es[i].name);
    }
    forall k <- m | IsChild(k, dir)
      ensures exists i :: 0 <= i < |es| && KeyOf(Push(p, es[i].name)) == k && es[i].kind == NodeKind(m[k])
    {
      ChildrenAreListed(m, dir, order, k);
      EntryNamesChild(m, dir, k);
      var i :| 0 <= i < |es| && es[i] == EntryFor(m, k);
      assert KeyOf(Push(p, es[i].name)) == k;
    }
  }

  // ------------------------------------------------ as a filesystem value

  /** What a call may depend on besides the table: the time, and the order in which
      the hash table happens to be iterated. Both may differ at every call. */
  datatype Env = Env(now: i64, order: seq<Key>)

  datatype Mem = Mem(nodes: Table, env: nat -> Env, step: nat) {
    function Now(): i64 { env(step).now }
    function Next(): Mem { this.(step := step + 1) }
    function With(m: Table): Mem { Mem(m, env, step + 1) }

    function Made(p: Path, r: VfsResult<Table>): (Mem, VfsResult<FileAttr>) {
      match r case Ok(m) => (With(m), StatIn(m, p, Now())) case Err(e) => (Next(), Err(e))
    }

    function Changed<T>(r: VfsResult<Table>, answer: T): (Mem, VfsResult<T>) {
      match r case Ok(m) => (With(m), Ok(answer)) case Err(e) => (Next(), Err(e))
    }
  }

  function MemVfs(): Vfs<Mem> {
    Vfs(
      (s: Mem, p) => (s.Next(), StatIn(s.nodes, p, s.Now())),
      (s: Mem, p) => (s.Next(), ListIn(s.nodes, p, s.env(s.step).order)),
      (s: Mem, p, o, n) => (s.Next(), ReadIn(s.nodes, p, o, n)),
      (s: Mem, p, o, d) => s.Changed(EditIn(s.nodes, p, Wrote(o, d)), Count(d)),
      (s: Mem, p, _) => s.Made(p, MakeIn(s.nodes, p, FileNode([]))),
      (s: Mem, p, _) => s.Made(p, MakeIn(s.nodes, p, DirNode)),
      (s: Mem, p) => s.Changed(RemoveIn(s.nodes, p), ()),
      (s: Mem, p) => s.Changed(RemoveIn(s.nodes, p), ()),
      (s: Mem, f, t) => s.Changed(RenameIn(s.nodes, f, t), ()),
      (s: Mem, p, n) => s.Changed(EditIn(s.nodes, p, Cut(n)), ()))
  }
}
