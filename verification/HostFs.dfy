/** The adapter that serves a host directory. The disk is a table from paths below
    the mount's root to nodes; `resolve` is taken to map each path to its own entry. */
module HostFs {
  import opened Prelude
  import opened VfsCore
  import opened Paths
  import opened FileBytes
  import opened MemoryVfs

  /** Stands for the text of an operating-system error with no mapping of its own. */
  const OS_ERROR: Str := []

  /** What opening with `create` and `truncate` and then writing at `o` leaves. */
  function Rewritten(o: nat, data: seq<byte>): seq<byte> {
    if data == [] then [] else WriteAt([], o, data)
  }

  /** Following a path from the root: every component on the way must be a directory.
      A regular file there is an error with no mapping of its own. */
  function Walk(m: Table, k: Key): VfsResult<Node>
    decreases |k.comps|
  {
    match Parent(k)
    case None => if k in m then Ok(m[k]) else Err(NotFound)
    case Some(d) =>
      match Walk(m, d)
      case Err(e) => Err(e)
      case Ok(FileNode(_)) => Err(Io(OS_ERROR))
      case Ok(DirNode) => if k in m then Ok(m[k]) else Err(NotFound)
  }

  /** Whether a missing file could be created at `k`: its parent is a directory. */
  function CanCreate(m: Table, k: Key): VfsResult<()> {
    match Parent(k)
    case None => Err(Io(OS_ERROR))
    case Some(d) =>
      match Walk(m, d)
      case Err(e) => Err(e)
      case Ok(FileNode(_)) => Err(Io(OS_ERROR))
      case Ok(DirNode) => Ok(())
  }

  /** Opening `k` for writing, creating it if it is missing. */
  function OpenForWrite(readOnly: bool, m: Table, k: Key): VfsResult<()> {
    if readOnly then Err(PermissionDenied)
    else match Walk(m, k)
      case Ok(DirNode) => Err(Io(OS_ERROR))
      case Ok(FileNode(_)) => Ok(())
      case Err(_) => CanCreate(m, k)
  }

  /** What a walk finds is what is stored. */
  lemma WalkFindsStored(m: Table, k: Key)
    ensures Walk(m, k).Ok? ==> k in m && Walk(m, k).value == m[k]
  {
  }

  /** Every stored path but the root lies in a stored directory. */
  ghost predicate TreeShaped(m: Table) {
    forall k <- m :: Parent(k).Some? ==> Parent(k).value in m && m[Parent(k).value].DirNode?
  }

  function Prefix(k: Key, n: nat): Key
    requires n <= |k.comps|
  {
    k.(comps := k.comps[..n])
  }

  /** A regular file is in the way. */
  ghost predicate Blocked(m: Table, k: Key) {
    exists n :: 0 <= n < |k.comps| && Prefix(k, n) in m && m[Prefix(k, n)].FileNode?
  }

  lemma BlockedBelow(m: Table, k: Key)
    requires k.comps != []
    ensures
      var d := Parent(k).value;
      Blocked(m, k) <==> Blocked(m, d) || (d in m && m[d].FileNode?)
  {
    var d, last := Parent(k).value, |k.comps| - 1;
    assert d == Prefix(k, last);
    assert forall n :: 0 <= n < last ==> Prefix(d, n) == Prefix(k, n) by {
      assert forall n :: 0 <= n < last ==> k.comps[..last][..n] == k.comps[..n];
    }
  }

  /** On a tree, exactly what is stored is found; otherwise the error tells whether some
      regular file is in the way. */
  lemma {:induction false} WalkOnTree(m: Table, k: Key)
    requires TreeShaped(m)
    ensures k in m ==> Walk(m, k) == Ok(m[k]) && !Blocked(m, k)
    ensures k !in m ==> Walk(m, k) == Err(if Blocked(m, k) then Io(OS_ERROR) else NotFound)
    decreases |k.comps|
  {
    hide Blocked;
    if k.comps != [] {
      WalkOnTree(m, Parent(k).value);
      BlockedBelow(m, k);
    } else {
      assert !Blocked(m, k) by { NothingAbove(m, k); }
    }
  }

  lemma NothingAbove(m: Table, k: Key)
    requires k.comps == []
    ensures !Blocked(m, k)
  {
  }

  /** Creating or rewriting a file keeps the tree. */
  lemma WritingKeepsTree(m: Table, k: Key, data: seq<byte>)
    requires TreeShaped(m) && OpenForWrite(false, m, k).Ok?
    ensures TreeShaped(m[k := FileNode(data)])
  {
    WalkFindsStored(m, k);
    if Parent(k).Some? {
      WalkFindsStored(m, Parent(k).value);
      WalkOnTree(m, k);
    }
    hide Walk;
  }

  /** Who may open a file for writing on a tree: nobody if it is read-only; otherwise it
      must be a stored file, or be missing from a stored directory. */
  lemma OpenForWriteIff(m: Table, k: Key)
    requires TreeShaped(m)
    ensures OpenForWrite(true, m, k) == Err(PermissionDenied)
    ensures
      var parent := if k.comps == [] then k else Prefix(k, |k.comps| - 1);
      && (OpenForWrite(false, m, k).Ok? <==>
            (k in m && m[k].FileNode?) || (k !in m && parent != k && parent in m && m[parent].DirNode?))
      && (OpenForWrite(false, m, k).Err? ==>
            OpenForWrite(false, m, k).error ==
              if k !in m && k.comps != [] && !Blocked(m, k) then NotFound else Io(OS_ERROR))
  {
    hide Blocked, Walk;
    WalkOnTree(m, k);
    if k.comps != [] {
      var d := Parent(k).value;
      assert d == Prefix(k, |k.comps| - 1);
      WalkOnTree(m, d);
      BlockedBelow(m, k);
    }
  }

  /** Storing at `k` leaves the walk to any path no longer than `k` as it was. */
  lemma {:induction false} WalkElsewhere(m: Table, k: Key, n: Node, d: Key)
    requires d != k && |d.comps| <= |k.comps|
    ensures Walk(m[k := n], d) == Walk(m, d)
    decreases |d.comps|
  {
    if d.comps != [] {
      WalkElsewhere(m, k, n, Parent(d).value);
    }
  }

  /** A file just opened for writing is found again. */
  lemma WalkBack(m: Table, k: Key, data: seq<byte>)
    requires OpenForWrite(false, m, k).Ok?
    ensures Walk(m[k := FileNode(data)], k) == Ok(FileNode(data))
  {
    if Parent(k).Some? {
      WalkElsewhere(m, k, FileNode(data), Parent(k).value);
    }
  }

  class HostDir {
    const readOnly: bool
    var disk: Table

    constructor (disk: Table, readOnly: bool)
      ensures this.disk == disk && this.readOnly == readOnly
    {
      this.disk, this.readOnly := disk, readOnly;
    }

    /** One `read` call at `pos`: some bytes unless at the end. */
    method ReadChunk(d: seq<byte>, pos: nat, cap: nat) returns (chunk: seq<byte>)
      requires cap > 0
      ensures chunk == [] <==> pos >= |d|
      ensures |chunk| <= cap && pos + |chunk| <= Max(pos, |d|)
      ensures chunk != [] ==> chunk == d[pos..pos + |chunk|]
    {
      if pos >= |d| {
        return [];
      }
      var n :| 1 <= n <= cap && pos + n <= |d|;
      return d[pos..pos + n];
    }

    /** Every schedule of short reads ends with the same bytes. */
    method Read(p: Path, offset: u64, len: u32) returns (r: VfsResult<seq<byte>>)
      ensures match Walk(disk, KeyOf(p))
        case Err(e) => r == Err(e)
        case Ok(node) =>
          if offset >= TWO_63 then r == Err(Io(OS_ERROR))
          else if node.DirNode? then r == if len == 0 then Ok([]) else Err(Io(OS_ERROR))
          else r == ReadIn(disk, p, offset, len) == Ok(Slice(node.data, offset, len))
    {
      WalkFindsStored(disk, KeyOf(p));
      match Walk(disk, KeyOf(p))
      case Err(e) => return Err(e);
      case Ok(node) =>
        if offset >= TWO_63 { return Err(Io(OS_ERROR)); }
        var buf := new byte[len](_ => 0);
        if node.DirNode? {
          if len > 0 { return Err(Io(OS_ERROR)); }
          return Ok(buf[..0]);
        }
        var filled := FillBuffer(node.data, offset, buf);
        return Ok(buf[..filled]);
    }

    method FillBuffer(d: seq<byte>, offset: nat, buf: array<byte>) returns (filled: nat)
      modifies buf
      ensures filled <= buf.Length && buf[..filled] == Slice(d, offset, buf.Length)
    {
      filled := 0;
      while filled < buf.Length
        invariant filled <= buf.Length
        invariant filled > 0 ==> offset + filled <= |d|
        invariant forall i :: 0 <= i < filled ==> buf[i] == d[offset + i]
      {
        var chunk := ReadChunk(d, offset + filled, buf.Length - filled);
        if chunk == [] {
          break;
        }
        forall i | 0 <= i < |chunk| {
          buf[filled + i] := chunk[i];
        }
        filled := filled + |chunk|;
      }
    }

    method Write(p: Path, offset: u64, data: seq<byte>) returns (r: VfsResult<u32>)
      modifies this
      ensures readOnly ==> disk == old(disk) && r == Err(PermissionDenied)
      ensures match OpenForWrite(readOnly, old(disk), KeyOf(p))
        case Err(e) => disk == old(disk) && r == Err(e)
        case Ok(_) =>
          if offset >= TWO_63 then disk == old(disk)[KeyOf(p) := FileNode([])] && r == Err(Io(OS_ERROR))
          else disk == old(disk)[KeyOf(p) := FileNode(Rewritten(offset, data))] && r == Ok(|data| % 0x1_0000_0000)
    {
      var k := KeyOf(p);
      var open := OpenForWrite(readOnly, disk, k);
      if open.Err? { return Err(open.error); }
      disk := disk[k := FileNode([])];
      if offset >= TWO_63 { return Err(Io(OS_ERROR)); }
      var d := WriteAll(offset, data);
      disk := disk[k := FileNode(d)];
      return Ok(Count(data));
    }

    /** `write_all` into an emptied file, some non-empty piece at a time. */
    method WriteAll(offset: u64, data: seq<byte>) returns (d: seq<byte>)
      ensures d == Rewritten(offset, data)
    {
      var left := data;
      var done: seq<byte> := [];
      d := [];
      assert d == Rewritten(offset, done);
      hide WriteAt, Rewritten;
      while left != []
        invariant data == done + left
        invariant d == Rewritten(offset, done)
        decreases |left|
      {
        var n :| 1 <= n <= |left|;
        var piece, rest := left[..n], left[n..];
        assert WriteAt(d, offset + |done|, piece) == Rewritten(offset, done + piece) by {
          WritesCompose(offset, done, piece);
        }
        assert left == piece + rest;
        assert done + left == (done + piece) + rest;
        d := WriteAt(d, offset + |done|, piece);
        done, left := done + piece, rest;
      }
      assert done == data;
    }

    /** Unlike the in-memory filesystem, `create` empties a file that exists. */
    method Create(p: Path, now: i64) returns (r: VfsResult<FileAttr>)
      modifies this
      ensures readOnly ==> disk == old(disk) && r == Err(PermissionDenied)
      ensures match OpenForWrite(readOnly, old(disk), KeyOf(p))
        case Err(e) => disk == old(disk) && r == Err(e)
        case Ok(_) => disk == old(disk)[KeyOf(p) := FileNode([])] && r == StatIn(disk, p, now)
    {
      var k := KeyOf(p);
      var open := OpenForWrite(readOnly, disk, k);
      if open.Err? { return Err(open.error); }
      disk := disk[k := FileNode([])];
      return Ok(AttrOf(disk[k], now));
    }

    method Truncate(p: Path, size: u64) returns (r: VfsResult<()>)
      modifies this
      ensures
        if readOnly then disk == old(disk) && r == Err(PermissionDenied)
        else match Walk(old(disk), KeyOf(p))
          case Err(e) => disk == old(disk) && r == Err(e)
          case Ok(node) =>
            if node.DirNode? || size >= TWO_63 then disk == old(disk) && r == Err(Io(OS_ERROR))
            else EditIn(old(disk), p, Cut(size)) == Ok(disk) && r == Ok(())
    {
      if readOnly { return Err(PermissionDenied); }
      var k := KeyOf(p);
      WalkFindsStored(disk, k);
      match Walk(disk, k)
      case Err(e) => return Err(e);
      case Ok(node) =>
        if node.DirNode? || size >= TWO_63 { return Err(Io(OS_ERROR)); }
        disk := disk[k := FileNode(Resize(node.data, size))];
        return Ok(());
    }
  }

  /** Consecutive pieces written from a truncated start are one write. */
  lemma WritesCompose(o: nat, a: seq<byte>, b: seq<byte>)
    requires b != []
    ensures WriteAt(Rewritten(o, a), o + |a|, b) == Rewritten(o, a + b)
  {
    var x, y := WriteAt(Rewritten(o, a), o + |a|, b), Rewritten(o, a + b);
    assert |x| == |y|;
    forall i | 0 <= i < |x|
      ensures x[i] == y[i]
    {
    }
  }

  // ------------------------------------------------ against a positional write

  /** When a truncating write happens to leave what a positional write would. */
  predicate NothingLost(before: seq<byte>, o: nat, data: seq<byte>) {
    if data == [] then before == [] && o == 0
    else |before| <= o + |data| && forall i :: 0 <= i < |before| && i < o ==> before[i] == 0
  }

  /** `write` is the positional write of the filesystem interface exactly then. */
  lemma WriteIsPositionalIff(before: seq<byte>, o: nat, data: seq<byte>)
    ensures Rewritten(o, data) == WriteAt(before, o, data) <==> NothingLost(before, o, data)
  {
    var x, y := Rewritten(o, data), WriteAt(before, o, data);
    if NothingLost(before, o, data) {
      assert |x| == |y|;
      assert forall i :: 0 <= i < |x| ==> x[i] == y[i];
    } else if |x| == |y| {
      assert data != [];
      var i :| 0 <= i < |before| && i < o && before[i] != 0;
      assert x[i] != y[i];
    }
  }

  /** Of any sequence of writes to one file, only the last leaves a trace. */
  function AllRewritten(d: seq<byte>, writes: seq<(nat, seq<byte>)>): seq<byte>
    decreases |writes|
  {
    if writes == [] then d else AllRewritten(Rewritten(writes[0].0, writes[0].1), writes[1..])
  }

  lemma {:induction false} OnlyLastWriteSurvives(d: seq<byte>, writes: seq<(nat, seq<byte>)>)
    requires writes != []
    ensures AllRewritten(d, writes) == Rewritten(writes[|writes| - 1].0, writes[|writes| - 1].1)
    decreases |writes|
  {
    if |writes| > 1 {
      OnlyLastWriteSurvives(Rewritten(writes[0].0, writes[0].1), writes[1..]);
    }
  }

  /** A file copied in two chunks comes out with the first chunk zeroed. */
  lemma TwoChunkCopyFails()
    ensures AllRewritten([], [(0, [1]), (1, [2])]) == [0, 2]
    ensures WriteAt(WriteAt([], 0, [1]), 1, [2]) == [1, 2]
  {
    OnlyLastWriteSurvives([], [(0, [1]), (1, [2])]);
  }
}
