/** The bytes of one file under positional writes and truncation. */
module FileBytes {
  import opened Prelude

  /** Grow with zeros if needed, then overwrite in place. */
  function WriteAt(d: seq<byte>, o: nat, data: seq<byte>): (r: seq<byte>)
    ensures |r| == Max(|d|, o + |data|)
    ensures forall i :: 0 <= i < |r| ==>
      r[i] == (if o <= i < o + |data| then data[i - o] else if i < |d| then d[i] else 0)
  {
    var grown := if |d| < o + |data| then Resize(d, o + |data|) else d;
    grown[..o] + data + grown[o + |data|..]
  }

  /** The part of `d` a read at `o` of at most `len` bytes sees. */
  function Slice(d: seq<byte>, o: nat, len: nat): (r: seq<byte>)
    ensures |r| == Max(0, Min(len, |d| - o))
    ensures forall i :: 0 <= i < |r| ==> r[i] == d[o + i]
  {
    if o >= |d| then [] else d[o..Min(o + len, |d|)]
  }

  // ---------------------------------------------------------------- histories

  datatype Edit = Wrote(off: nat, data: seq<byte>) | Cut(size: nat)

  function Edited(d: seq<byte>, e: Edit): seq<byte> {
    match e
    case Wrote(o, data) => WriteAt(d, o, data)
    case Cut(n) => Resize(d, n)
  }

  function Content(h: seq<Edit>): seq<byte> {
    if h == [] then [] else Edited(Content(h[..|h| - 1]), h[|h| - 1])
  }

  predicate Covers(e: Edit, i: nat) { e.Wrote? && e.off <= i < e.off + |e.data| }

  predicate CutsOff(e: Edit, i: nat) { e.Cut? && e.size <= i }

  /** Byte `i` was last set by edit `j`, and nothing since has touched it. */
  ghost predicate LastWriter(h: seq<Edit>, j: int, i: nat) {
    && 0 <= j < |h| && Covers(h[j], i)
    && forall k :: j < k < |h| ==> !Covers(h[k], i) && !CutsOff(h[k], i)
  }

  /** The length once all edits are made: a write can only extend, a cut decides. */
  function Length(h: seq<Edit>): nat {
    if h == [] then 0
    else
      match h[|h| - 1]
      case Wrote(o, data) => Max(Length(h[..|h| - 1]), o + |data|)
      case Cut(n) => n
  }

  /** The edit byte `i` comes from, found by scanning back from the latest. */
  function Origin(h: seq<Edit>, i: nat): (r: Option<nat>)
    ensures r.Some? ==> r.value < |h| && Covers(h[r.value], i)
  {
    if h == [] then None
    else if Covers(h[|h| - 1], i) then Some(|h| - 1)
    else if CutsOff(h[|h| - 1], i) then None
    else Origin(h[..|h| - 1], i)
  }

  lemma {:induction false} OriginIsLastWriter(h: seq<Edit>, i: nat, j: nat)
    ensures Origin(h, i) == Some(j) <==> LastWriter(h, j, i)
  {
    if h != [] {
      var front := h[..|h| - 1];
      OriginIsLastWriter(front, i, j);
      assert forall k :: 0 <= k < |front| ==> front[k] == h[k];
      hide Covers, CutsOff;
    }
  }

  lemma {:induction false} ContentByOrigin(h: seq<Edit>, i: nat)
    ensures |Content(h)| == Length(h)
    ensures Origin(h, i).Some? ==> i < Length(h)
    ensures i < Length(h) ==>
      Content(h)[i] == match Origin(h, i) case Some(j) => h[j].data[i - h[j].off] case None => 0
  {
    if h != [] {
      ContentByOrigin(h[..|h| - 1], i);
      hide WriteAt;
    }
  }

  /** Each byte is the one the latest write covering it put there, provided no later
      truncate cut it off; every other byte within the length is zero. */
  lemma LatestWriteWins(h: seq<Edit>, i: nat)
    ensures |Content(h)| == Length(h)
    ensures forall j :: LastWriter(h, j, i) ==> i < Length(h) && Content(h)[i] == h[j].data[i - h[j].off]
    ensures i < Length(h) && (forall j :: !LastWriter(h, j, i)) ==> Content(h)[i] == 0
  {
    ContentByOrigin(h, i);
    forall j: nat ensures Origin(h, i) == Some(j) <==> LastWriter(h, j, i) {
      OriginIsLastWriter(h, i, j);
    }
    hide Content, Length, Origin;
  }
}
