/** The terminal bridge's escape filter: Ctrl-A then x leaves, everything else is
    passed on to the guest. */
module Repl {
  import opened Prelude

  const CTRL_A: byte := 0x01

  predicate IsX(b: byte) { b == 120 || b == 88 }

  /** The length of the run of Ctrl-A bytes at the end of `s`. */
  function RunLength(s: seq<byte>): (n: nat)
    ensures n <= |s|
  {
    if s != [] && s[|s| - 1] == CTRL_A then 1 + RunLength(s[..|s| - 1]) else 0
  }

  lemma {:induction false} RunIsMaximal(s: seq<byte>)
    ensures forall j :: |s| - RunLength(s) <= j < |s| ==> s[j] == 0x01
    ensures RunLength(s) < |s| ==> s[|s| - RunLength(s) - 1] != 0x01
  {
    if s != [] && s[|s| - 1] == CTRL_A {
      RunIsMaximal(s[..|s| - 1]);
    }
  }

  predicate OddRun(s: seq<byte>) { RunLength(s) % 2 == 1 }

  /** Byte `i` is an x that comes right after a maximal run of Ctrl-A of odd length. */
  predicate EscapeAt(s: seq<byte>, i: int) {
    0 <= i < |s| && (s[i] == 'x' as int || s[i] == 'X' as int) && OddRun(s[..i])
  }

  ghost predicate FirstEscape(s: seq<byte>, i: int) {
    EscapeAt(s, i) && forall j :: 0 <= j < i ==> !EscapeAt(s, j)
  }

  ghost predicate NoEscape(s: seq<byte>) {
    forall i :: 0 <= i < |s| ==> !EscapeAt(s, i)
  }

  lemma RunGrows(s: seq<byte>, b: byte)
    ensures OddRun(s + [b]) <==> (b == CTRL_A && !OddRun(s))
  {
    assert (s + [b])[..|s|] == s;
  }

  /** Whether a byte escapes depends only on what came before it. */
  lemma EscapeIsLocal(s: seq<byte>, t: seq<byte>, i: int)
    requires s <= t && 0 <= i < |s|
    ensures EscapeAt(s, i) <==> EscapeAt(t, i)
  {
    assert s[..i] == t[..i];
  }

  function Held(pending: bool): seq<byte> { if pending then [0x01] else [] }

  class EscapeFilter {
    var pendingCtrlA: bool
    var sent: seq<byte>
    ghost var seen: seq<byte>

    /** While it has not left, what was sent and what is held back is all the input. */
    ghost predicate Valid()
      reads this
    {
      pendingCtrlA == OddRun(seen) && sent + Held(pendingCtrlA) == seen && NoEscape(seen)
    }

    constructor ()
      ensures Valid() && seen == [] && sent == []
    {
      pendingCtrlA, sent, seen := false, [], [];
    }

    /** One read of the terminal. The filter leaves exactly when the input so far has an
        escape, and that is its first; what this read held before it is not sent. */
    method Feed(buf: seq<byte>) returns (exited: bool)
      requires Valid()
      modifies this
      ensures exited <==> !NoEscape(old(seen) + buf)
      ensures !exited ==> Valid() && seen == old(seen) + buf
      ensures exited ==> sent == old(sent)
      ensures exited ==> exists k :: |old(seen)| <= k < |old(seen) + buf| && FirstEscape(old(seen) + buf, k)
    {
      hide EscapeAt, FirstEscape, NoEscape, OddRun;
      ghost var all := seen + buf;
      var out: seq<byte> := [];
      var i := 0;
      while i < |buf|
        invariant i <= |buf| && sent == old(sent)
        invariant seen == old(seen) + buf[..i]
        invariant pendingCtrlA == OddRun(seen) && NoEscape(seen)
        invariant sent + out + Held(pendingCtrlA) == seen
      {
        var b := buf[i];
        assert old(seen) + buf[..i + 1] == seen + [b];
        assert seen + [b] <= all;
        RunGrows(seen, b);
        NextByte(seen, b, all);
        if pendingCtrlA {
          if IsX(b) {
            return true;
          }
          out := out + [CTRL_A] + [b];
        } else if b != CTRL_A {
          out := out + [b];
        }
        pendingCtrlA := !pendingCtrlA && b == CTRL_A;
        seen := seen + [b];
        i := i + 1;
      }
      assert buf[..i] == buf;
      sent := sent + out;
      return false;
    }
  }

  /** The next byte either is the first escape or adds none. */
  lemma NextByte(seen: seq<byte>, b: byte, all: seq<byte>)
    requires NoEscape(seen) && seen + [b] <= all
    ensures if IsX(b) && OddRun(seen) then FirstEscape(all, |seen|) && !NoEscape(all) else NoEscape(seen + [b])
  {
    hide OddRun;
    assert all[..|seen|] == seen && all[|seen|] == b;
    forall j | 0 <= j < |seen|
      ensures EscapeAt(all, j) <==> EscapeAt(seen, j)
      ensures EscapeAt(seen + [b], j) <==> EscapeAt(seen, j)
    {
      EscapeIsLocal(seen, all, j);
      EscapeIsLocal(seen, seen + [b], j);
    }
    assert (seen + [b])[..|seen|] == seen;
    assert EscapeAt(all, |seen|) <==> IsX(b) && OddRun(seen);
  }

  function Flatten(chunks: seq<seq<byte>>): seq<byte> {
    if chunks == [] then [] else Flatten(chunks[..|chunks| - 1]) + chunks[|chunks| - 1]
  }

  /** The filter left during read `i`, at the first escape of the whole input, having
      sent all that the earlier reads completed and nothing of that one. */
  ghost predicate LeftDuring(chunks: seq<seq<byte>>, i: nat, sent: seq<byte>)
    requires i < |chunks|
  {
    var before := Flatten(chunks[..i]);
    && sent + Held(OddRun(before)) == before
    && exists k :: |before| <= k < |before| + |chunks[i]| && FirstEscape(Flatten(chunks), k)
  }

  /** Whether it leaves, and at which byte, depends only on the reads' concatenation; so
      does what is sent if it stays. If it leaves, what the last read held is not sent. */
  method FeedAll(chunks: seq<seq<byte>>) returns (exited: bool, sent: seq<byte>, taken: nat)
    ensures exited <==> !NoEscape(Flatten(chunks))
    ensures !exited ==> taken == |chunks| && sent + Held(OddRun(Flatten(chunks))) == Flatten(chunks)
    ensures exited ==> 1 <= taken <= |chunks| && LeftDuring(chunks, taken - 1, sent)
  {
    hide FirstEscape, NoEscape, OddRun, Flatten, LeftDuring;
    var f := new EscapeFilter();
    EmptyInput();
    for i := 0 to |chunks|
      invariant f.Valid() && f.seen == Flatten(chunks[..i]) && fresh(f)
    {
      FlattenOneMore(chunks, i);
      ghost var before := f.sent;
      var left := f.Feed(chunks[i]);
      if left {
        Leaves(chunks, i, before);
        return true, f.sent, i + 1;
      }
    }
    assert chunks[..|chunks|] == chunks;
    return false, f.sent, |chunks|;
  }

  lemma EmptyInput()
    ensures Flatten([]) == []
  {
  }

  lemma FlattenOneMore(chunks: seq<seq<byte>>, i: nat)
    requires i < |chunks|
    ensures Flatten(chunks[..i + 1]) == Flatten(chunks[..i]) + chunks[i]
  {
    assert chunks[..i + 1][..i] == chunks[..i];
  }

  lemma {:induction false} FlattenPrefix(chunks: seq<seq<byte>>, i: nat)
    requires i <= |chunks|
    ensures Flatten(chunks[..i]) <= Flatten(chunks)
    decreases |chunks|
  {
    if i == |chunks| {
      assert chunks[..i] == chunks;
    } else {
      var front := chunks[..|chunks| - 1];
      assert front[..i] == chunks[..i];
      FlattenPrefix(front, i);
    }
  }

  /** The first escape of the reads so far is that of the whole input. */
  lemma Leaves(chunks: seq<seq<byte>>, i: nat, sent: seq<byte>)
    requires i < |chunks| && sent + Held(OddRun(Flatten(chunks[..i]))) == Flatten(chunks[..i])
    requires
      var before := Flatten(chunks[..i]);
      exists k :: |before| <= k < |before + chunks[i]| && FirstEscape(before + chunks[i], k)
    ensures LeftDuring(chunks, i, sent) && !NoEscape(Flatten(chunks))
  {
    hide EscapeAt, Flatten, OddRun;
    var before := Flatten(chunks[..i]);
    var k :| |before| <= k < |before + chunks[i]| && FirstEscape(before + chunks[i], k);
    FlattenOneMore(chunks, i);
    FlattenPrefix(chunks, i + 1);
    forall j | 0 <= j <= k
      ensures EscapeAt(before + chunks[i], j) <==> EscapeAt(Flatten(chunks), j)
    {
      EscapeIsLocal(before + chunks[i], Flatten(chunks), j);
    }
    assert FirstEscape(Flatten(chunks), k);
  }
}
