/** Frames: a 4-byte big-endian length and that many bytes, over a stream that
    may deliver and accept bytes in pieces of any size. */
module Frame {
  import opened Prelude

  /** `read_frame` refuses more than this; `write_frame` allows any u32. */
  const LIMIT: nat := 64 * 1024 * 1024

  function BigEndian(n: u32): (r: seq<byte>)
    ensures |r| == 4
  {
    [n / 256 / 256 / 256, n / 256 / 256 % 256, n / 256 % 256, n % 256]
  }

  function FromBigEndian(b: seq<byte>): u32
    requires |b| == 4
  {
    256 * (256 * (256 * (b[0] as int) + b[1]) + b[2]) + b[3]
  }

  lemma BigEndianRoundTrip(n: u32)
    ensures FromBigEndian(BigEndian(n)) == n
  {
  }

  lemma BigEndianInverse(b: seq<byte>)
    requires |b| == 4
    ensures BigEndian(FromBigEndian(b)) == b
  {
    var q := 256 * (256 * (b[0] as int) + b[1]) + b[2];
    Digit(q, b[3]);
    Digit(256 * (b[0] as int) + b[1], b[2]);
    Digit(b[0], b[1]);
  }

  lemma Digit(q: nat, d: byte)
    ensures (256 * q + d) / 256 == q && (256 * q + d) % 256 == d
  {
  }

  /** The bytes of one frame; None when the payload is too long for its header. */
  function Seal(payload: seq<byte>): (r: Option<seq<byte>>)
    ensures r.Some? <==> |payload| < TWO_32
    ensures r.Some? ==> |r.value| == 4 + |payload|
  {
    if |payload| < TWO_32 then Some(BigEndian(|payload|) + payload) else None
  }

  /** What `read_frame` makes of the front of a byte string. */
  datatype Front =
    | Short
    | TooLarge(rest: seq<byte>)
    | Framed(payload: seq<byte>, rest: seq<byte>)

  function Open(bs: seq<byte>): (f: Front)
    ensures f.Framed? ==> |f.payload| <= LIMIT && |f.rest| + 4 + |f.payload| == |bs|
  {
    if |bs| < 4 then Short
    else
      var n := FromBigEndian(bs[..4]);
      if n > LIMIT then TooLarge(bs[4..])
      else if |bs| - 4 < n then Short
      else Framed(bs[4..4 + n], bs[4 + n..])
  }

  /** A sealed frame is read back exactly, unless it is over the reader's limit;
      then its payload is left on the stream, where the next read starts. */
  lemma OpenSealed(payload: seq<byte>, rest: seq<byte>)
    requires |payload| < TWO_32
    ensures Open(Seal(payload).value + rest) ==
            if |payload| <= 67108864 then Framed(payload, rest) else TooLarge(payload + rest)
  {
    var bs := Seal(payload).value + rest;
    BigEndianRoundTrip(|payload|);
    assert bs[..4] == BigEndian(|payload|);
    assert bs[4..] == payload + rest;
    assert |payload| <= LIMIT ==> bs[4..4 + |payload|] == payload && bs[4 + |payload|..] == rest;
  }

  /** The header is the length, its highest byte first, and the rest is the payload. */
  lemma FrameBytes(payload: seq<byte>)
    requires |payload| < 0x1_0000_0000
    ensures Seal(payload).Some?
    ensures
      var f := Seal(payload).value;
      && 0x100_0000 * (f[0] as int) + 0x1_0000 * (f[1] as int) + 0x100 * (f[2] as int) + f[3] as int == |payload|
      && f[4..] == payload
  {
    BigEndianRoundTrip(|payload|);
  }

  /** No strict prefix of a frame within the limit can be mistaken for one. */
  lemma OpenPartial(payload: seq<byte>, cut: nat)
    requires |payload| <= LIMIT && cut < 4 + |payload|
    ensures Open(Seal(payload).value[..cut]) == Short
  {
    var bs := Seal(payload).value[..cut];
    BigEndianRoundTrip(|payload|);
    assert cut >= 4 ==> bs[..4] == BigEndian(|payload|);
  }

  /** Whatever is taken for a frame is one. */
  lemma OpenInverse(bs: seq<byte>)
    requires Open(bs).Framed?
    ensures bs == Seal(Open(bs).payload).value + Open(bs).rest
  {
    BigEndianInverse(bs[..4]);
  }

  // ---------------------------------------------------------------- a stream

  /** One end of a duplex byte stream. `incoming` is all the peer will still
      deliver before it closes; how it is cut into reads is unspecified. */
  class Duplex {
    var incoming: seq<byte>
    var outgoing: seq<byte>

    constructor (incoming: seq<byte>)
      ensures this.incoming == incoming && outgoing == []
    {
      this.incoming, outgoing := incoming, [];
    }

    /** One `read`: some non-empty piece, or nothing at end of stream. */
    method ReadSome(cap: nat) returns (piece: seq<byte>)
      requires cap > 0
      modifies this`incoming
      ensures piece + incoming == old(incoming)
      ensures |piece| <= cap
      ensures piece == [] <==> old(incoming) == []
    {
      if incoming == [] {
        return [];
      }
      var n :| 1 <= n <= |incoming| && n <= cap;
      piece := incoming[..n];
      incoming := incoming[n..];
    }

    /** `read_exact`: fill the whole buffer, or fail having drained the stream. */
    method ReadExact(buf: array<byte>) returns (ok: bool)
      modifies this`incoming, buf
      ensures ok == (buf.Length <= |old(incoming)|)
      ensures ok ==> buf[..] + incoming == old(incoming)
      ensures !ok ==> incoming == []
    {
      var filled := 0;
      while filled < buf.Length
        invariant filled <= buf.Length
        invariant buf[..filled] + incoming == old(incoming)
      {
        var piece := ReadSome(buf.Length - filled);
        if piece == [] {
          return false;
        }
        ghost var before := buf[..filled];
        forall k | 0 <= k < |piece| {
          buf[filled + k] := piece[k];
        }
        assert buf[..filled + |piece|] == before + piece;
        filled := filled + |piece|;
      }
      assert buf[..] == buf[..filled];
      return true;
    }

    /** `write_all`: the transport takes some non-empty piece at a time. */
    method WriteAll(bytes: seq<byte>)
      modifies this`outgoing
      ensures outgoing == old(outgoing) + bytes
    {
      var sent := 0;
      while sent < |bytes|
        invariant sent <= |bytes|
        invariant outgoing == old(outgoing) + bytes[..sent]
      {
        var n :| 1 <= n <= |bytes| - sent;
        outgoing := outgoing + bytes[sent..sent + n];
        sent := sent + n;
        assert bytes[..sent] == bytes[..sent - n] + bytes[sent - n..sent];
      }
      assert bytes[..sent] == bytes;
    }

    /** `write_frame`: an oversize message is refused before any byte is sent. */
    method WriteFrame(payload: seq<byte>) returns (ok: bool)
      modifies this`outgoing
      ensures ok == Seal(payload).Some?
      ensures outgoing == old(outgoing) + (if ok then Seal(payload).value else [])
    {
      if |payload| >= TWO_32 {
        return false;
      }
      WriteAll(BigEndian(|payload|));
      WriteAll(payload);
      return true;
    }

    /** `read_frame`, up to decoding: however the bytes arrive, the outcome is
        that of `Open` on the whole remaining stream. */
    method ReadFrame() returns (payload: Option<seq<byte>>)
      modifies this`incoming
      ensures match Open(old(incoming))
              case Framed(p, rest) => payload == Some(p) && incoming == rest
              case TooLarge(rest) => payload == None && incoming == rest
              case Short => payload == None && incoming == []
    {
      ghost var all := incoming;
      var header := new byte[4];
      var ok := ReadExact(header);
      if !ok {
        return None;
      }
      assert all[..4] == header[..] && all[4..] == incoming;
      var len := FromBigEndian(header[..]);
      if len > LIMIT {
        return None;
      }
      var buf := new byte[len];
      ok := ReadExact(buf);
      if !ok {
        return None;
      }
      assert all[4..4 + len] == buf[..] && all[4 + len..] == incoming;
      return Some(buf[..]);
    }
  }
}
