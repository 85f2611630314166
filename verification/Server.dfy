/** The host side: one loop per connection that reads a frame, calls the
    filesystem and writes the answer. */
module Server {
  import opened Prelude
  import opened Utf8
  import opened VfsCore
  import opened Proto
  import opened Wire
  import opened Frame

  function EncodeRequest(q: Request): (r: Option<seq<byte>>)
    ensures r.Some? <==> PathsEncodable(q) && |PutRequest(q)| < TWO_32
    ensures r.Some? ==> |r.value| == 4 + |PutRequest(q)|
  {
    if PathsEncodable(q) then Seal(PutRequest(q)) else None
  }

  /** A request can be sent exactly when its paths are text, in whatever script, and it
      is not too long for a header. */
  lemma EncodableIff(q: Request)
    ensures EncodeRequest(q).Some? <==>
      && |PutRequest(q)| < 0x1_0000_0000
      && match q {
           case Hello(_) => true
           case Rename(from, to) => IsText(from) && IsText(to)
           case _ => IsText(q.path)
         }
  {
    hide ValidUtf8, IsText, PutRequest;
    if q.Rename? {
      ValidUtf8Iff(q.from);
      ValidUtf8Iff(q.to);
    } else if !q.Hello? {
      ValidUtf8Iff(q.path);
    }
  }

  function EncodeResponse(r: Response): Option<seq<byte>> { Seal(PutResponse(r)) }

  function Handle<S>(v: Vfs<S>, s: S, q: Request): (S, Response) {
    match q
    case Hello(_) => (s, RHello(PROTOCOL_VERSION))
    case Stat(p) => var (s', x) := v.stat(s, p); (s', RStat(x))
    case List(p) => var (s', x) := v.list(s, p); (s', RList(x))
    case Read(p, o, n) => var (s', x) := v.read(s, p, o, n); (s', RRead(x))
    case Write(p, o, d) => var (s', x) := v.write(s, p, o, d); (s', RWrite(x))
    case Create(p, m) => var (s', x) := v.create(s, p, m); (s', RCreate(x))
    case Mkdir(p, m) => var (s', x) := v.mkdir(s, p, m); (s', RMkdir(x))
    case Remove(p) => var (s', x) := v.remove(s, p); (s', RRemove(x))
    case Rmdir(p) => var (s', x) := v.rmdir(s, p); (s', RRmdir(x))
    case Rename(f, t) => var (s', x) := v.rename(s, f, t); (s', RRename(x))
    case Truncate(p, n) => var (s', x) := v.truncate(s, p, n); (s', RTruncate(x))
  }

  /** The request at the front of the stream, if there is a well-formed one. Bytes
      of a payload after the decoded message are ignored, as `from_bytes` does. */
  function NextRequest(bs: seq<byte>): (r: Option<(Request, seq<byte>)>)
    ensures r.Some? ==> |r.value.1| < |bs|
  {
    match Open(bs)
    case Framed(payload, rest) =>
      (match GetRequest(payload)
       case Good(q, _) => Some((q, rest))
       case Bad => None)
    case _ => None
  }

  datatype Served<+S> = Served(state: S, calls: seq<Request>, out: seq<byte>)

  /** What serving a whole finite input amounts to. */
  function Serve<S>(v: Vfs<S>, s: S, input: seq<byte>): Served<S>
    decreases |input|
  {
    match NextRequest(input)
    case None => Served(s, [], [])
    case Some((q, rest)) =>
      var (s', r) := Handle(v, s, q);
      match EncodeResponse(r)
      case None => Served(s', [q], [])
      case Some(f) =>
        var more := Serve(v, s', rest);
        Served(more.state, [q] + more.calls, f + more.out)
  }

  /** One turn of the loop. */
  lemma ServeUnfolds<S>(v: Vfs<S>, s: S, input: seq<byte>)
    ensures NextRequest(input).None? ==> Serve(v, s, input) == Served(s, [], [])
    ensures NextRequest(input).Some? ==>
      var q, rest := NextRequest(input).value.0, NextRequest(input).value.1;
      var s', r := Handle(v, s, q).0, Handle(v, s, q).1;
      var more := Serve(v, s', rest);
      && (EncodeResponse(r).None? ==> Serve(v, s, input) == Served(s', [q], []))
      && (EncodeResponse(r).Some? ==>
            Serve(v, s, input) == Served(more.state, [q] + more.calls, EncodeResponse(r).value + more.out))
  {
    hide GetRequest, PutResponse, Handle, Open;
  }

  /** `serve_stream`: stops on every finite input, however it is cut into reads. */
  method ServeStream<S>(stream: Duplex, v: Vfs<S>, s: S) returns (state: S, ghost calls: seq<Request>)
    modifies stream
    ensures state == Serve(v, s, old(stream.incoming)).state
    ensures calls == Serve(v, s, old(stream.incoming)).calls
    ensures stream.outgoing == old(stream.outgoing) + Serve(v, s, old(stream.incoming)).out
  {
    hide GetRequest, PutResponse, Handle, Open, Serve;
    ghost var all := Serve(v, s, stream.incoming);
    ghost var todo := all;
    state, calls := s, [];
    while true
      invariant todo == Serve(v, state, stream.incoming)
      invariant todo.state == all.state && calls + todo.calls == all.calls
      invariant stream.outgoing + todo.out == old(stream.outgoing) + all.out
      decreases |stream.incoming|
    {
      ServeUnfolds(v, state, stream.incoming);
      var payload := stream.ReadFrame();
      if payload == None {
        return;
      }
      var parsed := GetRequest(payload.value);
      if parsed.Bad? {
        return;
      }
      var q := parsed.value;
      var (s', r) := Handle(v, state, q);
      state, calls := s', calls + [q];
      var ok := stream.WriteFrame(PutResponse(r));
      if !ok {
        return;
      }
      todo := Serve(v, state, stream.incoming);
    }
  }

  // ------------------------------------------------ the same, said of frames

  /** The filesystem called directly on each request in turn. */
  function CallAll<S>(v: Vfs<S>, s: S, qs: seq<Request>): (S, seq<Response>) {
    if qs == [] then (s, [])
    else
      var (s', r) := Handle(v, s, qs[0]);
      var (s'', rs) := CallAll(v, s', qs[1..]);
      (s'', [r] + rs)
  }

  lemma {:induction false} CallOneMore<S>(v: Vfs<S>, s: S, qs: seq<Request>, q: Request)
    ensures
      var (s', rs) := CallAll(v, s, qs);
      var (s'', r) := Handle(v, s', q);
      CallAll(v, s, qs + [q]) == (s'', rs + [r])
  {
    hide Handle;
    if qs == [] {
      assert qs + [q] == [q] && [q][1..] == [];
      var (s', r) := Handle(v, s, q);
      assert CallAll(v, s', []) == (s', []) && [r] + [] == [r] && [] + [r] == [r];
    } else {
      var (s1, r1) := Handle(v, s, qs[0]);
      CallOneMore(v, s1, qs[1..], q);
      assert (qs + [q])[1..] == qs[1..] + [q];
      var (s2, rs) := CallAll(v, s1, qs[1..]);
      var r := Handle(v, s2, q).1;
      assert [r1] + (rs + [r]) == ([r1] + rs) + [r];
    }
  }

  function SealAll(payloads: seq<seq<byte>>): seq<byte>
    requires forall p <- payloads :: |p| < TWO_32
  {
    if payloads == [] then [] else Seal(payloads[0]).value + SealAll(payloads[1..])
  }

  /** Payloads a server accepts, and the requests they carry. */
  predicate Carries(payloads: seq<seq<byte>>, qs: seq<Request>) {
    && |payloads| == |qs|
    && forall i :: 0 <= i < |qs| ==>
         |payloads[i]| <= LIMIT && GetRequest(payloads[i]).Good? && GetRequest(payloads[i]).value == qs[i]
  }

  predicate Sealable(rs: seq<Response>) {
    forall r <- rs :: EncodeResponse(r).Some?
  }

  function AnswerBytes(rs: seq<Response>): seq<byte>
    requires Sealable(rs)
  {
    if rs == [] then [] else EncodeResponse(rs[0]).value + AnswerBytes(rs[1..])
  }

  lemma FrontRequest(payload: seq<byte>, q: Request, later: seq<byte>)
    requires |payload| <= LIMIT && GetRequest(payload).Good? && GetRequest(payload).value == q
    ensures NextRequest(Seal(payload).value + later) == Some((q, later))
  {
    hide GetRequest;
    OpenSealed(payload, later);
  }

  /** The calls made are those of the longest prefix of well-formed frames, in
      order, and the output is exactly their answers. */
  lemma {:induction false} ServeCallsEachFrame<S>(
    v: Vfs<S>, s: S, payloads: seq<seq<byte>>, qs: seq<Request>, junk: seq<byte>)
    requires Carries(payloads, qs) && NextRequest(junk).None?
    requires Sealable(CallAll(v, s, qs).1)
    ensures Serve(v, s, SealAll(payloads) + junk) ==
            Served(CallAll(v, s, qs).0, qs, AnswerBytes(CallAll(v, s, qs).1))
  {
    hide GetRequest, EncodeResponse, Handle, NextRequest, Seal;
    if qs == [] {
      assert SealAll(payloads) + junk == junk;
    } else {
      var later := SealAll(payloads[1..]) + junk;
      assert SealAll(payloads) + junk == Seal(payloads[0]).value + later;
      FrontRequest(payloads[0], qs[0], later);
      var (s', r) := Handle(v, s, qs[0]);
      var rs := CallAll(v, s', qs[1..]).1;
      assert ([r] + rs)[0] == r && ([r] + rs)[1..] == rs;
      ServeCallsEachFrame(v, s', payloads[1..], qs[1..], junk);
      assert qs == [qs[0]] + qs[1..];
    }
  }

  /** When some answer cannot be framed, its call is still made, but nothing is
      written for it and no later frame is served. */
  lemma {:induction false} ServeStopsAtOversizeAnswer<S>(
    v: Vfs<S>, s: S, payloads: seq<seq<byte>>, qs: seq<Request>, junk: seq<byte>, k: nat)
    requires Carries(payloads, qs) && k < |qs|
    requires Sealable(CallAll(v, s, qs[..k]).1)
    requires EncodeResponse(Handle(v, CallAll(v, s, qs[..k]).0, qs[k]).1).None?
    ensures Serve(v, s, SealAll(payloads) + junk) ==
            Served(CallAll(v, s, qs[..k + 1]).0, qs[..k + 1], AnswerBytes(CallAll(v, s, qs[..k]).1))
  {
    hide GetRequest, EncodeResponse, Handle, NextRequest, Seal;
    var later := SealAll(payloads[1..]) + junk;
    assert SealAll(payloads) + junk == Seal(payloads[0]).value + later;
    FrontRequest(payloads[0], qs[0], later);
    assert qs[..k + 1] == [qs[0]] + qs[1..][..k];
    if k > 0 {
      var (s', r) := Handle(v, s, qs[0]);
      assert qs[..k] == [qs[0]] + qs[1..][..k - 1];
      var rs := CallAll(v, s', qs[1..][..k - 1]).1;
      assert ([r] + rs)[0] == r && ([r] + rs)[1..] == rs;
      ServeStopsAtOversizeAnswer(v, s', payloads[1..], qs[1..], junk, k - 1);
    }
  }

  /** Every input is such a prefix followed by bytes that are not a frame. */
  lemma {:induction false} EveryInputSplits(input: seq<byte>)
    returns (payloads: seq<seq<byte>>, qs: seq<Request>, junk: seq<byte>)
    ensures Carries(payloads, qs) && NextRequest(junk).None?
    ensures input == SealAll(payloads) + junk
    decreases |input|
  {
    hide GetRequest, Open, Seal;
    if NextRequest(input).None? {
      payloads, qs, junk := [], [], input;
    } else {
      var Framed(p, rest) := Open(input);
      var ps, qs', j := EveryInputSplits(rest);
      payloads, qs, junk := [p] + ps, [GetRequest(p).value] + qs', j;
      OpenInverse(input);
      assert payloads[1..] == ps;
      assert SealAll(payloads) == Seal(p).value + SealAll(ps);
    }
  }
}
