/** The postcard wire format: varints, zigzag integers, length-prefixed
    sequences and tagged unions, with the serde data model of `Request` and
    `Response`. Every decoder returns the bytes it did not consume. */
module Wire {
  import opened Prelude
  import opened Utf8
  import opened VfsCore
  import opened Proto

  datatype Parsed<+T> = Bad | Good(value: T, rest: seq<byte>) {
    predicate IsFailure() { Bad? }
    function PropagateFailure<U>(): Parsed<U>
      requires Bad?
    {
      Bad
    }
    function Extract(): (T, seq<byte>)
      requires Good?
    {
      (value, rest)
    }
  }

  // ---------------------------------------------------------------- varints

  function PutVarint(n: nat): (r: seq<byte>)
    ensures |r| >= 1
  {
    if n < 128 then [n] else [128 + n % 128] + PutVarint(n / 128)
  }

  /** One more than the largest value of a varint of at most `k` bytes whose
      `k`-th byte is at most `last`. */
  function VarintBound(k: nat, last: nat): (r: nat)
    ensures k >= 1 ==> r >= 1
    ensures k >= 2 ==> r >= 128
  {
    if k == 0 then 0 else if k == 1 then last + 1 else 128 * VarintBound(k - 1, last)
  }

  lemma IntegerBounds()
    ensures VarintBound(5, 15) == TWO_32
    ensures VarintBound(10, 1) == TWO_64
  {
    assert VarintBound(3, 15) == 16 * 128 * 128;
    assert VarintBound(5, 15) == 128 * 128 * VarintBound(3, 15);
    assert VarintBound(4, 1) == 2 * 128 * 128 * 128;
    assert VarintBound(7, 1) == 128 * 128 * 128 * VarintBound(4, 1);
    assert VarintBound(10, 1) == 128 * 128 * 128 * VarintBound(7, 1);
  }

  /** Longer-than-needed encodings are accepted, as in the format; too many bytes
      or too large a last byte are not. */
  function GetVarint(k: nat, last: nat, bs: seq<byte>): (r: Parsed<nat>)
    ensures r.Good? ==> r.value < VarintBound(k, last)
    ensures r.Good? ==> |r.rest| < |bs|
  {
    if k == 0 || bs == [] then Bad
    else if bs[0] < 128 then
      if k == 1 && bs[0] > last then Bad else Good(bs[0], bs[1..])
    else if k == 1 then Bad
    else
      var (v, rest) :- GetVarint(k - 1, last, bs[1..]);
      Good(bs[0] - 128 + 128 * v, rest)
  }

  lemma {:induction false} VarintRoundTrip(k: nat, last: nat, n: nat, rest: seq<byte>)
    requires last < 128 && n < VarintBound(k, last)
    ensures GetVarint(k, last, PutVarint(n) + rest) == Good(n, rest)
  {
    var bs := PutVarint(n) + rest;
    if n < 128 {
      assert bs[1..] == rest;
    } else {
      VarintRoundTrip(k - 1, last, n / 128, rest);
      assert bs[1..] == PutVarint(n / 128) + rest;
    }
  }

  lemma {:induction false} VarintLength(k: nat, last: nat, n: nat)
    requires last < 128 && n < VarintBound(k, last)
    ensures |PutVarint(n)| <= k
  {
    if n >= 128 {
      VarintLength(k - 1, last, n / 128);
    }
  }

  /** `n` without its lowest `i` groups of seven bits. */
  function Shifted(n: nat, i: nat): nat { if i == 0 then n else Shifted(n / 128, i - 1) }

  /** Seven bits to a byte, the lowest first; all but the last byte are marked, and a
      last byte after another is not zero. */
  lemma {:induction false} VarintDigits(n: nat, i: nat)
    requires i < |PutVarint(n)|
    ensures PutVarint(n)[i] % 128 == Shifted(n, i) % 128
    ensures PutVarint(n)[i] >= 128 <==> i < |PutVarint(n)| - 1
    ensures 0 < i == |PutVarint(n)| - 1 ==> PutVarint(n)[i] > 0
  {
    if i > 0 {
      VarintDigits(n / 128, i - 1);
      assert PutVarint(n)[i] == PutVarint(n / 128)[i - 1];
    }
  }

  // ---------------------------------------------------------------- scalars

  function GetU32(bs: seq<byte>): Parsed<u32> {
    IntegerBounds();
    GetVarint(5, 15, bs)
  }

  function PutU32(n: u32): seq<byte> { PutVarint(n) }

  function GetU64(bs: seq<byte>): Parsed<u64> {
    IntegerBounds();
    GetVarint(10, 1, bs)
  }

  function ZigZag(n: i64): u64 {
    if n >= 0 then 2 * n else -2 * n - 1
  }

  function UnZigZag(u: u64): i64 {
    if u % 2 == 0 then u / 2 else -(u / 2) - 1
  }

  function PutI64(n: i64): seq<byte> { PutVarint(ZigZag(n)) }

  function GetI64(bs: seq<byte>): Parsed<i64> {
    var (u, rest) :- GetU64(bs);
    Good(UnZigZag(u), rest)
  }

  lemma U32RoundTrip(n: u32, rest: seq<byte>)
    ensures GetU32(PutVarint(n) + rest) == Good(n, rest)
  {
    IntegerBounds();
    VarintRoundTrip(5, 15, n, rest);
  }

  lemma U64RoundTrip(n: u64, rest: seq<byte>)
    ensures GetU64(PutVarint(n) + rest) == Good(n, rest)
  {
    IntegerBounds();
    VarintRoundTrip(10, 1, n, rest);
  }

  lemma I64RoundTrip(n: i64, rest: seq<byte>)
    ensures GetI64(PutI64(n) + rest) == Good(n, rest)
  {
    U64RoundTrip(ZigZag(n), rest);
  }

  // ---------------------------------------------------------------- byte strings

  function PutBytes(b: seq<byte>): seq<byte> { PutVarint(|b|) + b }

  function GetBytes(bs: seq<byte>): Parsed<seq<byte>> {
    var (n, rest) :- GetU64(bs);
    if n > |rest| then Bad else Good(rest[..n], rest[n..])
  }

  function GetStr(bs: seq<byte>): Parsed<Str> {
    var (s, rest) :- GetBytes(bs);
    if ValidUtf8(s) then Good(s, rest) else Bad
  }

  lemma BytesRoundTrip(b: seq<byte>, rest: seq<byte>)
    requires |b| < TWO_64
    ensures GetBytes(PutBytes(b) + rest) == Good(b, rest)
  {
    U64RoundTrip(|b|, b + rest);
    assert PutBytes(b) + rest == PutVarint(|b|) + (b + rest);
    assert (b + rest)[..|b|] == b && (b + rest)[|b|..] == rest;
  }

  // ---------------------------------------------------------------- structures

  function KindTag(k: FsKind): nat {
    match k case File => 0 case Dir => 1 case Symlink => 2
  }

  function GetKind(bs: seq<byte>): Parsed<FsKind> {
    var (t, rest) :- GetU32(bs);
    if t == 0 then Good(FsKind.File, rest)
    else if t == 1 then Good(FsKind.Dir, rest)
    else if t == 2 then Good(FsKind.Symlink, rest)
    else Bad
  }

  function PutAttr(a: FileAttr): seq<byte> {
    PutVarint(a.size) + (PutVarint(a.mode) + (PutVarint(KindTag(a.kind)) +
      (PutI64(a.mtimeSecs) + (PutI64(a.atimeSecs) + PutI64(a.ctimeSecs)))))
  }

  function GetAttr(bs: seq<byte>): Parsed<FileAttr> {
    var (size, r1) :- GetU64(bs);
    var (mode, r2) :- GetU32(r1);
    var (kind, r3) :- GetKind(r2);
    var (m, r4) :- GetI64(r3);
    var (a, r5) :- GetI64(r4);
    var (c, r6) :- GetI64(r5);
    Good(FileAttr(size, mode, kind, m, a, c), r6)
  }

  function PutEntry(e: DirEntry): seq<byte> {
    PutBytes(e.name) + PutVarint(KindTag(e.kind))
  }

  function GetEntry(bs: seq<byte>): Parsed<DirEntry> {
    var (name, r1) :- GetStr(bs);
    var (kind, r2) :- GetKind(r1);
    Good(DirEntry(name, kind), r2)
  }

  function PutEntryRun(es: seq<DirEntry>): (r: seq<byte>)
    ensures |r| >= |es|
  {
    if es == [] then [] else PutEntry(es[0]) + PutEntryRun(es[1..])
  }

  function GetEntryRun(n: nat, bs: seq<byte>): Parsed<seq<DirEntry>> {
    if n == 0 then Good([], bs)
    else
      var (e, r1) :- GetEntry(bs);
      var (es, r2) :- GetEntryRun(n - 1, r1);
      Good([e] + es, r2)
  }

  function PutEntries(es: seq<DirEntry>): seq<byte> { PutVarint(|es|) + PutEntryRun(es) }

  function GetEntries(bs: seq<byte>): Parsed<seq<DirEntry>> {
    var (n, r) :- GetU64(bs);
    GetEntryRun(n, r)
  }

  function PutError(e: VfsError): seq<byte> {
    match e
    case NotFound => PutVarint(0)
    case PermissionDenied => PutVarint(1)
    case AlreadyExists => PutVarint(2)
    case NotADirectory => PutVarint(3)
    case IsADirectory => PutVarint(4)
    case Io(msg) => PutVarint(5) + PutBytes(msg)
  }

  function GetError(bs: seq<byte>): Parsed<VfsError> {
    var (t, r) :- GetU32(bs);
    if t == 0 then Good(NotFound, r)
    else if t == 1 then Good(PermissionDenied, r)
    else if t == 2 then Good(AlreadyExists, r)
    else if t == 3 then Good(NotADirectory, r)
    else if t == 4 then Good(IsADirectory, r)
    else if t == 5 then
      var (msg, r') :- GetStr(r);
      Good(Io(msg), r')
    else Bad
  }

  function PutUnit(u: ()): seq<byte> { [] }

  function GetUnit(bs: seq<byte>): Parsed<()> { Good((), bs) }

  function PutResult<T>(r: VfsResult<T>, put: T -> seq<byte>): seq<byte> {
    match r
    case Ok(v) => PutVarint(0) + put(v)
    case Err(e) => PutVarint(1) + PutError(e)
  }

  function GetResult<T>(bs: seq<byte>, get: seq<byte> -> Parsed<T>): Parsed<VfsResult<T>> {
    var (t, r) :- GetU32(bs);
    if t == 0 then
      var (v, r') :- get(r);
      Good(Ok(v), r')
    else if t == 1 then
      var (e, r') :- GetError(r);
      Good(Err(e), r')
    else Bad
  }

  lemma KindRoundTrip(k: FsKind, rest: seq<byte>)
    ensures GetKind(PutVarint(KindTag(k)) + rest) == Good(k, rest)
  {
    U32RoundTrip(KindTag(k), rest);
  }

  lemma AttrRoundTrip(a: FileAttr, rest: seq<byte>)
    ensures GetAttr(PutAttr(a) + rest) == Good(a, rest)
  {
    var p6 := PutI64(a.ctimeSecs) + rest;
    var p5 := PutI64(a.atimeSecs) + p6;
    var p4 := PutI64(a.mtimeSecs) + p5;
    var p3 := PutVarint(KindTag(a.kind)) + p4;
    var p2 := PutVarint(a.mode) + p3;
    assert PutAttr(a) + rest == PutVarint(a.size) + p2;
    U64RoundTrip(a.size, p2);
    U32RoundTrip(a.mode, p3);
    KindRoundTrip(a.kind, p4);
    I64RoundTrip(a.mtimeSecs, p5);
    I64RoundTrip(a.atimeSecs, p6);
    I64RoundTrip(a.ctimeSecs, rest);
  }

  lemma EntryRoundTrip(e: DirEntry, rest: seq<byte>)
    requires |PutEntry(e)| < TWO_64
    ensures GetEntry(PutEntry(e) + rest) == Good(e, rest)
  {
    var kind := PutVarint(KindTag(e.kind));
    BytesRoundTrip(e.name, kind + rest);
    assert PutEntry(e) + rest == PutBytes(e.name) + (kind + rest);
    KindRoundTrip(e.kind, rest);
  }

  lemma {:induction false} EntryRunRoundTrip(es: seq<DirEntry>, rest: seq<byte>)
    requires |PutEntryRun(es)| < TWO_64
    ensures GetEntryRun(|es|, PutEntryRun(es) + rest) == Good(es, rest)
  {
    if es == [] {
      assert PutEntryRun(es) + rest == rest;
    } else {
      var bs, tail := PutEntryRun(es) + rest, PutEntryRun(es[1..]) + rest;
      assert bs == PutEntry(es[0]) + tail by { Concat(PutEntry(es[0]), PutEntryRun(es[1..]), rest); }
      assert GetEntry(bs) == Good(es[0], tail) by { EntryRoundTrip(es[0], tail); }
      assert GetEntryRun(|es| - 1, tail) == Good(es[1..], rest) by { EntryRunRoundTrip(es[1..], rest); }
      assert es == [es[0]] + es[1..];
    }
  }

  lemma EntriesRoundTrip(es: seq<DirEntry>, rest: seq<byte>)
    requires |PutEntries(es)| < TWO_64
    ensures GetEntries(PutEntries(es) + rest) == Good(es, rest)
  {
    var bs, tail := PutEntries(es) + rest, PutEntryRun(es) + rest;
    assert bs == PutVarint(|es|) + tail by { Concat(PutVarint(|es|), PutEntryRun(es), rest); }
    assert GetU64(bs) == Good(|es|, tail) by { U64RoundTrip(|es|, tail); }
    assert GetEntryRun(|es|, tail) == Good(es, rest) by { EntryRunRoundTrip(es, rest); }
  }

  lemma ErrorRoundTrip(e: VfsError, rest: seq<byte>)
    requires |PutError(e)| < TWO_64
    ensures GetError(PutError(e) + rest) == Good(e, rest)
  {
    match e
    case Io(msg) =>
      assert GetU32(PutError(e) + rest) == Good(5, PutBytes(msg) + rest) by { Tagged(5, PutBytes(msg), rest); }
      assert GetBytes(PutBytes(msg) + rest) == Good(msg, rest) by { BytesRoundTrip(msg, rest); }
    case NotFound => U32RoundTrip(0, rest);
    case PermissionDenied => U32RoundTrip(1, rest);
    case AlreadyExists => U32RoundTrip(2, rest);
    case NotADirectory => U32RoundTrip(3, rest);
    case IsADirectory => U32RoundTrip(4, rest);
  }

  lemma ResultRoundTrip<T>(r: VfsResult<T>, put: T -> seq<byte>, get: seq<byte> -> Parsed<T>, rest: seq<byte>)
    requires |PutResult(r, put)| < TWO_64
    requires r.Ok? ==> get(put(r.value) + rest) == Good(r.value, rest)
    ensures GetResult(PutResult(r, put) + rest, get) == Good(r, rest)
  {
    hide GetVarint, PutVarint, GetU32, GetError, PutError;
    match r
    case Ok(v) =>
      assert GetU32(PutResult(r, put) + rest) == Good(0, put(v) + rest) by { Tagged(0, put(v), rest); }
    case Err(e) =>
      assert GetU32(PutResult(r, put) + rest) == Good(1, PutError(e) + rest) by { Tagged(1, PutError(e), rest); }
      assert GetError(PutError(e) + rest) == Good(e, rest) by { ErrorRoundTrip(e, rest); }
  }

  // ---------------------------------------------------------------- requests

  /** Serialising a path fails when it is not valid UTF-8. */
  predicate PathsEncodable(q: Request) {
    match q
    case Hello(_) => true
    case Rename(from, to) => ValidUtf8(from) && ValidUtf8(to)
    case _ => ValidUtf8(q.path)
  }

  function PutRequest(q: Request): seq<byte> {
    match q
    case Hello(v) => PutVarint(0) + PutVarint(v)
    case Stat(p) => PutVarint(1) + PutBytes(p)
    case List(p) => PutVarint(2) + PutBytes(p)
    case Read(p, o, n) => PutVarint(3) + (PutBytes(p) + (PutVarint(o) + PutVarint(n)))
    case Write(p, o, d) => PutVarint(4) + (PutBytes(p) + (PutVarint(o) + PutBytes(d)))
    case Create(p, m) => PutVarint(5) + (PutBytes(p) + PutVarint(m))
    case Mkdir(p, m) => PutVarint(6) + (PutBytes(p) + PutVarint(m))
    case Remove(p) => PutVarint(7) + PutBytes(p)
    case Rmdir(p) => PutVarint(8) + PutBytes(p)
    case Rename(f, t) => PutVarint(9) + (PutBytes(f) + PutBytes(t))
    case Truncate(p, n) => PutVarint(10) + (PutBytes(p) + PutVarint(n))
  }

  function GetRequest(bs: seq<byte>): Parsed<Request> {
    var (t, r) :- GetU32(bs);
    if t == 0 then
      var (v, r1) :- GetU32(r);
      Good(Request.Hello(v), r1)
    else if t > 10 then Bad
    else
      var (p, r1) :- GetStr(r);
      if t == 1 then Good(Stat(p), r1)
      else if t == 2 then Good(List(p), r1)
      else if t == 3 then
        var (o, r2) :- GetU64(r1);
        var (n, r3) :- GetU32(r2);
        Good(Read(p, o, n), r3)
      else if t == 4 then
        var (o, r2) :- GetU64(r1);
        var (d, r3) :- GetBytes(r2);
        Good(Write(p, o, d), r3)
      else if t == 5 then
        var (m, r2) :- GetU32(r1);
        Good(Create(p, m), r2)
      else if t == 6 then
        var (m, r2) :- GetU32(r1);
        Good(Mkdir(p, m), r2)
      else if t == 7 then Good(Remove(p), r1)
      else if t == 8 then Good(Rmdir(p), r1)
      else if t == 9 then
        var (to, r2) :- GetStr(r1);
        Good(Rename(p, to), r2)
      else
        var (n, r2) :- GetU64(r1);
        Good(Truncate(p, n), r2)
  }

  /** Every request that can be serialised decodes to itself, whatever follows it. */
  lemma RequestRoundTrip(q: Request, rest: seq<byte>)
    requires PathsEncodable(q) && |PutRequest(q)| < TWO_64
    ensures GetRequest(PutRequest(q) + rest) == Good(q, rest)
  {
    hide GetVarint, PutVarint, GetU32, GetU64, GetBytes;
    match q
    case Hello(v) =>
      Tagged(0, PutVarint(v), rest);
      U32RoundTrip(v, rest);
    case Stat(p) =>
      Tagged(1, PutBytes(p), rest);
      BytesRoundTrip(p, rest);
    case List(p) =>
      Tagged(2, PutBytes(p), rest);
      BytesRoundTrip(p, rest);
    case Read(p, o, n) =>
      Tagged(3, PutBytes(p) + (PutVarint(o) + PutVarint(n)), rest);
      PathThen(p, PutVarint(o) + PutVarint(n), rest);
      Concat(PutVarint(o), PutVarint(n), rest);
      U64RoundTrip(o, PutVarint(n) + rest);
      U32RoundTrip(n, rest);
    case Write(p, o, d) =>
      Tagged(4, PutBytes(p) + (PutVarint(o) + PutBytes(d)), rest);
      PathThen(p, PutVarint(o) + PutBytes(d), rest);
      Concat(PutVarint(o), PutBytes(d), rest);
      U64RoundTrip(o, PutBytes(d) + rest);
      BytesRoundTrip(d, rest);
    case Create(p, m) =>
      Tagged(5, PutBytes(p) + PutVarint(m), rest);
      PathThen(p, PutVarint(m), rest);
      U32RoundTrip(m, rest);
    case Mkdir(p, m) =>
      Tagged(6, PutBytes(p) + PutVarint(m), rest);
      PathThen(p, PutVarint(m), rest);
      U32RoundTrip(m, rest);
    case Remove(p) =>
      Tagged(7, PutBytes(p), rest);
      BytesRoundTrip(p, rest);
    case Rmdir(p) =>
      Tagged(8, PutBytes(p), rest);
      BytesRoundTrip(p, rest);
    case Rename(f, t) =>
      Tagged(9, PutBytes(f) + PutBytes(t), rest);
      PathThen(f, PutBytes(t), rest);
      BytesRoundTrip(t, rest);
    case Truncate(p, n) =>
      Tagged(10, PutBytes(p) + PutVarint(n), rest);
      PathThen(p, PutVarint(n), rest);
      U64RoundTrip(n, rest);
  }

  lemma Concat(a: seq<byte>, b: seq<byte>, c: seq<byte>)
    ensures (a + b) + c == a + (b + c)
  {
  }

  lemma Tagged(tag: u32, body: seq<byte>, rest: seq<byte>)
    ensures GetU32((PutVarint(tag) + body) + rest) == Good(tag, body + rest)
  {
    Concat(PutVarint(tag), body, rest);
    U32RoundTrip(tag, body + rest);
  }

  lemma PathThen(p: Path, more: seq<byte>, rest: seq<byte>)
    requires |p| < TWO_64
    ensures GetBytes((PutBytes(p) + more) + rest) == Good(p, more + rest)
  {
    Concat(PutBytes(p), more, rest);
    BytesRoundTrip(p, more + rest);
  }

  // ---------------------------------------------------------------- responses

  function PutResponse(r: Response): seq<byte> {
    match r
    case RHello(v) => PutVarint(0) + PutVarint(v)
    case RStat(x) => PutVarint(1) + PutResult(x, PutAttr)
    case RList(x) => PutVarint(2) + PutResult(x, PutEntries)
    case RRead(x) => PutVarint(3) + PutResult(x, PutBytes)
    case RWrite(x) => PutVarint(4) + PutResult(x, PutU32)
    case RCreate(x) => PutVarint(5) + PutResult(x, PutAttr)
    case RMkdir(x) => PutVarint(6) + PutResult(x, PutAttr)
    case RRemove(x) => PutVarint(7) + PutResult(x, PutUnit)
    case RRmdir(x) => PutVarint(8) + PutResult(x, PutUnit)
    case RRename(x) => PutVarint(9) + PutResult(x, PutUnit)
    case RTruncate(x) => PutVarint(10) + PutResult(x, PutUnit)
  }

  function GetResponse(bs: seq<byte>): Parsed<Response> {
    var (t, r) :- GetU32(bs);
    if t == 0 then
      var (v, r1) :- GetU32(r);
      Good(RHello(v), r1)
    else if t == 1 then
      var (x, r1) :- GetResult(r, GetAttr);
      Good(RStat(x), r1)
    else if t == 2 then
      var (x, r1) :- GetResult(r, GetEntries);
      Good(RList(x), r1)
    else if t == 3 then
      var (x, r1) :- GetResult(r, GetBytes);
      Good(RRead(x), r1)
    else if t == 4 then
      var (x, r1) :- GetResult(r, GetU32);
      Good(RWrite(x), r1)
    else if t == 5 then
      var (x, r1) :- GetResult(r, GetAttr);
      Good(RCreate(x), r1)
    else if t == 6 then
      var (x, r1) :- GetResult(r, GetAttr);
      Good(RMkdir(x), r1)
    else if t > 10 then Bad
    else
      var (x, r1) :- GetResult(r, GetUnit);
      Good(if t == 7 then RRemove(x) else if t == 8 then RRmdir(x)
           else if t == 9 then RRename(x) else RTruncate(x), r1)
  }

  /** Every response decodes to itself, whatever follows it. */
  lemma ResponseRoundTrip(r: Response, rest: seq<byte>)
    requires |PutResponse(r)| < TWO_64
    ensures GetResponse(PutResponse(r) + rest) == Good(r, rest)
  {
    hide GetVarint, PutVarint, GetU32, PutResult, GetResult;
    match r
    case RHello(v) =>
      Tagged(0, PutVarint(v), rest);
      U32RoundTrip(v, rest);
    case RStat(x) => Tagged(1, PutResult(x, PutAttr), rest); AttrResult(x, rest);
    case RList(x) => Tagged(2, PutResult(x, PutEntries), rest); EntriesResult(x, rest);
    case RRead(x) => Tagged(3, PutResult(x, PutBytes), rest); BytesResult(x, rest);
    case RWrite(x) => Tagged(4, PutResult(x, PutU32), rest); CountResult(x, rest);
    case RCreate(x) => Tagged(5, PutResult(x, PutAttr), rest); AttrResult(x, rest);
    case RMkdir(x) => Tagged(6, PutResult(x, PutAttr), rest); AttrResult(x, rest);
    case RRemove(x) => Tagged(7, PutResult(x, PutUnit), rest); UnitResult(x, rest);
    case RRmdir(x) => Tagged(8, PutResult(x, PutUnit), rest); UnitResult(x, rest);
    case RRename(x) => Tagged(9, PutResult(x, PutUnit), rest); UnitResult(x, rest);
    case RTruncate(x) => Tagged(10, PutResult(x, PutUnit), rest); UnitResult(x, rest);
  }

  lemma AttrResult(x: VfsResult<FileAttr>, rest: seq<byte>)
    requires |PutResult(x, PutAttr)| < TWO_64
    ensures GetResult(PutResult(x, PutAttr) + rest, GetAttr) == Good(x, rest)
  {
    if x.Ok? { AttrRoundTrip(x.value, rest); }
    ResultRoundTrip(x, PutAttr, GetAttr, rest);
  }

  lemma EntriesResult(x: VfsResult<seq<DirEntry>>, rest: seq<byte>)
    requires |PutResult(x, PutEntries)| < TWO_64
    ensures GetResult(PutResult(x, PutEntries) + rest, GetEntries) == Good(x, rest)
  {
    hide GetResult, GetEntries;
    if x.Ok? { EntriesRoundTrip(x.value, rest); }
    ResultRoundTrip(x, PutEntries, GetEntries, rest);
  }

  lemma BytesResult(x: VfsResult<seq<byte>>, rest: seq<byte>)
    requires |PutResult(x, PutBytes)| < TWO_64
    ensures GetResult(PutResult(x, PutBytes) + rest, GetBytes) == Good(x, rest)
  {
    hide GetResult, GetBytes;
    if x.Ok? { BytesRoundTrip(x.value, rest); }
    ResultRoundTrip(x, PutBytes, GetBytes, rest);
  }

  lemma CountResult(x: VfsResult<u32>, rest: seq<byte>)
    requires |PutResult(x, PutU32)| < TWO_64
    ensures GetResult(PutResult(x, PutU32) + rest, GetU32) == Good(x, rest)
  {
    if x.Ok? { U32RoundTrip(x.value, rest); }
    ResultRoundTrip(x, PutU32, GetU32, rest);
  }

  lemma UnitResult(x: VfsResult<()>, rest: seq<byte>)
    requires |PutResult(x, PutUnit)| < TWO_64
    ensures GetResult(PutResult(x, PutUnit) + rest, GetUnit) == Good(x, rest)
  {
    if x.Ok? {
      assert x.value == ();
      assert PutUnit(x.value) + rest == rest;
    }
    ResultRoundTrip(x, PutUnit, GetUnit, rest);
  }

  /** No encoded request is a proper prefix of another, and none is ambiguous. */
  lemma RequestsPrefixFree(a: Request, b: Request, u: seq<byte>, w: seq<byte>)
    requires PathsEncodable(a) && PathsEncodable(b)
    requires |PutRequest(a)| < TWO_64 && |PutRequest(b)| < TWO_64
    requires PutRequest(a) + u == PutRequest(b) + w
    ensures a == b && u == w
  {
    RequestRoundTrip(a, u);
    RequestRoundTrip(b, w);
  }

  lemma ResponsesPrefixFree(a: Response, b: Response, u: seq<byte>, w: seq<byte>)
    requires |PutResponse(a)| < TWO_64 && |PutResponse(b)| < TWO_64
    requires PutResponse(a) + u == PutResponse(b) + w
    ensures a == b && u == w
  {
    ResponseRoundTrip(a, u);
    ResponseRoundTrip(b, w);
  }

  // ---------------------------------------------------------------- the bytes themselves

  /** Each number that is not negative is followed by its mirror image. */
  lemma ZigZagInterleaves(n: i64)
    requires n >= 0
    ensures ZigZag(n) == n + n && ZigZag(-1 - n) == n + n + 1
  {
  }

  /** The first byte of a message is the position of its kind in the enum. */
  lemma KindsInOrder(q: Request)
    ensures PutRequest(q) != []
    ensures PutRequest(q)[0] ==
      match q
      case Hello(_) => 0
      case Stat(_) => 1
      case List(_) => 2
      case Read(_, _, _) => 3
      case Write(_, _, _) => 4
      case Create(_, _) => 5
      case Mkdir(_, _) => 6
      case Remove(_) => 7
      case Rmdir(_) => 8
      case Rename(_, _) => 9
      case Truncate(_, _) => 10
  {
    hide PutBytes;
  }

  lemma AnswerKindsInOrder(r: Response)
    ensures PutResponse(r) != []
    ensures PutResponse(r)[0] ==
      match r
      case RHello(_) => 0
      case RStat(_) => 1
      case RList(_) => 2
      case RRead(_) => 3
      case RWrite(_) => 4
      case RCreate(_) => 5
      case RMkdir(_) => 6
      case RRemove(_) => 7
      case RRmdir(_) => 8
      case RRename(_) => 9
      case RTruncate(_) => 10
  {
    hide PutResult;
  }

  lemma TwoByteVarints()
    ensures PutVarint(300) == [172, 2] && PutVarint(420) == [164, 3] && PutVarint(128) == [128, 1]
    ensures PutVarint(493) == [237, 3]
  {
  }

  lemma ShortBytes(b: seq<byte>)
    requires |b| < 128
    ensures PutBytes(b) == [|b|] + b
  {
  }

  /** Some requests byte by byte: "/a" is 47, 97. */
  lemma RequestBytes()
    ensures PutRequest(Hello(1)) == [0, 1]
    ensures PutRequest(Stat([47, 97])) == [1, 2, 47, 97]
    ensures PutRequest(Read([47, 97], 300, 5)) == [3, 2, 47, 97, 172, 2, 5]
  {
    hide PutVarint, PutBytes;
    SmallVarints();
    TwoByteVarints();
    ShortBytes([47, 97]);
  }

  lemma WriteRequestBytes()
    ensures PutRequest(Write([47, 97], 1, [7, 8])) == [4, 2, 47, 97, 1, 2, 7, 8]
    ensures PutRequest(Create([47, 97], 420)) == [5, 2, 47, 97, 164, 3]
  {
    hide PutVarint, PutBytes;
    SmallVarints();
    TwoByteVarints();
    ShortBytes([47, 97]);
    ShortBytes([7, 8]);
  }

  lemma MoreRequestBytes()
    ensures PutRequest(Rename([47, 97], [47, 98])) == [9, 2, 47, 97, 2, 47, 98]
    ensures PutRequest(Truncate([47, 97], 128)) == [10, 2, 47, 97, 128, 1]
  {
    hide PutVarint, PutBytes;
    SmallVarints();
    TwoByteVarints();
    ShortBytes([47, 97]);
    ShortBytes([47, 98]);
  }

  lemma SmallVarints()
    ensures forall n :: 0 <= n < 128 ==> PutVarint(n) == [n]
  {
  }

  /** The same for results, attributes and errors. */
  lemma ResultBytes()
    ensures PutResult<u32>(Ok(5), PutU32) == [0, 5]
    ensures PutResult(Ok([9, 8]), PutBytes) == [0, 2, 9, 8]
    ensures PutResult(Ok(()), PutUnit) == [0]
    ensures PutError(NotFound) == [0] && PutError(PermissionDenied) == [1] && PutError(AlreadyExists) == [2]
    ensures PutError(NotADirectory) == [3] && PutError(IsADirectory) == [4]
    ensures PutResult<()>(Err(AlreadyExists), PutUnit) == [1, 2]
    ensures PutResponse(RStat(Err(NotFound))) == [1, 1, 0]
  {
    hide PutVarint, PutBytes;
    SmallVarints();
    ShortBytes([9, 8]);
  }

  lemma AttrBytes()
    ensures PutAttr(FileAttr(3, 420, FsKind.File, 1, -1, 2)) == [3, 164, 3, 0, 2, 1, 4]
    ensures PutAttr(FileAttr(0, 493, FsKind.Dir, 0, -2, 3)) == [0, 237, 3, 1, 0, 3, 6]
  {
    hide PutVarint;
    SmallVarints();
    TwoByteVarints();
  }

  /** Names carry their length; kinds are in the order file, directory, link. */
  lemma EntryBytes(name: Str, text: Str)
    requires |name| < 128 && |text| < 128
    ensures PutEntry(DirEntry(name, FsKind.File)) == [|name|] + name + [0]
    ensures PutEntry(DirEntry(name, FsKind.Dir)) == [|name|] + name + [1]
    ensures PutEntry(DirEntry(name, FsKind.Symlink)) == [|name|] + name + [2]
    ensures PutError(Io(text)) == [5, |text|] + text
  {
    SmallVarints();
    hide PutVarint, ValidUtf8;
  }

  // ---------------------------------------------------------------- what is accepted

  /** Bytes that end at the first without a mark. */
  predicate Marked(s: seq<byte>) {
    s != [] && s[|s| - 1] < 128 && forall i :: 0 <= i < |s| - 1 ==> s[i] >= 128
  }

  function Weighed(s: seq<byte>): nat { if s == [] then 0 else s[0] % 128 + 128 * Weighed(s[1..]) }

  /** Any marked bytes are read as the number they weigh, shortest or not, if they are at
      most `k` and the `k`-th is at most `last`. */
  lemma {:induction false} MarkedIsRead(k: nat, last: nat, s: seq<byte>, rest: seq<byte>)
    requires Marked(s)
    ensures GetVarint(k, last, s + rest) ==
      if |s| < k || (|s| == k && s[k - 1] <= last) then Good(Weighed(s), rest) else Bad
  {
    if k > 0 {
      if |s| == 1 {
        assert (s + rest)[1..] == rest;
        assert Weighed(s[1..]) == 0;
      } else {
        assert (s + rest)[1..] == s[1..] + rest;
        MarkedIsRead(k - 1, last, s[1..], rest);
      }
    }
  }

  /** Bytes that are all marked are no number yet. */
  lemma {:induction false} UnendedIsBad(k: nat, last: nat, bs: seq<byte>)
    requires forall i :: 0 <= i < |bs| ==> bs[i] >= 128
    ensures GetVarint(k, last, bs) == Bad
  {
    if k > 1 && bs != [] {
      UnendedIsBad(k - 1, last, bs[1..]);
    }
  }

  lemma TagRead(t: byte, rest: seq<byte>)
    requires t < 128
    ensures GetU32([t] + rest) == Good(t, rest)
  {
    assert ([t] + rest)[1..] == rest;
  }

  /** Positions beyond the last kind are refused. */
  lemma UnknownKindsAreBad(t: byte, rest: seq<byte>)
    requires t < 128
    ensures t > 10 ==> GetRequest([t] + rest) == Bad && GetResponse([t] + rest) == Bad
    ensures t > 5 ==> GetError([t] + rest) == Bad
    ensures t > 2 ==> GetKind([t] + rest) == Bad
    ensures t > 1 ==> GetResult([t] + rest, GetUnit) == Bad
  {
    TagRead(t, rest);
    hide GetU32;
  }

  /** A length beyond what is left, and a name that is not text, are refused. */
  lemma CutOrGarbledIsBad(b: seq<byte>)
    ensures |b| < 127 ==> GetBytes([|b| + 1] + b) == Bad
    ensures |b| < 128 && !ValidUtf8(b) ==> GetStr([|b|] + b) == Bad
  {
    if |b| < 127 {
      assert ([|b| + 1] + b)[1..] == b;
    }
    if |b| < 128 {
      assert ([|b|] + b)[1..] == b && b[..|b|] == b;
    }
  }
}
