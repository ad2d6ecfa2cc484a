/** A byte source over HTTP range requests, with a locally cached prefix and a cursor. */
module HttpSource {
  import opened Machine

  const HTTP_HEADER_CACHE_BYTES: nat := 128 * 1024

  /** The body of a successful response; `None` when the request or reading its body fails. */
  type Reply = Option<Bytes>

  datatype SourceError = UnexpectedEof(offset: U64) | HttpError

  // ---------------------------------------------------------------- what servers may answer

  /** The bytes an inclusive range names, clipped to the representation
      (section 14.1.2 of RFC 9110). */
  function RangeOf(remote: Bytes, first: nat, last: nat): Bytes {
    if first >= |remote| then []
    else if last < first then []
    else remote[first..if last < |remote| then last + 1 else |remote|]
  }

  /** A server may answer with the range, with the beginning of it, or, ignoring `Range`, with
      the whole representation (sections 14.2 and 15.3.7 of RFC 9110). */
  predicate Allowed(remote: Bytes, first: nat, last: nat, reply: Reply) {
    reply.Some? ==> reply.value <= RangeOf(remote, first, last) || reply.value == remote
  }

  // ---------------------------------------------------------------- the source as a value

  datatype Http = Http(contentLength: U64, cache: Bytes, pos: U64)

  /** The last byte position of the warm-up request. */
  function WarmLast(contentLength: U64): U64 {
    var end := if HTTP_HEADER_CACHE_BYTES < contentLength then HTTP_HEADER_CACHE_BYTES else contentLength;
    if end == 0 then 0 else end - 1
  }

  /** The range a read has to fetch, if it is not refused and not served by the cache. */
  function Wanted(h: Http, n: nat): Option<(U64, U64)> {
    var end := h.pos + n;
    if n == 0 || end >= TWO_64 || end > h.contentLength || end <= |h.cache| then None
    else Some((h.pos, end - 1))
  }

  /** `read_exact` into a buffer of `n` bytes; `reply` answers the request, if one is made. */
  function ReadStep(h: Http, n: nat, reply: Reply): (Result<Bytes, SourceError>, Http) {
    var end := h.pos + n;
    if n == 0 then (Ok([]), h)
    else if end >= TWO_64 || end > h.contentLength then (Err(UnexpectedEof(h.pos)), h)
    else if end <= |h.cache| then (Ok(h.cache[h.pos..end]), h.(pos := end))
    else match reply
      case None => (Err(HttpError), h)
      case Some(body) =>
        if |body| != n then (Err(UnexpectedEof(h.pos)), h) else (Ok(body), h.(pos := end))
  }

  function SeekStep(h: Http, to: U64): (Result<U64, SourceError>, Http) {
    if to > h.contentLength then (Err(UnexpectedEof(to)), h) else (Ok(to), h.(pos := to))
  }

  // ---------------------------------------------------------------- the source as an object

  class HttpRangeSource {
    const contentLength: U64
    const headerCache: Bytes
    var pos: U64

    constructor (contentLength: U64, headerCache: Bytes)
      ensures State() == Http(contentLength, headerCache, 0)
    {
      this.contentLength, this.headerCache, pos := contentLength, headerCache, 0;
    }

    function State(): Http
      reads this
    {
      Http(contentLength, headerCache, pos)
    }

    /** Fills `buf` and advances the cursor, or leaves both alone. `reply` is the server's
        answer to `request`. */
    method ReadExact(buf: array<U8>, reply: Reply) returns (r: Result<(), SourceError>, request: Option<(U64, U64)>)
      requires buf.Length < TWO_64
      modifies this, buf
      ensures request == Wanted(old(State()), buf.Length)
      ensures var (bytes, next) := ReadStep(old(State()), buf.Length, reply);
              && State() == next
              && match bytes
                 case Ok(b) => r == Ok(()) && buf[..] == b
                 case Err(e) => r == Err(e) && buf[..] == old(buf[..])
    {
      request := None;
      if buf.Length == 0 {
        return Ok(()), None;
      }
      var offset, len := pos, buf.Length;
      var end := CheckedAdd(offset, len);
      if end.None? || end.value > contentLength {
        return Err(UnexpectedEof(offset)), None;
      }
      if end.value <= |headerCache| {
        forall i | 0 <= i < len {
          buf[i] := headerCache[offset..end.value][i];
        }
        pos := end.value;
        return Ok(()), None;
      }
      request := Some((offset, end.value - 1));
      if reply.None? {
        return Err(HttpError), request;
      }
      var body := reply.value;
      if |body| != len {
        return Err(UnexpectedEof(offset)), request;
      }
      forall i | 0 <= i < len {
        buf[i] := body[i];
      }
      pos := end.value;
      assert buf[..] == body;
      return Ok(()), request;
    }

    method Seek(to: U64) returns (r: Result<U64, SourceError>)
      modifies this
      ensures (r, State()) == SeekStep(old(State()), to)
    {
      if to > contentLength {
        return Err(UnexpectedEof(to));
      }
      pos := to;
      return Ok(to);
    }

    method Position() returns (p: U64)
      ensures p == State().pos
    {
      return pos;
    }
  }

  /** `HttpRangeSource::new`: `head` is the parsed content length, `warm` answers the request
      for the bytes from 0 to `WarmLast`. */
  method Open(head: Option<U64>, warm: Reply) returns (r: Result<HttpRangeSource, SourceError>)
    ensures r.Ok? <==> head.Some? && warm.Some?
    ensures r.Err? ==> r.error == HttpError
    ensures r.Ok? ==> fresh(r.value) && r.value.State() == Http(head.value, warm.value, 0)
  {
    if head.None? || warm.None? {
      return Err(HttpError);
    }
    var s := new HttpRangeSource(head.value, warm.value);
    return Ok(s);
  }

  /** `GgufModel::from_url`, up to parsing: one read of the whole file. */
  method FetchAll(head: Option<U64>, warm: Reply, full: Reply) returns (r: Result<Bytes, SourceError>)
    ensures r == if head.None? || warm.None? then Err(HttpError)
                 else match ReadStep(Http(head.value, warm.value, 0), head.value, full).0
                      case Ok(b) => Ok(b)
                      case Err(_) => Err(HttpError)
  {
    var created := Open(head, warm);
    if created.Err? {
      return Err(created.error);
    }
    var source := created.value;
    var data := new U8[head.value](_ => 0);
    var read, _ := source.ReadExact(data, full);
    if read.Err? {
      return Err(HttpError);
    }
    return Ok(data[..]);
  }

  // ---------------------------------------------------------------- one read

  /** The cache is a prefix of the remote bytes and the cursor is inside the file. */
  ghost predicate Consistent(remote: Bytes, h: Http) {
    h.cache <= remote && h.pos <= h.contentLength
  }

  /** Whatever an allowed server answers to the warm-up request, the source starts consistent. */
  lemma OpenConsistent(remote: Bytes, contentLength: U64, warm: Reply)
    requires Allowed(remote, 0, WarmLast(contentLength), warm) && warm.Some?
    ensures Consistent(remote, Http(contentLength, warm.value, 0))
  {
  }

  /** A read that succeeds returns the plain slice of the remote bytes. */
  ghost predicate RightRead(remote: Bytes, h: Http, n: nat, reply: Reply) {
    var r := ReadStep(h, n, reply).0;
    r.Ok? ==> h.pos + n <= |remote| && r.value == remote[h.pos..h.pos + n]
  }

  ghost predicate AllowedFor(remote: Bytes, h: Http, n: nat, reply: Reply) {
    Wanted(h, n).Some? ==> Allowed(remote, Wanted(h, n).value.0, Wanted(h, n).value.1, reply)
  }

  lemma ReadIsSlice(remote: Bytes, h: Http, n: nat, reply: Reply)
    requires Consistent(remote, h) && h.contentLength <= |remote|
    requires AllowedFor(remote, h, n, reply)
    ensures RightRead(remote, h, n, reply)
    ensures var (r, next) := ReadStep(h, n, reply);
            && Consistent(remote, next)
            && next == (if r.Ok? then h.(pos := h.pos + n) else h)
  {
    if Wanted(h, n).Some? && reply.Some? && |reply.value| == n {
      assert RangeOf(remote, h.pos, h.pos + n - 1) == remote[h.pos..h.pos + n];
    }
  }

  /** How far the HEAD answer may be trusted. Every successful read on every consistent state
      is right against every allowed server exactly when the announced length does not exceed
      the real one (or there are no bytes at all): an overstated length lets a server that
      ignores `Range` satisfy a read at the wrong offset, because only the length of the body
      is compared. */
  lemma ReadsRightIff(remote: Bytes, contentLength: U64)
    ensures contentLength <= |remote| || remote == [] <==>
            forall h: Http, n: nat, reply: Reply ::
              h.contentLength == contentLength && Consistent(remote, h) && AllowedFor(remote, h, n, reply) && 0 < n
              ==> RightRead(remote, h, n, reply)
  {
    if contentLength <= |remote| {
      forall h: Http, n: nat, reply: Reply |
        h.contentLength == contentLength && Consistent(remote, h) && AllowedFor(remote, h, n, reply)
        ensures RightRead(remote, h, n, reply)
      {
        ReadIsSlice(remote, h, n, reply);
      }
    } else if remote != [] {
      var h := Http(contentLength, remote, 1);
      assert Wanted(h, |remote|) == Some((1, |remote|));
      assert AllowedFor(remote, h, |remote|, Some(remote));
      assert !RightRead(remote, h, |remote|, Some(remote));
    }
  }

  // ---------------------------------------------------------------- whole sessions

  datatype Op = Read(n: nat) | Seek(to: U64)

  datatype Outcome = Got(bytes: Bytes) | Moved(pos: U64) | Failed

  /** A server may answer the same request differently at different steps. */
  type Server = (nat, U64, U64) -> Reply

  function HttpStep(h: Http, op: Op, server: Server, step: nat): (Outcome, Http) {
    match op
    case Read(n) =>
      var reply := match Wanted(h, n) case None => None case Some((first, last)) => server(step, first, last);
      var (r, next) := ReadStep(h, n, reply);
      (if r.Ok? then Got(r.value) else Failed, next)
    case Seek(to) =>
      var (r, next) := SeekStep(h, to);
      (if r.Ok? then Moved(r.value) else Failed, next)
  }

  function HttpRun(h: Http, ops: seq<Op>, server: Server, step: nat): seq<Outcome>
    decreases ops
  {
    if ops == [] then []
    else
      var (outcome, next) := HttpStep(h, ops[0], server, step);
      [outcome] + HttpRun(next, ops[1..], server, step + 1)
  }

  /** The reference: the in-memory `SliceSource` over `data`. */
  function SliceStep(data: Bytes, pos: nat, op: Op): (Outcome, nat) {
    match op
    case Read(n) => if pos + n <= |data| then (Got(data[pos..pos + n]), pos + n) else (Failed, pos)
    case Seek(to) => if to <= |data| then (Moved(to), to) else (Failed, pos)
  }

  function SliceRun(data: Bytes, pos: nat, ops: seq<Op>): seq<Outcome>
    decreases ops
  {
    if ops == [] then []
    else
      var (outcome, next) := SliceStep(data, pos, ops[0]);
      [outcome] + SliceRun(data, next, ops[1..])
  }

  /** `outcomes` is what the in-memory source would have done, except that some reads failed
      and then left the cursor where it was. */
  ghost predicate SliceExceptFailures(data: Bytes, pos: nat, ops: seq<Op>, outcomes: seq<Outcome>)
    decreases ops
  {
    if ops == [] then outcomes == []
    else
      && outcomes != []
      && var (expected, next) := SliceStep(data, pos, ops[0]);
      if outcomes[0] == expected then SliceExceptFailures(data, next, ops[1..], outcomes[1..])
      else outcomes[0] == Failed && ops[0].Read? && SliceExceptFailures(data, pos, ops[1..], outcomes[1..])
  }

  ghost predicate AllowedServer(remote: Bytes, server: Server) {
    forall step: nat, first: U64, last: U64 :: Allowed(remote, first, last, server(step, first, last))
  }

  /** A server that always delivers exactly the range, when it lies inside the file. */
  ghost predicate ExactServer(remote: Bytes, server: Server) {
    forall step: nat, first: U64, last: U64 ::
      first <= last < |remote| ==> server(step, first, last) == Some(remote[first..last + 1])
  }

  lemma SliceOfPrefix(data: Bytes, len: nat, i: nat, j: nat)
    requires i <= j <= len <= |data|
    ensures data[..len][i..j] == data[i..j]
  {
  }

  lemma HttpStepMatches(remote: Bytes, h: Http, op: Op, server: Server, step: nat)
    requires Consistent(remote, h) && h.contentLength <= |remote|
    requires AllowedServer(remote, server)
    ensures var (outcome, next) := HttpStep(h, op, server, step);
            var (expected, pos) := SliceStep(remote[..h.contentLength], h.pos, op);
            && Consistent(remote, next) && next.contentLength == h.contentLength
            && (outcome == expected ==> next.pos == pos)
            && (outcome != expected ==> outcome == Failed && op.Read? && next.pos == h.pos)
  {
    match op {
      case Seek(_) =>
      case Read(n) =>
        var wanted := Wanted(h, n);
        var reply := match wanted case None => None case Some((first, last)) => server(step, first, last);
        assert AllowedFor(remote, h, n, reply);
        ReadIsSlice(remote, h, n, reply);
        if h.pos + n <= h.contentLength {
          SliceOfPrefix(remote, h.contentLength, h.pos, h.pos + n);
        }
    }
  }

  /** Every session over every allowed server: each successful read returns exactly the bytes
      the in-memory source would have returned at that cursor, seeks behave identically, and a
      failure moves nothing. */
  lemma {:induction false} SessionIsSliceExceptFailures(remote: Bytes, h: Http, ops: seq<Op>, server: Server, step: nat)
    requires Consistent(remote, h) && h.contentLength <= |remote|
    requires AllowedServer(remote, server)
    ensures SliceExceptFailures(remote[..h.contentLength], h.pos, ops, HttpRun(h, ops, server, step))
    decreases ops
  {
    hide HttpStep, SliceStep, Consistent, AllowedServer;
    if ops != [] {
      var (outcome, next) := HttpStep(h, ops[0], server, step);
      HttpStepMatches(remote, h, ops[0], server, step);
      SessionIsSliceExceptFailures(remote, next, ops[1..], server, step + 1);
      assert HttpRun(h, ops, server, step)[1..] == HttpRun(next, ops[1..], server, step + 1);
    }
  }

  /** A read that is served, by the cache or by a reply with exactly the bytes asked for. */
  lemma ServedRead(remote: Bytes, h: Http, n: nat, reply: Reply)
    requires Consistent(remote, h) && h.contentLength <= |remote|
    requires Wanted(h, n).Some? ==> reply == Some(remote[h.pos..h.pos + n])
    ensures var (r, next) := ReadStep(h, n, reply);
            && Consistent(remote, next) && next.contentLength == h.contentLength
            && if h.pos + n <= h.contentLength
               then r == Ok(remote[..h.contentLength][h.pos..h.pos + n]) && next.pos == h.pos + n
               else r.Err? && next == h
  {
    if h.pos + n <= h.contentLength {
      SliceOfPrefix(remote, h.contentLength, h.pos, h.pos + n);
      if n == 0 {
        assert remote[h.pos..h.pos] == [];
      } else if h.pos + n <= |h.cache| {
        assert h.cache == remote[..|h.cache|];
        SliceOfPrefix(remote, |h.cache|, h.pos, h.pos + n);
      }
    }
  }

  lemma ExactStepMatches(remote: Bytes, h: Http, op: Op, server: Server, step: nat)
    requires Consistent(remote, h) && h.contentLength <= |remote|
    requires ExactServer(remote, server)
    ensures var (outcome, next) := HttpStep(h, op, server, step);
            && (outcome, next.pos as nat) == SliceStep(remote[..h.contentLength], h.pos, op)
            && Consistent(remote, next) && next.contentLength == h.contentLength
  {
    hide ReadStep;
    match op {
      case Seek(_) =>
      case Read(n) =>
        var wanted := Wanted(h, n);
        var reply := match wanted case None => None case Some((first, last)) => server(step, first, last);
        if wanted.Some? {
          var (first, last) := wanted.value;
          assert server(step, first, last) == Some(remote[first..last + 1]);
        }
        ServedRead(remote, h, n, reply);
    }
  }

  /** Against an exact server the remote source is indistinguishable from that many bytes in memory:
      same successes, same failures, same bytes, over every session. */
  lemma {:induction false} ExactSessionIsSlice(remote: Bytes, h: Http, ops: seq<Op>, server: Server, step: nat)
    requires Consistent(remote, h) && h.contentLength <= |remote|
    requires ExactServer(remote, server)
    ensures HttpRun(h, ops, server, step) == SliceRun(remote[..h.contentLength], h.pos, ops)
    decreases ops
  {
    hide HttpStep, SliceStep, Consistent, ExactServer;
    if ops != [] {
      ExactStepMatches(remote, h, ops[0], server, step);
      ExactSessionIsSlice(remote, HttpStep(h, ops[0], server, step).1, ops[1..], server, step + 1);
    }
  }

  /** Loading from a URL trusts the announced length. Whatever length `len` is announced and
      whatever an allowed server answers, a load that succeeds has not been told too much, and
      returns the first `len` remote bytes: the whole file exactly when `len` is its length. */
  lemma FetchedIsPrefix(remote: Bytes, len: U64, warm: Reply, full: Reply)
    requires Allowed(remote, 0, WarmLast(len), warm) && warm.Some?
    requires AllowedFor(remote, Http(len, warm.value, 0), len, full)
    ensures var r := ReadStep(Http(len, warm.value, 0), len, full).0;
            r.Ok? ==>
              && len <= |remote| && r.value == remote[..len]
              && (r.value == remote <==> len == |remote|)
  {
    OpenConsistent(remote, len, warm);
    if len <= |remote| {
      ReadIsSlice(remote, Http(len, warm.value, 0), len, full);
      assert remote[0..len] == remote[..len];
    } else {
      assert |RangeOf(remote, 0, len - 1)| <= |remote|;
    }
  }

  /** A too short announcement is believed: two of three bytes load without an error. */
  lemma UnderstatedLengthLoads(a: U8, b: U8, c: U8)
    ensures var remote, full := [a, b, c], Some([a, b]);
            && Allowed(remote, 0, WarmLast(2), Some([])) && AllowedFor(remote, Http(2, [], 0), 2, full)
            && ReadStep(Http(2, [], 0), 2, full).0 == Ok([a, b])
  {
    assert RangeOf([a, b, c], 0, 1) == [a, b];
  }

  // ---------------------------------------------------------------- errors and local reads

  /** Why a read fails: it leaves the file, the request fails, or the body has another length. */
  lemma ReadFailsIff(h: Http, n: nat, reply: Reply)
    ensures var (r, next) := ReadStep(h, n, reply);
            && (r == Err(HttpError) <==> Wanted(h, n).Some? && reply.None?)
            && (r == Err(UnexpectedEof(h.pos)) <==>
                0 < n && (h.pos + n > h.contentLength
                          || (Wanted(h, n).Some? && reply.Some? && |reply.value| != n)))
            && (r.Err? ==> next == h && (r.error == HttpError || r.error == UnexpectedEof(h.pos)))
  {
  }

  /** What a request asks for: exactly the bytes of a non-empty read that stays inside the file
      and reaches beyond the cached prefix. */
  lemma RequestIff(h: Http, n: nat)
    ensures Wanted(h, n).Some? <==> 0 < n && |h.cache| < h.pos + n <= h.contentLength
    ensures Wanted(h, n).Some? ==> Wanted(h, n).value.0 == h.pos && Wanted(h, n).value.1 as int + 1 == h.pos + n
  {
  }

  /** Opened against a server that delivers what it is asked for, the first 128 KiB of the file,
      or all of a shorter one, are read without any further request. */
  lemma HeaderReadsAreLocal(remote: Bytes, warm: Reply, pos: U64, n: nat)
    requires 0 < |remote| < TWO_64 && pos <= |remote|
    requires warm == Some(RangeOf(remote, 0, WarmLast(|remote|)))
    requires pos + n <= 131072 && pos + n <= |remote|
    ensures var h := Http(|remote|, warm.value, pos);
            Wanted(h, n) == None && ReadStep(h, n, None).0 == Ok(remote[pos..pos + n])
  {
    var len := if 131072 < |remote| then 131072 else |remote|;
    assert warm.value == remote[..len];
    SliceOfPrefix(remote, len, pos, pos + n);
    assert n == 0 ==> remote[pos..pos + n] == [];
  }
}
