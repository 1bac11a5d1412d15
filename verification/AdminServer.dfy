/** Assembling one HTTP request from the chunks a TLS connection delivers. */
module AdminServerModule {
  import opened Types
  import opened Counter64
  import opened Text

  const CRLF: string := "\r\n"
  const BLANK_LINE: string := "\r\n\r\n"
  const FIELD: string := "content-length:"
  const HEADER_CHUNK: nat := 2048
  const BODY_CHUNK: nat := 4096
  const HEADER_LIMIT: nat := 64 * 1024

  function Min(a: nat, b: nat): nat { if a < b then a else b }

  /** How many bytes a read returns when it asks for at most `max`, `left` are still to come, and the
      connection would deliver `size`: at least one until the end of the stream. */
  function ReadLength(size: nat, max: nat, left: nat): nat {
    Min(if size < 1 then 1 else size, Min(max, left))
  }

  /** A connection on which the client sends `request` and then closes; the k-th read would deliver size(k). */
  class TlsStream {
    const request: string
    const size: nat -> nat
    var got: nat
    var calls: nat

    constructor (request: string, size: nat -> nat)
      ensures this.request == request && this.size == size && got == 0 && calls == 0
    {
      this.request, this.size, got, calls := request, size, 0, 0;
    }

    method Read(max: nat) returns (chunk: string)
      requires 0 < max && got <= |request|
      modifies this
      ensures got == old(got) + ReadLength(size(old(calls)), max, |request| - old(got)) <= |request|
      ensures calls == old(calls) + 1 && chunk == request[old(got)..got]
    {
      var n := ReadLength(size(calls), max, |request| - got);
      chunk := request[got..got + n];
      got, calls := got + n, calls + 1;
    }
  }

  // ---------------------------------------------------------------------------
  // Reading the header

  predicate HasBlankLine(s: string) { Find(s, BLANK_LINE, 0).Some? }

  datatype HeaderResult = Done(got: nat, calls: nat) | TooLong | Closed

  /** The calls of read_until_headers, for one schedule of chunk sizes. */
  function HeaderPhase(request: string, size: nat -> nat, calls: nat, got: nat): HeaderResult
    requires got <= |request|
    decreases |request| - got
  {
    var n := ReadLength(size(calls), HEADER_CHUNK, |request| - got);
    if n == 0 then Closed
    else if HasBlankLine(request[..got + n]) then Done(got + n, calls + 1)
    else if got + n > HEADER_LIMIT then TooLong
    else HeaderPhase(request, size, calls + 1, got + n)
  }

  method ReadUntilHeaders(stream: TlsStream) returns (ok: bool, buf: string)
    requires stream.got == 0 && stream.calls == 0
    modifies stream
    ensures stream.got <= |stream.request| && buf == stream.request[..stream.got]
    ensures var r := HeaderPhase(stream.request, stream.size, 0, 0);
            ok == r.Done? && (ok ==> r == Done(stream.got, stream.calls))
  {
    buf := "";
    while true
      invariant stream.got <= |stream.request| && buf == stream.request[..stream.got]
      invariant HeaderPhase(stream.request, stream.size, 0, 0)
             == HeaderPhase(stream.request, stream.size, stream.calls, stream.got)
      decreases |stream.request| - stream.got
    {
      ghost var calls, got := stream.calls, stream.got;
      var chunk := stream.Read(HEADER_CHUNK);
      assert |chunk| == ReadLength(stream.size(calls), HEADER_CHUNK, |stream.request| - got);
      if |chunk| == 0 {
        return false, buf;
      }
      buf := buf + chunk;
      assert buf == stream.request[..got + |chunk|];
      if HasBlankLine(buf) {
        return true, buf;
      }
      if |buf| > HEADER_LIMIT {
        return false, buf;
      }
    }
  }

  /** Reads until the body has the wanted length or the stream ends: the chunk sizes do not show. */
  method ReadBody(stream: TlsStream, body: string, want: nat) returns (ok: bool, body': string)
    requires stream.got <= |stream.request|
    modifies stream
    ensures stream.got <= |stream.request|
    ensures var more := if |body| < want then Min(want - |body|, |stream.request| - old(stream.got)) else 0;
            body' == body + stream.request[old(stream.got)..old(stream.got) + more]
    ensures ok <==> |body'| >= want
  {
    body' := body;
    while |body'| < want
      invariant old(stream.got) <= stream.got <= |stream.request|
      invariant body' == body + stream.request[old(stream.got)..stream.got]
      invariant |body'| <= want || body' == body
      decreases |stream.request| - stream.got
    {
      var chunk := stream.Read(Min(BODY_CHUNK, want - |body'|));
      if |chunk| == 0 {
        return false, body';
      }
      body' := body' + chunk;
    }
    ok := true;
  }

  // ---------------------------------------------------------------------------
  // Parsing

  /** The number in the first content-length field of lower-cased text; zero if there is none. */
  function FieldValue(low: string): nat {
    match Find(low, FIELD, 0)
    case None => 0
    case Some(pos) =>
      var end := match Find(low, CRLF, pos) case Some(eol) => eol case None => |low|;
      if end < pos + |FIELD| then 0
      else match StoUl(low[pos + |FIELD|..end]) case Some(v) => v case None => 0
  }

  /** The whole buffer is searched, not only its header. */
  function ContentLength(buf: string): nat { FieldValue(Lower(buf)) }

  function HeaderEnd(buf: string): nat {
    match Find(buf, BLANK_LINE, 0) case Some(h) => h case None => |buf|
  }

  function FirstLine(buf: string): string {
    match Find(buf, CRLF, 0) case Some(e) => buf[..e] case None => buf
  }

  function CutQuery(path: string): string {
    match Find(path, "?", 0) case Some(q) => path[..q] case None => path
  }

  /** Method and path, without the query. */
  function RequestLine(buf: string): (string, string) {
    var line := FirstLine(buf);
    match Find(line, " ", 0)
    case None => ("", "/")
    case Some(sp1) =>
      (line[..sp1],
       match Find(line, " ", sp1 + 1) case None => "/" case Some(sp2) => CutQuery(line[sp1 + 1..sp2]))
  }

  /** What `got` bytes hold from `start` on, completed to the wanted length as far as the stream goes. */
  function JoinFrom(request: string, got: nat, start: nat, want: nat): string
    requires got <= |request|
  {
    var raw := if start <= got then request[..got][start..] else "";
    if want > |raw| then raw + request[got..got + Min(want - |raw|, |request| - got)] else raw
  }

  /** The body once the header phase has read `got` bytes. */
  function BodyFrom(request: string, got: nat): string
    requires got <= |request|
  {
    JoinFrom(request, got, HeaderEnd(request[..got]) + 4, ContentLength(request[..got]))
  }

  /** The body handle_connection hands to the JSON parser; None when the header never came. */
  function Assemble(request: string, size: nat -> nat): Option<string> {
    match HeaderPhase(request, size, 0, 0)
    case Done(got, _) => if got <= |request| then Some(BodyFrom(request, got)) else None
    case _ => None
  }

  // ---------------------------------------------------------------------------
  // Searching a prefix

  lemma AtPrefix(s: string, pattern: string, i: nat, n: nat)
    requires i + |pattern| <= n <= |s|
    ensures At(s[..n], pattern, i) <==> At(s, pattern, i)
  {
    assert s[..n][i..i + |pattern|] == s[i..i + |pattern|];
  }

  /** A match that lies inside a prefix is also the first match there. */
  lemma FindPrefix(s: string, pattern: string, from: nat, n: nat)
    requires Find(s, pattern, from).Some? && Find(s, pattern, from).value + |pattern| <= n <= |s|
    ensures Find(s[..n], pattern, from) == Find(s, pattern, from)
  {
    FindMeaning(s, pattern, from);
    var p := Find(s, pattern, from).value;
    forall i: nat | i <= p
      ensures At(s[..n], pattern, i) <==> At(s, pattern, i)
    {
      AtPrefix(s, pattern, i, n);
    }
    FindIs(s[..n], pattern, from, p);
  }

  lemma NotInPrefix(s: string, pattern: string, n: nat)
    requires n <= |s|
    requires Find(s, pattern, 0).Some? ==> n < Find(s, pattern, 0).value + |pattern|
    ensures Find(s[..n], pattern, 0) == None
  {
    FindMeaning(s, pattern, 0);
    FindMeaning(s[..n], pattern, 0);
    var r := Find(s[..n], pattern, 0);
    if r.Some? { AtPrefix(s, pattern, r.value, n); }
  }

  // ---------------------------------------------------------------------------
  // How long a header may be

  /** The number of bytes up to and including the first blank line. */
  function HeaderLength(request: string): (n: nat)
    ensures n <= |request|
  {
    match Find(request, BLANK_LINE, 0) case Some(p) => p + |BLANK_LINE| case None => |request|
  }

  lemma BlankLineSeen(request: string, n: nat)
    requires HasBlankLine(request) && n <= |request|
    ensures HasBlankLine(request[..n]) <==> HeaderLength(request) <= n
  {
    if HeaderLength(request) <= n {
      FindPrefix(request, BLANK_LINE, 0, n);
    } else {
      NotInPrefix(request, BLANK_LINE, n);
    }
  }

  /** A header of at most 64 KiB and one byte is found under every schedule, together with less than
      one chunk of what follows it. */
  lemma {:induction false} HeaderFound(request: string, size: nat -> nat, calls: nat, got: nat)
    requires HasBlankLine(request) && got < HeaderLength(request) <= HEADER_LIMIT + 1
    ensures var r := HeaderPhase(request, size, calls, got);
            r.Done? && HeaderLength(request) <= r.got <= Min(|request|, HeaderLength(request) + HEADER_CHUNK - 1)
    decreases |request| - got
  {
    var n := ReadLength(size(calls), HEADER_CHUNK, |request| - got);
    BlankLineSeen(request, got + n);
    if got + n < HeaderLength(request) {
      HeaderFound(request, size, calls + 1, got + n);
    }
  }

  /** Reading byte by byte, then in full chunks from the k-th read on. */
  function SlowUntil(k: nat): nat -> nat { i => if i < k then 1 else HEADER_CHUNK }

  lemma {:induction false} SlowReads(request: string, size: nat -> nat, k: nat, got: nat)
    requires HasBlankLine(request) && got <= k < HeaderLength(request) && k <= HEADER_LIMIT
    requires forall i: nat :: i < k ==> size(i) == 1
    ensures HeaderPhase(request, size, got, got) == HeaderPhase(request, size, k, k)
    decreases k - got
  {
    if got < k {
      assert ReadLength(size(got), HEADER_CHUNK, |request| - got) == 1;
      BlankLineSeen(request, got + 1);
      SlowReads(request, size, k, got + 1);
    }
  }

  /** Every way of cutting the stream delivers the header exactly when it has at most 65537 bytes. */
  lemma HeaderLimit(request: string)
    requires HasBlankLine(request)
    ensures (forall size: nat -> nat :: HeaderPhase(request, size, 0, 0).Done?)
            <==> HeaderLength(request) <= 65537
  {
    if HeaderLength(request) <= HEADER_LIMIT + 1 {
      forall size: nat -> nat
        ensures HeaderPhase(request, size, 0, 0).Done?
      {
        HeaderFound(request, size, 0, 0);
      }
    } else {
      var slow: nat -> nat := i => 1;
      SlowReads(request, slow, HEADER_LIMIT, 0);
      BlankLineSeen(request, HEADER_LIMIT + 1);
      assert HeaderPhase(request, slow, 0, 0) == TooLong;
    }
  }

  lemma {:induction false} LastReadEndsIt(request: string, size: nat -> nat, calls: nat, got: nat)
    requires HasBlankLine(request) && got <= |request| && got <= HEADER_LIMIT
    ensures HeaderPhase(request, size, calls, got).Done? ==> HeaderLength(request) <= HEADER_LIMIT + HEADER_CHUNK
    decreases |request| - got
  {
    var n := ReadLength(size(calls), HEADER_CHUNK, |request| - got);
    BlankLineSeen(request, got + n);
    if n != 0 && got + n < HeaderLength(request) && got + n <= HEADER_LIMIT {
      LastReadEndsIt(request, size, calls + 1, got + n);
    }
  }

  /** Some way of cutting the stream delivers the header exactly when it has at most one chunk more than
      64 KiB. */
  lemma HeaderReach(request: string)
    requires HasBlankLine(request)
    ensures (exists size: nat -> nat :: HeaderPhase(request, size, 0, 0).Done?)
            <==> HeaderLength(request) <= 67584
  {
    forall size: nat -> nat | HeaderPhase(request, size, 0, 0).Done?
      ensures HeaderLength(request) <= HEADER_LIMIT + HEADER_CHUNK
    {
      LastReadEndsIt(request, size, 0, 0);
    }
    var size := SlowUntil(HEADER_LIMIT);
    if HeaderLength(request) <= HEADER_LIMIT + 1 {
      HeaderFound(request, size, 0, 0);
    } else if HeaderLength(request) <= HEADER_LIMIT + HEADER_CHUNK {
      SlowReads(request, size, HEADER_LIMIT, 0);
      BlankLineSeen(request, HEADER_LIMIT + Min(HEADER_CHUNK, |request| - HEADER_LIMIT));
      assert HeaderPhase(request, size, 0, 0).Done?;
    }
  }

  // ---------------------------------------------------------------------------
  // Which body is assembled

  /** Lower-cased text has a content-length field with a readable number on its line. */
  predicate ReadableField(low: string, length: nat) {
    && Find(low, FIELD, 0).Some?
    && var pos := Find(low, FIELD, 0).value;
    && var eol := Find(low, CRLF, pos);
    && eol.Some? && pos + |FIELD| <= eol.value && StoUl(low[pos + |FIELD|..eol.value]) == Some(length)
  }

  /** The header, up to and including the blank line, is short enough and has such a field. */
  predicate Announces(request: string, length: nat) {
    && HasBlankLine(request)
    && HeaderLength(request) <= HEADER_LIMIT + 1
    && ReadableField(Lower(request[..HeaderLength(request)]), length)
  }

  /** What comes after the header. */
  function Rest(request: string): string { request[HeaderLength(request)..] }

  /** How much of the rest becomes the body when `early` bytes of it came with the header. */
  function Taken(early: nat, length: nat, total: nat): nat {
    if early >= length then early else Min(length, total)
  }

  /** A match found in a prefix is the first match of the whole. */
  lemma FindBeyond(s: string, n: nat, pattern: string, from: nat)
    requires n <= |s| && Find(s[..n], pattern, from).Some?
    ensures Find(s, pattern, from) == Find(s[..n], pattern, from)
  {
    FindMeaning(s[..n], pattern, from);
    var p := Find(s[..n], pattern, from).value;
    forall i: nat | i <= p
      ensures At(s[..n], pattern, i) <==> At(s, pattern, i)
    {
      AtPrefix(s, pattern, i, n);
    }
    FindIs(s, pattern, from, p);
  }

  lemma FieldDecides(all: string, h: nat, length: nat)
    requires h <= |all| && ReadableField(all[..h], length)
    ensures FieldValue(all) == length
  {
    var low := all[..h];
    FindBeyond(all, h, FIELD, 0);
    var pos := Find(low, FIELD, 0).value;
    FindBeyond(all, h, CRLF, pos);
    var eol := Find(low, CRLF, pos).value;
    assert all[pos + |FIELD|..eol] == low[pos + |FIELD|..eol];
  }

  lemma LowerPrefix(s: string, n: nat)
    requires n <= |s|
    ensures Lower(s)[..n] == Lower(s[..n])
  {
  }

  lemma HeadEnds(request: string, n: nat)
    requires HasBlankLine(request) && HeaderLength(request) <= n <= |request|
    ensures HeaderEnd(request[..n]) + 4 == HeaderLength(request)
  {
    FindPrefix(request, BLANK_LINE, 0, n);
  }

  /** However much of what follows the header has arrived, the same length is read from it. */
  lemma HeadDecides(request: string, n: nat, length: nat)
    requires Announces(request, length) && HeaderLength(request) <= n <= |request|
    ensures HeaderEnd(request[..n]) + 4 == HeaderLength(request)
    ensures ContentLength(request[..n]) == length
  {
    var h := HeaderLength(request);
    HeadEnds(request, n);
    assert request[..n][..h] == request[..h];
    LowerPrefix(request[..n], h);
    FieldDecides(Lower(request[..n]), h, length);
  }

  lemma CutRest(request: string, h: nat, early: nat, more: nat)
    requires h + early + more <= |request|
    ensures request[..h + early][h..] == request[h..][..early]
    ensures request[h..][..early] + request[h + early..h + early + more] == request[h..][..early + more]
  {
  }

  /** The body, by how much of the rest came along and by the length found in what had been read. */
  lemma BodyFromHeader(request: string, early: nat)
    requires HasBlankLine(request) && HeaderLength(request) + early <= |request|
    ensures BodyFrom(request, HeaderLength(request) + early)
            == Rest(request)[..Taken(early, ContentLength(request[..HeaderLength(request) + early]), |Rest(request)|)]
  {
    var h := HeaderLength(request);
    var length := ContentLength(request[..h + early]);
    HeadEnds(request, h + early);
    BodyStarts(request, h + early, h, length);
    JoinBody(request, h, Rest(request), early, length);
  }

  lemma BodyStarts(request: string, got: nat, start: nat, want: nat)
    requires got <= |request| && HeaderEnd(request[..got]) + 4 == start && ContentLength(request[..got]) == want
    ensures BodyFrom(request, got) == JoinFrom(request, got, start, want)
  {
  }

  lemma JoinBody(request: string, h: nat, rest: string, early: nat, length: nat)
    requires h + early <= |request| && rest == request[h..]
    ensures JoinFrom(request, h + early, h, length) == rest[..Taken(early, length, |rest|)]
  {
    var more := if early >= length then 0 else Min(length, |request| - h) - early;
    CutRest(request, h, early, more);
  }

  /** The body for one schedule: the announced bytes, or everything the last header read brought along
      if that is more. */
  lemma AssembledBody(request: string, length: nat, size: nat -> nat) returns (early: nat)
    requires Announces(request, length)
    ensures early <= Min(|Rest(request)|, HEADER_CHUNK - 1)
    ensures HeaderPhase(request, size, 0, 0).Done? && HeaderPhase(request, size, 0, 0).got == HeaderLength(request) + early
    ensures Assemble(request, size)
            == Some(Rest(request)[..Taken(early, length, |Rest(request)|)])
  {
    HeaderFound(request, size, 0, 0);
    early := HeaderPhase(request, size, 0, 0).got - HeaderLength(request);
    BodyFromHeader(request, early);
    HeadDecides(request, HeaderLength(request) + early, length);
  }

  lemma TakeAll(s: string)
    ensures s[..|s|] == s
  {
  }

  /** A request whose body is what it announces is assembled exactly, however it is cut into chunks. */
  lemma BodyIndependentOfChunks(request: string, size: nat -> nat)
    requires Announces(request, |Rest(request)|)
    ensures Assemble(request, size) == Some(Rest(request))
  {
    var early := AssembledBody(request, |Rest(request)|, size);
    assert Taken(early, |Rest(request)|, |Rest(request)|) == |Rest(request)|;
    TakeAll(Rest(request));
  }

  /** The schedule that brings along as much of the rest as one read can. */
  lemma GreedySchedule(request: string)
    requires HasBlankLine(request) && HeaderLength(request) <= HEADER_LIMIT + 1
    ensures var r := HeaderPhase(request, SlowUntil(HeaderLength(request) - 1), 0, 0);
            r.Done? && r.got == HeaderLength(request) + Min(|Rest(request)|, HEADER_CHUNK - 1)
  {
    var k := HeaderLength(request) - 1;
    SlowReads(request, SlowUntil(k), k, 0);
    BlankLineSeen(request, k + Min(HEADER_CHUNK, |request| - k));
  }

  /** With more bytes behind the announced body, they stay out of it under every schedule exactly when
      nothing follows or the body alone fills the last header read. */
  lemma TrailingBytes(request: string, length: nat)
    requires Announces(request, length) && length <= |Rest(request)|
    ensures (forall size: nat -> nat :: Assemble(request, size) == Some(Rest(request)[..length]))
            <==> length == |Rest(request)| || length >= 2047
  {
    if length == |Rest(request)| || length >= HEADER_CHUNK - 1 {
      forall size: nat -> nat
        ensures Assemble(request, size) == Some(Rest(request)[..length])
      {
        var early := AssembledBody(request, length, size);
        assert early >= length ==> early == length;
      }
    } else {
      var size := SlowUntil(HeaderLength(request) - 1);
      var early := AssembledBody(request, length, size);
      GreedySchedule(request);
      assert early > length;
      assert |Rest(request)[..early]| != |Rest(request)[..length]|;
    }
  }

  /** The schedule that stops right behind the header. */
  lemma ByteByByte(request: string)
    requires HasBlankLine(request) && HeaderLength(request) <= HEADER_LIMIT + 1
    ensures HeaderPhase(request, SlowUntil(HeaderLength(request)), 0, 0) == Done(HeaderLength(request), HeaderLength(request))
  {
    var k := HeaderLength(request) - 1;
    SlowReads(request, SlowUntil(k + 1), k, 0);
    BlankLineSeen(request, k + 1);
  }

  /** A header in which a positive length is found announces it. */
  lemma LengthIsAnnounced(request: string)
    requires HasBlankLine(request) && HeaderLength(request) <= HEADER_LIMIT + 1
    requires ContentLength(request[..HeaderLength(request)]) > 0
    ensures Announces(request, ContentLength(request[..HeaderLength(request)]))
  {
    var h := HeaderLength(request);
    var low := Lower(request[..h]);
    FindIsThere(request, BLANK_LINE, 0);
    assert request[..h][h - 4..h] == BLANK_LINE;
    assert request[..h][h - 4..h - 2] == BLANK_LINE[..2] == CRLF;
    LowerAt(request[..h], CRLF, h - 4);
    FindMeaning(low, CRLF, Find(low, FIELD, 0).value);
  }

  ghost predicate SameForEveryChunking(request: string) {
    forall a: nat -> nat, b: nat -> nat :: Assemble(request, a) == Assemble(request, b)
  }

  /** Behind a header of at most 65537 bytes the chunking does not show exactly when no more can come along
      with the header than the length found in it: without a readable length that is nothing at all. */
  lemma ShortHeaderChunking(request: string)
    requires HasBlankLine(request) && HeaderLength(request) <= HEADER_LIMIT + 1
    ensures SameForEveryChunking(request)
            <==> Min(|Rest(request)|, HEADER_CHUNK - 1) <= ContentLength(request[..HeaderLength(request)])
  {
    var most, length := Min(|Rest(request)|, HEADER_CHUNK - 1), ContentLength(request[..HeaderLength(request)]);
    if most <= length {
      forall a: nat -> nat, b: nat -> nat
        ensures Assemble(request, a) == Assemble(request, b)
      {
        BodyFixed(request, a);
        BodyFixed(request, b);
      }
    } else {
      TwoBodies(request);
    }
  }

  lemma AssembledWhenDone(request: string, size: nat -> nat)
    ensures Assemble(request, size).Some? <==> HeaderPhase(request, size, 0, 0).Done?
    ensures Assemble(request, size).Some? ==> HasBlankLine(request)
  {
    HeaderPhaseSeesBlankLine(request, size, 0, 0);
    var r := HeaderPhase(request, size, 0, 0);
    if r.Done? { FindBeyond(request, r.got, BLANK_LINE, 0); }
  }

  lemma NothingDelivered(request: string)
    requires HasBlankLine(request) ==> HeaderLength(request) > HEADER_LIMIT + HEADER_CHUNK
    ensures SameForEveryChunking(request)
  {
    forall size: nat -> nat
      ensures Assemble(request, size) == None
    {
      AssembledWhenDone(request, size);
      if HasBlankLine(request) { LastReadEndsIt(request, size, 0, 0); }
    }
  }

  lemma SometimesDelivered(request: string)
    requires HasBlankLine(request) && HEADER_LIMIT + 1 < HeaderLength(request) <= HEADER_LIMIT + HEADER_CHUNK
    ensures !SameForEveryChunking(request)
  {
    HeaderReach(request);
    HeaderLimit(request);
    var a: nat -> nat :| HeaderPhase(request, a, 0, 0).Done?;
    var b: nat -> nat :| !HeaderPhase(request, b, 0, 0).Done?;
    AssembledWhenDone(request, a);
    AssembledWhenDone(request, b);
    assert Assemble(request, a) != Assemble(request, b);
  }

  /** For every request: the chunking never shows exactly when the header can never be delivered, or always
      is and announces at least what can come along with it. */
  lemma ChunkingShows(request: string)
    ensures SameForEveryChunking(request) <==>
            || !HasBlankLine(request)
            || HeaderLength(request) > 67584
            || (HeaderLength(request) <= 65537
                && Min(|Rest(request)|, 2047) <= ContentLength(request[..HeaderLength(request)]))
  {
    if !HasBlankLine(request) || HeaderLength(request) > HEADER_LIMIT + HEADER_CHUNK {
      NothingDelivered(request);
    } else if HeaderLength(request) > HEADER_LIMIT + 1 {
      SometimesDelivered(request);
    } else {
      ShortHeaderChunking(request);
    }
  }

  lemma BodyFixed(request: string, size: nat -> nat)
    requires HasBlankLine(request) && HeaderLength(request) <= HEADER_LIMIT + 1
    requires Min(|Rest(request)|, HEADER_CHUNK - 1) <= ContentLength(request[..HeaderLength(request)])
    ensures Assemble(request, size)
            == Some(Rest(request)[..Min(ContentLength(request[..HeaderLength(request)]), |Rest(request)|)])
  {
    var length := ContentLength(request[..HeaderLength(request)]);
    if length > 0 {
      LengthIsAnnounced(request);
      AnnouncedBody(request, length, size);
    } else {
      NothingFollows(request, size);
    }
  }

  lemma AnnouncedBody(request: string, length: nat, size: nat -> nat)
    requires Announces(request, length) && Min(|Rest(request)|, HEADER_CHUNK - 1) <= length
    ensures Assemble(request, size) == Some(Rest(request)[..Min(length, |Rest(request)|)])
  {
    var early := AssembledBody(request, length, size);
    TakenFixed(early, length, |Rest(request)|);
  }

  lemma TakenFixed(early: nat, length: nat, total: nat)
    requires early <= Min(total, HEADER_CHUNK - 1) <= length
    ensures Taken(early, length, total) == Min(length, total)
  {
  }

  lemma NothingFollows(request: string, size: nat -> nat)
    requires HasBlankLine(request) && HeaderLength(request) <= HEADER_LIMIT + 1 && Rest(request) == ""
    ensures Assemble(request, size) == Some("")
  {
    HeaderFound(request, size, 0, 0);
    assert HeaderPhase(request, size, 0, 0).got == |request|;
    BodyFromHeader(request, 0);
    assert BodyFrom(request, |request|) == "";
  }

  lemma ShortBody(request: string)
    requires HasBlankLine(request) && HeaderLength(request) <= HEADER_LIMIT + 1
    ensures var r := Assemble(request, SlowUntil(HeaderLength(request)));
            r.Some? && |r.value| <= ContentLength(request[..HeaderLength(request)])
  {
    ByteByByte(request);
    BodyFromHeader(request, 0);
  }

  lemma LongBody(request: string)
    requires HasBlankLine(request) && HeaderLength(request) <= HEADER_LIMIT + 1
    ensures var r := Assemble(request, SlowUntil(HeaderLength(request) - 1));
            r.Some? && |r.value| >= Min(|Rest(request)|, HEADER_CHUNK - 1)
  {
    GreedySchedule(request);
    BodyFromHeader(request, Min(|Rest(request)|, HEADER_CHUNK - 1));
  }

  lemma TwoBodies(request: string)
    requires HasBlankLine(request) && HeaderLength(request) <= HEADER_LIMIT + 1
    requires ContentLength(request[..HeaderLength(request)]) < Min(|Rest(request)|, HEADER_CHUNK - 1)
    ensures !SameForEveryChunking(request)
  {
    var h := HeaderLength(request);
    ShortBody(request);
    LongBody(request);
    assert Assemble(request, SlowUntil(h)) != Assemble(request, SlowUntil(h - 1));
  }

  /** The usual field announces its number: any letter case, spaces before the decimal digits. */
  lemma FieldAnnounces(request: string, pos: nat, pad: string, length: nat)
    requires HasBlankLine(request) && HeaderLength(request) <= HEADER_LIMIT + 1 && length < WORD
    requires forall c :: c in pad ==> c == ' '
    requires var header := request[..HeaderLength(request)];
             && Find(Lower(header), FIELD, 0) == Some(pos)
             && At(header, pad + Decimal(length), pos + |FIELD|)
             && At(header, CRLF, pos + |FIELD| + |pad + Decimal(length)|)
    ensures Announces(request, length)
  {
    var header := request[..HeaderLength(request)];
    LowerAt(header, pad + Decimal(length), pos + |FIELD|);
    LowerAt(header, CRLF, pos + |FIELD| + |pad + Decimal(length)|);
    FieldReadable(Lower(header), pos, pad, length);
  }

  lemma FieldReadable(low: string, pos: nat, pad: string, length: nat)
    requires (forall c :: c in pad ==> c == ' ') && length < WORD && Find(low, FIELD, 0) == Some(pos)
    requires At(low, pad + Decimal(length), pos + |FIELD|)
    requires At(low, CRLF, pos + |FIELD| + |pad + Decimal(length)|)
    ensures ReadableField(low, length)
  {
    FindIsThere(low, FIELD, 0);
    ValueRead(low, pos, pad, length);
  }

  lemma ValueRead(low: string, pos: nat, pad: string, length: nat)
    requires (forall c :: c in pad ==> c == ' ') && length < WORD
    requires At(low, FIELD, pos) && At(low, pad + Decimal(length), pos + |FIELD|)
    requires At(low, CRLF, pos + |FIELD| + |pad + Decimal(length)|)
    ensures var eol := pos + |FIELD| + |pad + Decimal(length)|;
            Find(low, CRLF, pos) == Some(eol) && StoUl(low[pos + |FIELD|..eol]) == Some(length)
  {
    var value := pad + Decimal(length);
    var eol := pos + |FIELD| + |value|;
    forall i: nat | pos <= i < eol
      ensures !At(low, CRLF, i)
    {
      FieldHasNoLineEnd(low, pos, value, i);
    }
    FindIs(low, CRLF, pos, eol);
    assert pad + "" + Decimal(length) + "" == value;
    StoUlReadsDecimal(pad, "", length, "");
  }

  lemma LowerAt(s: string, pattern: string, i: nat)
    requires At(s, pattern, i) && forall c :: c in pattern ==> LowerChar(c) == c
    ensures At(Lower(s), pattern, i)
  {
    var low := Lower(s);
    forall k | 0 <= k < |pattern|
      ensures low[i + k] == pattern[k]
    {
      assert s[i..i + |pattern|][k] == pattern[k];
      assert pattern[k] in pattern;
    }
    assert low[i..i + |pattern|] == pattern;
  }

  lemma FieldHasNoLineEnd(low: string, pos: nat, value: string, i: nat)
    requires At(low, FIELD, pos) && At(low, value, pos + |FIELD|)
    requires forall c :: c in value ==> c == ' ' || IsDigit(c)
    requires pos <= i < pos + |FIELD| + |value|
    ensures !At(low, CRLF, i)
  {
    if i < pos + |FIELD| {
      assert low[i] == low[pos..pos + |FIELD|][i - pos] == FIELD[i - pos];
    } else {
      assert low[i] == low[pos + |FIELD|..pos + |FIELD| + |value|][i - pos - |FIELD|];
      assert low[i] in value;
    }
    assert low[i] != '\r';
    AtFirst(low, CRLF, i);
  }

  // ---------------------------------------------------------------------------
  // The connection

  lemma {:induction false} HeaderPhaseSeesBlankLine(request: string, size: nat -> nat, calls: nat, got: nat)
    requires got <= |request|
    ensures var r := HeaderPhase(request, size, calls, got);
            r.Done? ==> r.got <= |request| && HasBlankLine(request[..r.got])
    decreases |request| - got
  {
    var n := ReadLength(size(calls), HEADER_CHUNK, |request| - got);
    if n != 0 && !HasBlankLine(request[..got + n]) && got + n <= HEADER_LIMIT {
      HeaderPhaseSeesBlankLine(request, size, calls + 1, got + n);
    }
  }

  /** The request line read from the buffer is that of the whole request. */
  lemma RequestLineIndependent(request: string, n: nat)
    requires n <= |request| && HasBlankLine(request[..n])
    ensures RequestLine(request[..n]) == RequestLine(request)
  {
    var buf := request[..n];
    FindMeaning(buf, BLANK_LINE, 0);
    FindMeaning(buf, CRLF, 0);
    var p := Find(buf, BLANK_LINE, 0).value;
    assert buf[p..p + 2] == buf[p..p + 4][..2] == CRLF;
    assert At(buf, CRLF, p);
    FindBeyond(request, n, CRLF, 0);
    var e := Find(buf, CRLF, 0).value;
    assert buf[..e] == request[..e];
  }

  lemma QueryIsCut(path: string, query: string)
    requires '?' !in path && (query == "" || query[0] == '?')
    ensures CutQuery(path + query) == path
  {
    if query == "" {
      assert path + query == path;
      FindNothing(path, "?");
    } else {
      assert path + query == "" + path + "?" + query[1..];
      FindSeparator("", path, "?", query[1..]);
    }
  }

  lemma LineTaken(buf: string, verb: string, target: string, version: string)
    requires FirstLine(buf) == verb + " " + target + " " + version && ' ' !in verb && ' ' !in target
    ensures RequestLine(buf) == (verb, CutQuery(target))
  {
    var line := FirstLine(buf);
    assert line == "" + verb + " " + (target + " " + version);
    FindSeparator("", verb, " ", target + " " + version);
    assert line[..|verb|] == verb;
    assert |verb + " "| == |verb| + 1;
    FindSeparator(verb + " ", target, " ", version);
    assert line[|verb| + 1..|verb| + 1 + |target|] == target;
  }

  /** Without a second blank the path is the root, without a first one there is no method either. */
  lemma ShortRequestLine(verb: string, target: string, rest: string)
    requires ' ' !in verb && ' ' !in target && '\r' !in verb && '\r' !in target
    ensures RequestLine(verb + "\r\n" + rest) == ("", "/")
    ensures RequestLine((verb + " " + target) + "\r\n" + rest) == (verb, "/")
  {
    FirstLineTaken(verb, rest);
    FindNothing(verb, " ");
    var line := verb + " " + target;
    FirstLineTaken(line, rest);
    assert line == "" + verb + " " + target && line[..|verb|] == verb;
    FindSeparator("", verb, " ", target);
    FindMeaning(line, " ", |verb| + 1);
    forall i: nat | |verb| + 1 <= i
      ensures !At(line, " ", i)
    {
      AtFirst(line, " ", i);
      if i < |line| { assert line[i] == target[i - |verb| - 1]; }
    }
  }

  lemma FirstLineTaken(line: string, rest: string)
    requires '\r' !in line
    ensures FirstLine(line + CRLF + rest) == line
  {
    assert "" + line + CRLF + rest == line + CRLF + rest;
    FindSeparator("", line, CRLF, rest);
  }

  /** A request line is taken apart as it was put together, whatever follows it; the query is dropped. */
  lemma RequestLineRoundTrip(verb: string, path: string, query: string, version: string, rest: string)
    requires ' ' !in verb && ' ' !in path && ' ' !in query && '?' !in path && (query == "" || query[0] == '?')
    requires '\r' !in verb && '\r' !in path && '\r' !in query && '\r' !in version
    ensures RequestLine((verb + " " + (path + query) + " " + version) + "\r\n" + rest) == (verb, path)
  {
    var line := verb + " " + (path + query) + " " + version;
    FirstLineTaken(line, rest);
    LineTaken(line + CRLF + rest, verb, path + query, version);
    QueryIsCut(path, query);
  }

  /** The rest of the body, once the buffer holds the header. */
  method FinishBody(stream: TlsStream, buf: string) returns (raw: string)
    requires stream.got <= |stream.request| && buf == stream.request[..stream.got]
    modifies stream
    ensures raw == BodyFrom(stream.request, |buf|)
  {
    var headerEnd, want := HeaderEnd(buf), ContentLength(buf);
    raw := if headerEnd + 4 <= |buf| then buf[headerEnd + 4..] else "";
    if want > |raw| {
      var _, raw' := ReadBody(stream, raw, want);
      raw := raw';    // never longer than wanted, so the resize in AdminServer.cpp has nothing to cut
    }
  }

  /** Method, path and body of the request, or nothing when its header never came. */
  method HandleConnection(stream: TlsStream) returns (r: Option<(string, string, string)>)
    requires stream.got == 0 && stream.calls == 0
    modifies stream
    ensures match Assemble(stream.request, stream.size)
            case None => r == None
            case Some(body) => r == Some((RequestLine(stream.request).0, RequestLine(stream.request).1, body))
  {
    var ok, buf := ReadUntilHeaders(stream);
    HeaderPhaseSeesBlankLine(stream.request, stream.size, 0, 0);
    if !ok {
      return None;
    }
    var (verb, path) := RequestLine(buf);
    RequestLineIndependent(stream.request, |buf|);
    var raw := FinishBody(stream, buf);
    r := Some((verb, path, raw));
  }
}
