/** Whole requests, written down line by line, and what the service hands on of them. */
module RequestText {
  import opened Types
  import opened Counter64
  import opened Text
  import opened AdminServerModule

  function Lines(ls: seq<string>): string {
    if ls == [] then "" else ls[0] + "\r\n" + Lines(ls[1..])
  }

  /** The word stands somewhere in the line, in any mixture of letter cases. */
  predicate SpelledAt(s: string, word: string, i: nat) {
    i + |word| <= |s| && Spells(s[i..i + |word|], word)
  }

  ghost predicate Mentions(line: string, word: string) { exists i :: SpelledAt(line, word, i) }

  /** Lines that a header can consist of: only its first one, the request line, may be empty. */
  predicate HeaderLines(ls: seq<string>) {
    forall k :: 0 <= k < |ls| ==> '\r' !in ls[k] && (k > 0 ==> ls[k] != "")
  }

  function Request(line: string, before: seq<string>, field: string, after: seq<string>, body: string): string {
    Lines([line] + before) + (field + "\r\n" + Lines(after)) + "\r\n" + body
  }

  lemma {:induction false} LinesJoin(a: seq<string>, b: seq<string>)
    ensures Lines(a + b) == Lines(a) + Lines(b)
  {
    if a == [] {
      assert a + b == b;
    } else {
      assert (a + b)[0] == a[0] && (a + b)[1..] == a[1..] + b;
      LinesJoin(a[1..], b);
    }
  }

  // ---------------------------------------------------------------------------
  // Where the header ends

  lemma AtBlank(s: string, i: nat)
    ensures At(s, "\r\n\r\n", i) ==> s[i] == '\r' && s[i + 2] == '\r'
  {
    if At(s, "\r\n\r\n", i) {
      assert s[i..i + 4][0] == '\r' && s[i..i + 4][2] == '\r';
    }
  }

  lemma AtShifted(a: string, b: string, pattern: string, i: nat)
    ensures At(a + b, pattern, |a| + i) <==> At(b, pattern, i)
  {
    if i + |pattern| <= |b| {
      assert (a + b)[|a| + i..|a| + i + |pattern|] == b[i..i + |pattern|];
    }
  }

  lemma {:induction false} NoEarlyBlank(ls: seq<string>, tail: string, i: nat)
    requires ls != [] && HeaderLines(ls) && i + 2 < |Lines(ls)|
    ensures !At(Lines(ls) + "\r\n" + tail, "\r\n\r\n", i)
  {
    var l, rest := ls[0], Lines(ls[1..]) + "\r\n" + tail;
    var s := Lines(ls) + "\r\n" + tail;
    assert s == (l + "\r\n") + rest;
    AtBlank(s, i);
    if i < |l| {
      assert s[i] == l[i];
    } else if i == |l| {
      assert s[i + 2] == rest[0] == ls[1][0];
    } else if i == |l| + 1 {
      assert s[i] == '\n';
    } else {
      NoEarlyBlank(ls[1..], tail, i - |l| - 2);
      AtShifted(l + "\r\n", rest, "\r\n\r\n", i - |l| - 2);
    }
  }

  lemma {:induction false} LinesEnd(ls: seq<string>)
    requires ls != []
    ensures |Lines(ls)| >= 2 && Lines(ls)[|Lines(ls)| - 2..] == "\r\n"
  {
    if |ls| == 1 {
      assert Lines(ls) == ls[0] + "\r\n" + "";
    } else {
      LinesEnd(ls[1..]);
    }
  }

  lemma HeaderEnds(ls: seq<string>, tail: string)
    requires ls != [] && HeaderLines(ls)
    ensures HasBlankLine(Lines(ls) + "\r\n" + tail)
    ensures HeaderLength(Lines(ls) + "\r\n" + tail) == |Lines(ls)| + 2
  {
    var s, p := Lines(ls) + "\r\n" + tail, |Lines(ls)| - 2;
    LinesEnd(ls);
    assert s[p..p + 4] == Lines(ls)[p..] + "\r\n";
    forall i: nat | i < p
      ensures !At(s, "\r\n\r\n", i)
    {
      NoEarlyBlank(ls, tail, i);
    }
    FindIs(s, "\r\n\r\n", 0, p);
  }

  // ---------------------------------------------------------------------------
  // Where the length is found

  lemma FieldIsSpelled(s: string, i: nat)
    ensures At(Lower(s), "content-length:", i) <==> SpelledAt(s, "content-length:", i)
  {
    if i + 15 <= |s| {
      assert Lower(s)[i..i + 15] == Lower(s[i..i + 15]);
      LowerSpells(s[i..i + 15], "content-length:");
    }
  }

  lemma SpelledHasNoLineEnd(s: string, i: nat, k: nat)
    requires SpelledAt(s, "content-length:", i) && i <= k < i + 15
    ensures s[k] != '\r' && s[k] != '\n'
  {
    assert s[k] == s[i..i + 15][k - i];
  }

  lemma {:induction false} NoEarlyField(ls: seq<string>, tail: string, i: nat)
    requires forall l :: l in ls ==> !Mentions(l, "content-length:")
    requires i < |Lines(ls)|
    ensures !SpelledAt(Lines(ls) + tail, "content-length:", i)
  {
    var l, rest := ls[0], Lines(ls[1..]) + tail;
    var s := Lines(ls) + tail;
    assert s == (l + "\r\n") + rest && s[|l|] == '\r' && s[|l| + 1] == '\n';
    if SpelledAt(s, "content-length:", i) {
      if i + 15 <= |l| {
        assert l[i..i + 15] == s[i..i + 15];
        assert SpelledAt(l, "content-length:", i);
        assert Mentions(l, "content-length:");
      } else if i <= |l| {
        SpelledHasNoLineEnd(s, i, |l|);
      } else if i == |l| + 1 {
        SpelledHasNoLineEnd(s, i, i);
      } else {
        assert rest[i - |l| - 2..i - |l| + 13] == s[i..i + 15];
        NoEarlyField(ls[1..], tail, i - |l| - 2);
      }
    }
  }

  lemma PieceAt(a: string, x: string, b: string)
    ensures At(a + x + b, x, |a|)
  {
    assert (a + x + b)[|a|..|a| + |x|] == x;
  }

  lemma NameSpelled(name: string)
    requires Spells(name, "content-length")
    ensures Spells(name + ":", "content-length:") && '\r' !in name
  {
    assert "content-length:"[..14] == "content-length";
    forall i | 0 <= i < 14
      ensures (name + ":")[i] == name[i] && "content-length:"[i] == "content-length"[i]
    {
    }
  }

  /** The field line, as a client writes it. */
  function FieldLine(name: string, pad: string, n: nat): string { name + ":" + pad + Decimal(n) }

  lemma FieldFound(ls: seq<string>, name: string, pad: string, n: nat, tail: string)
    requires forall l :: l in ls ==> !Mentions(l, "content-length:")
    requires Spells(name, "content-length")
    ensures var header := Lines(ls) + (FieldLine(name, pad, n) + "\r\n" + tail);
            var pos := |Lines(ls)|;
            && Find(Lower(header), FIELD, 0) == Some(pos)
            && At(header, pad + Decimal(n), pos + |FIELD|)
            && At(header, "\r\n", pos + |FIELD| + |pad + Decimal(n)|)
  {
    var a, value := Lines(ls), pad + Decimal(n);
    var header := a + (FieldLine(name, pad, n) + "\r\n" + tail);
    NameSpelled(name);
    assert header == a + (name + ":") + (value + "\r\n" + tail);
    assert header[|a|..|a| + 15] == name + ":";
    FieldIsSpelled(header, |a|);
    forall i: nat | i < |a|
      ensures !At(Lower(header), FIELD, i)
    {
      NoEarlyField(ls, FieldLine(name, pad, n) + "\r\n" + tail, i);
      FieldIsSpelled(header, i);
    }
    FindIs(Lower(header), FIELD, 0, |a|);
    assert header == (a + (name + ":")) + value + ("\r\n" + tail);
    PieceAt(a + (name + ":"), value, "\r\n" + tail);
    assert header == (a + (name + ":") + value) + "\r\n" + tail;
    PieceAt(a + (name + ":") + value, "\r\n", tail);
  }

  // ---------------------------------------------------------------------------
  // The whole request

  predicate OnlySpaces(pad: string) { forall c :: c in pad ==> c == ' ' }

  lemma FieldLineIsProper(name: string, pad: string, n: nat)
    requires Spells(name, "content-length") && OnlySpaces(pad)
    ensures '\r' !in FieldLine(name, pad, n) && FieldLine(name, pad, n) != ""
  {
    NameSpelled(name);
    assert forall c :: c in Decimal(n) ==> IsDigit(c);
  }

  lemma AllLines(line: string, before: seq<string>, field: string, after: seq<string>)
    requires HeaderLines([line] + before) && '\r' !in field && field != ""
    requires forall l :: l in after ==> '\r' !in l && l != ""
    ensures HeaderLines([line] + before + [field] + after)
    ensures Lines([line] + before + [field] + after) == Lines([line] + before) + (field + "\r\n" + Lines(after))
  {
    var first := [line] + before;
    var all := first + [field] + after;
    forall k | 0 <= k < |all|
      ensures '\r' !in all[k] && (k > 0 ==> all[k] != "")
    {
      if k < |first| {
        assert all[k] == first[k];
      } else if k > |first| {
        assert all[k] == after[k - |first| - 1];
      }
    }
    LinesJoin(first, [field] + after);
    assert all == first + ([field] + after);
    assert ([field] + after)[1..] == after;
  }

  /** Everything up to the blank line, and it. */
  function Header(line: string, before: seq<string>, field: string, after: seq<string>): string {
    Lines([line] + before) + (field + "\r\n" + Lines(after)) + "\r\n"
  }

  lemma HeaderStands(line: string, before: seq<string>, field: string, after: seq<string>, body: string)
    requires HeaderLines([line] + before) && '\r' !in field && field != ""
    requires forall l :: l in after ==> '\r' !in l && l != ""
    ensures var request, header := Request(line, before, field, after, body), Header(line, before, field, after);
            && HasBlankLine(request) && HeaderLength(request) == |header|
            && request[..|header|] == header && Rest(request) == body
  {
    var all := [line] + before + [field] + after;
    AllLines(line, before, field, after);
    HeaderEnds(all, body);
    assert Request(line, before, field, after, body) == Lines(all) + "\r\n" + body;
  }

  /** For every request line, every other header lines, every spelling of the name Content-Length, every body
      and every way of cutting the stream: exactly that body is handed on. The header has at most 65537
      bytes, and no line above the field mentions its name. */
  lemma BodyHandedOn(line: string, before: seq<string>, name: string, pad: string, after: seq<string>, body: string, size: nat -> nat)
    requires HeaderLines([line] + before) && forall l :: l in [line] + before ==> !Mentions(l, "content-length:")
    requires Spells(name, "content-length") && OnlySpaces(pad) && |body| < 0x1_0000_0000_0000_0000
    requires forall l :: l in after ==> '\r' !in l && l != ""
    requires |Header(line, before, FieldLine(name, pad, |body|), after)| <= 65537
    ensures Assemble(Request(line, before, FieldLine(name, pad, |body|), after, body), size) == Some(body)
  {
    var field := FieldLine(name, pad, |body|);
    var request := Request(line, before, field, after, body);
    FieldLineIsProper(name, pad, |body|);
    HeaderStands(line, before, field, after, body);
    AnnouncedInHeader(line, before, name, pad, after, request, |body|);
    BodyIndependentOfChunks(request, size);
  }

  lemma AnnouncedInHeader(line: string, before: seq<string>, name: string, pad: string, after: seq<string>, request: string, n: nat)
    requires forall l :: l in [line] + before ==> !Mentions(l, "content-length:")
    requires Spells(name, "content-length") && OnlySpaces(pad) && n < 0x1_0000_0000_0000_0000
    requires HasBlankLine(request) && HeaderLength(request) <= 65537
    requires request[..HeaderLength(request)] == Header(line, before, FieldLine(name, pad, n), after)
    ensures Announces(request, n)
  {
    var first, tail := [line] + before, Lines(after) + "\r\n";
    var field := FieldLine(name, pad, n);
    assert Header(line, before, field, after) == Lines(first) + (field + "\r\n" + tail);
    FieldFound(first, name, pad, n, tail);
    FieldAnnounces(request, |Lines(first)|, pad, n);
  }

  /** With method and path: what handle_connection hands on of such a request. */
  lemma RequestHandedOn(verb: string, path: string, query: string, version: string, before: seq<string>,
                        name: string, pad: string, after: seq<string>, body: string, size: nat -> nat)
    requires ' ' !in verb && ' ' !in path && ' ' !in query && '?' !in path && (query == "" || query[0] == '?')
    requires '\r' !in verb && '\r' !in path && '\r' !in query && '\r' !in version
    requires var line := verb + " " + (path + query) + " " + version;
             && HeaderLines([line] + before) && (forall l :: l in [line] + before ==> !Mentions(l, "content-length:"))
             && |Header(line, before, FieldLine(name, pad, |body|), after)| <= 65537
    requires Spells(name, "content-length") && OnlySpaces(pad) && |body| < 0x1_0000_0000_0000_0000
    requires forall l :: l in after ==> '\r' !in l && l != ""
    ensures var line := verb + " " + (path + query) + " " + version;
            var request := Request(line, before, FieldLine(name, pad, |body|), after, body);
            Assemble(request, size) == Some(body) && RequestLine(request) == (verb, path)
  {
    var line := verb + " " + (path + query) + " " + version;
    var field := FieldLine(name, pad, |body|);
    BodyHandedOn(line, before, name, pad, after, body, size);
    StartsWithItsLine(line, before, field, after, body);
    RequestLineRoundTrip(verb, path, query, version, Lines(before) + (field + "\r\n" + Lines(after)) + "\r\n" + body);
  }

  lemma StartsWithItsLine(line: string, before: seq<string>, field: string, after: seq<string>, body: string)
    ensures Request(line, before, field, after, body)
            == line + "\r\n" + (Lines(before) + (field + "\r\n" + Lines(after)) + "\r\n" + body)
  {
    assert ([line] + before)[1..] == before;
  }

  /** Without the name, in any letter case, anywhere in what has been read, the length is zero. */
  lemma NoLengthFound(buf: string)
    requires !Mentions(buf, "content-length:")
    ensures ContentLength(buf) == 0
  {
    FindMeaning(Lower(buf), FIELD, 0);
    var r := Find(Lower(buf), FIELD, 0);
    if r.Some? {
      FieldIsSpelled(buf, r.value);
    }
  }
}
