/** The event loop of runStreamingRequestOnce: which data payloads a streamed body yields. */
module Sse {

  function FlatMap<A, B>(f: A -> seq<B>, s: seq<A>): seq<B> {
    if s == [] then [] else FlatMap(f, s[..|s| - 1]) + f(s[|s| - 1])
  }

  lemma Associative<A>(a: seq<A>, b: seq<A>, c: seq<A>)
    ensures (a + b) + c == a + (b + c)
  {
  }

  lemma {:induction false} FlatMapJoin<A, B>(f: A -> seq<B>, a: seq<A>, b: seq<A>)
    ensures FlatMap(f, a + b) == FlatMap(f, a) + FlatMap(f, b)
  {
    if b == [] {
      assert a + b == a;
    } else {
      var init, last := b[..|b| - 1], b[|b| - 1];
      FlatMapJoin(f, a, init);
      assert (a + b)[..|a + b| - 1] == a + init && (a + b)[|a + b| - 1] == last;
      Associative(FlatMap(f, a), FlatMap(f, init), f(last));
    }
  }

  lemma FlatMapOne<A, B>(f: A -> seq<B>, x: A)
    ensures FlatMap(f, [x]) == f(x)
  {
    assert [x][..0] == [];
  }

  // ---------------------------------------------------------------- lines

  /** The characters that JavaScript's trim() removes. */
  predicate Blank(c: char) {
    c == ' ' || '\t' <= c <= '\r' || c == '\U{00A0}' || c == '\U{1680}' || '\U{2000}' <= c <= '\U{200A}' || c == '\U{2028}'
    || c == '\U{2029}' || c == '\U{202F}' || c == '\U{205F}' || c == '\U{3000}' || c == '\U{FEFF}'
  }

  /** The white space and line terminators of ECMAScript, by code point. */
  lemma BlankCharacters(c: char)
    ensures Blank(c) <==> c as int in {9, 10, 11, 12, 13, 32, 160, 5760, 8192, 8193, 8194, 8195, 8196, 8197, 8198, 8199, 8200,
      8201, 8202, 8232, 8233, 8239, 8287, 12288, 65279}
  {
  }

  function TrimStart(s: string): string {
    if s != "" && Blank(s[0]) then TrimStart(s[1..]) else s
  }

  function TrimEnd(s: string): string {
    if s != "" && Blank(s[|s| - 1]) then TrimEnd(s[..|s| - 1]) else s
  }

  function Trim(s: string): string {
    TrimEnd(TrimStart(s))
  }

  /** The payload of a line, if it has one. */
  function Payload(line: string): seq<string> {
    var trimmed := Trim(line);
    if !("data:" <= trimmed) then [] else
    var data := Trim(trimmed[5..]);
    if data == "" || data == "[DONE]" then [] else [data]
  }

  predicate Blanks(s: string) {
    forall i :: 0 <= i < |s| ==> Blank(s[i])
  }

  /** A text that trim() leaves alone. */
  predicate Bare(s: string) {
    s != "" ==> !Blank(s[0]) && !Blank(s[|s| - 1])
  }

  lemma {:induction false} TrimStartOf(l: string, s: string)
    requires Blanks(l) && (s != "" ==> !Blank(s[0]))
    ensures TrimStart(l + s) == s
  {
    if l == "" {
      assert l + s == s;
    } else {
      assert (l + s)[1..] == l[1..] + s;
      TrimStartOf(l[1..], s);
    }
  }

  lemma {:induction false} TrimEndOf(s: string, r: string)
    requires Blanks(r) && (s != "" ==> !Blank(s[|s| - 1]))
    ensures TrimEnd(s + r) == s
  {
    if r == "" {
      assert s + r == s;
    } else {
      assert (s + r)[..|s + r| - 1] == s + r[..|r| - 1];
      TrimEndOf(s, r[..|r| - 1]);
    }
  }

  lemma TrimOf(l: string, s: string, r: string)
    requires Blanks(l) && Bare(s) && Blanks(r)
    ensures Trim(l + s + r) == s
  {
    if s == "" {
      assert l + s + r == (l + r) + "";
      TrimStartOf(l + r, "");
    } else {
      assert l + s + r == l + (s + r);
      TrimStartOf(l, s + r);
      TrimEndOf(s, r);
    }
  }

  /** What follows "data:" and blanks, without the blanks behind it, is the payload, unless it is nothing or "[DONE]". */
  lemma DataLine(l: string, m: string, d: string, r: string)
    requires Blanks(l) && Blanks(m) && Bare(d) && Blanks(r)
    ensures Payload(l + "data:" + m + d + r) == if d == "" || d == "[DONE]" then [] else [d]
  {
    var line := l + "data:" + m + d + r;
    if d == "" {
      assert line == l + "data:" + (m + r);
      TrimOf(l, "data:", m + r);
      assert "data:"[5..] == "";
    } else {
      var text := "data:" + m + d;
      assert text[|text| - 1] == d[|d| - 1];
      assert line == l + text + r;
      TrimOf(l, text, r);
      assert text[5..] == m + d + "";
      TrimOf(m, d, "");
    }
  }

  /** A line whose first text is anything else has no payload. */
  lemma OtherLine(l: string, t: string)
    requires Blanks(l) && (t != "" ==> !Blank(t[0])) && !("data:" <= t)
    ensures Payload(l + t) == []
  {
    TrimStartOf(l, t);
    TrimEndPrefix(t);
    assert "data:" <= Trim(l + t) ==> "data:" <= t;
  }

  lemma {:induction false} TrimEndPrefix(s: string)
    ensures TrimEnd(s) <= s
  {
    if s != "" { TrimEndPrefix(s[..|s| - 1]); }
  }

  /** Every line is of one of these forms. */
  lemma LineForms(line: string) returns (l: string, t: string, m: string, d: string, r: string)
    ensures line == l + t && Blanks(l) && (t != "" ==> !Blank(t[0]))
    ensures "data:" <= t ==> line == l + "data:" + m + d + r && Blanks(m) && Bare(d) && Blanks(r)
  {
    l, t := CutStart(line);
    m, d, r := "", "", "";
    if "data:" <= t {
      var rest: string;
      m, rest := CutStart(t[5..]);
      d, r := CutEnd(rest);
      assert t == "data:" + t[5..];
      assert line == l + "data:" + m + d + r;
    }
  }

  lemma {:induction false} CutStart(s: string) returns (l: string, t: string)
    ensures s == l + t && Blanks(l) && (t != "" ==> !Blank(t[0]))
  {
    if s != "" && Blank(s[0]) {
      l, t := CutStart(s[1..]);
      l := [s[0]] + l;
    } else {
      l, t := "", s;
    }
  }

  lemma {:induction false} CutEnd(s: string) returns (d: string, r: string)
    requires s != "" ==> !Blank(s[0])
    ensures s == d + r && Bare(d) && Blanks(r)
  {
    if s != "" && Blank(s[|s| - 1]) {
      d, r := CutEnd(s[..|s| - 1]);
      r := r + [s[|s| - 1]];
    } else {
      d, r := s, "";
    }
  }

  /** split("\n") */
  function Lines(s: string): (l: seq<string>)
    ensures |l| >= 1
  {
    if s == "" then [""] else OneMore(s[0], Lines(s[1..]))
  }

  /** The payloads of a text, line by line. */
  function Data(s: string): seq<string> {
    FlatMap(Payload, Lines(s))
  }

  /** What a character before a text does to its lines. */
  function OneMore(c: char, l: seq<string>): seq<string>
    requires |l| >= 1
  {
    if c == '\n' then [""] + l else [[c] + l[0]] + l[1..]
  }

  lemma LinesStep(c: char, s: string)
    ensures Lines([c] + s) == OneMore(c, Lines(s))
  {
    assert ([c] + s)[1..] == s;
  }

  lemma OneMoreJoin(c: char, l: seq<string>, r: seq<string>)
    requires |l| >= 1
    ensures OneMore(c, l + r) == OneMore(c, l) + r
  {
    assert (l + r)[1..] == l[1..] + r;
  }

  lemma {:induction false} LinesJoin(a: string, b: string)
    ensures Lines(a + "\n" + b) == Lines(a) + Lines(b)
  {
    if a == "" {
      LinesStep('\n', b);
      assert a + "\n" + b == ['\n'] + b;
    } else {
      var rest := a[1..];
      LinesJoin(rest, b);
      LinesStep(a[0], rest + "\n" + b);
      LinesStep(a[0], rest);
      OneMoreJoin(a[0], Lines(rest), Lines(b));
      assert a + "\n" + b == [a[0]] + (rest + "\n" + b) && a == [a[0]] + rest;
    }
  }

  function Unlines(l: seq<string>): string
    requires |l| >= 1
  {
    if |l| == 1 then l[0] else l[0] + "\n" + Unlines(l[1..])
  }

  lemma UnlinesMore(c: char, l: seq<string>)
    requires |l| >= 1
    ensures Unlines(OneMore(c, l)) == [c] + Unlines(l)
  {
    var m := OneMore(c, l);
    if c == '\n' {
      assert m[1..] == l;
    } else if |l| > 1 {
      assert m[1..] == l[1..] && m[0] == [c] + l[0];
    }
  }

  /** The lines hold no line break, and put together again they are the text. */
  lemma {:induction false} LinesAre(s: string)
    ensures Unlines(Lines(s)) == s
    ensures forall i :: 0 <= i < |Lines(s)| ==> '\n' !in Lines(s)[i]
  {
    if s != "" {
      LinesAre(s[1..]);
      UnlinesMore(s[0], Lines(s[1..]));
      assert s == [s[0]] + s[1..];
    }
  }

  lemma DataJoin(a: string, b: string)
    ensures Data(a + "\n" + b) == Data(a) + Data(b)
  {
    LinesJoin(a, b);
    FlatMapJoin(Payload, Lines(a), Lines(b));
  }

  lemma DataEmpty()
    ensures Data("") == []
  {
    FlatMapOne(Payload, "");
  }

  // ---------------------------------------------------------------- the loop

  predicate BlankLineAt(s: string, i: int) {
    0 <= i < |s| - 1 && s[i] == '\n' && s[i + 1] == '\n'
  }

  /** indexOf("\n\n") from position i on, or -1 */
  function IndexFrom(s: string, i: nat): (r: int)
    requires i <= |s|
    ensures r == -1 || (i <= r && BlankLineAt(s, r))
    ensures forall j :: i <= j < (if r == -1 then |s| else r) ==> !BlankLineAt(s, j)
    decreases |s| - i
  {
    if BlankLineAt(s, i) then i else if i == |s| then -1 else IndexFrom(s, i + 1)
  }

  datatype Drained = Drained(events: seq<string>, rest: string)

  /** The inner loop: every event that the buffer holds, and what stays in the buffer. */
  function Drain(buffer: string): Drained
    decreases |buffer|
  {
    var sep := IndexFrom(buffer, 0);
    if sep == -1 then Drained([], buffer) else
    var later := Drain(buffer[sep + 2..]);
    Drained([buffer[..sep]] + later.events, later.rest)
  }

  function Concat(chunks: seq<string>): string {
    if chunks == [] then "" else Concat(chunks[..|chunks| - 1]) + chunks[|chunks| - 1]
  }

  /** The last place at which a blank line begins, or -1. */
  function LastBlankLine(s: string): (r: int)
    ensures r == -1 || BlankLineAt(s, r)
    ensures forall j :: r < j < |s| ==> !BlankLineAt(s, j)
  {
    if s == "" then -1 else if BlankLineAt(s, |s| - 2) then |s| - 2 else
    var r := LastBlankLine(s[..|s| - 1]);
    assert forall j :: 0 <= j < |s| - 1 ==> (BlankLineAt(s[..|s| - 1], j) <==> BlankLineAt(s, j) && j != |s| - 2);
    r
  }

  /** What a body yields: the payload of each line above its last blank line, in order; the rest is dropped. */
  function Published(body: string): seq<string> {
    var last := LastBlankLine(body);
    if last == -1 then [] else Data(body[..last])
  }

  // ---------------------------------------------------------------- chunks do not matter

  lemma SameIndex(x: string, y: string)
    ensures IndexFrom(x, 0) != -1 ==> IndexFrom(x + y, 0) == IndexFrom(x, 0)
  {
    var s, i := x + y, IndexFrom(x, 0);
    assert forall j :: 0 <= j < |x| - 1 ==> BlankLineAt(x, j) == BlankLineAt(s, j);
    assert i != -1 ==> BlankLineAt(s, i);
  }

  lemma DrainStep(s: string, sep: nat)
    requires IndexFrom(s, 0) == sep
    ensures Drain(s).events == [s[..sep]] + Drain(s[sep + 2..]).events && Drain(s).rest == Drain(s[sep + 2..]).rest
  {
  }

  lemma DrainLonger(x: string, y: string, sep: nat)
    requires IndexFrom(x, 0) == sep
    ensures Drain(x + y).events == [x[..sep]] + Drain(x[sep + 2..] + y).events
    ensures Drain(x + y).rest == Drain(x[sep + 2..] + y).rest
  {
    SameIndex(x, y);
    DrainStep(x + y, sep);
    assert (x + y)[sep + 2..] == x[sep + 2..] + y && (x + y)[..sep] == x[..sep];
  }

  /** Draining after each of two chunks is draining both at once. */
  lemma {:induction false} DrainTwice(x: string, y: string)
    ensures Drain(x + y).events == Drain(x).events + Drain(Drain(x).rest + y).events
    ensures Drain(x + y).rest == Drain(Drain(x).rest + y).rest
    decreases |x|
  {
    var sep := IndexFrom(x, 0);
    if sep != -1 {
      DrainLonger(x, y, sep);
      DrainStep(x, sep);
      DrainTwice(x[sep + 2..], y);
      Associative([x[..sep]], Drain(x[sep + 2..]).events, Drain(Drain(x).rest + y).events);
    } else {
      assert Drain(x).events + Drain(x + y).events == Drain(x + y).events;
    }
  }

  // ---------------------------------------------------------------- what is drained

  lemma {:induction false} DrainPublishes(s: string)
    ensures FlatMap(Data, Drain(s).events) == Published(s)
    decreases |s|
  {
    var sep := IndexFrom(s, 0);
    if sep != -1 {
      var tail := s[sep + 2..];
      DrainStep(s, sep);
      DrainPublishes(tail);
      FlatMapJoin(Data, [s[..sep]], Drain(tail).events);
      FlatMapOne(Data, s[..sep]);
      PublishedStep(s, sep);
    }
  }

  lemma PublishedStep(s: string, sep: nat)
    requires BlankLineAt(s, sep)
    ensures Published(s) == Data(s[..sep]) + Published(s[sep + 2..])
  {
    LastInTail(s, sep);
    DataBefore(s, sep, LastBlankLine(s[sep + 2..]), LastBlankLine(s));
  }

  lemma DataBefore(s: string, sep: nat, end: int, last: int)
    requires BlankLineAt(s, sep) && (end == -1 || 0 <= end <= |s| - sep - 2)
    requires if end == -1 then last == sep || last == sep + 1 else last == sep + 2 + end
    ensures Data(s[..last]) == Data(s[..sep]) + if end == -1 then [] else Data(s[sep + 2..][..end])
  {
    if end != -1 {
      DataUpTo(s, sep, end);
    } else if last == sep + 1 {
      assert s[..last] == s[..sep] + "\n" + "";
      DataOverEnd(s[..sep]);
    }
  }

  lemma DataUpTo(s: string, sep: nat, end: nat)
    requires BlankLineAt(s, sep) && end <= |s| - sep - 2
    ensures Data(s[..sep + 2 + end]) == Data(s[..sep]) + Data(s[sep + 2..][..end])
  {
    TwoBreaks(s, sep, end);
    DataOverBlank(s[..sep], s[sep + 2..][..end]);
  }

  lemma DataOverEnd(a: string)
    ensures Data(a + "\n" + "") == Data(a)
  {
    DataJoin(a, "");
    DataEmpty();
  }

  lemma TwoBreaks(s: string, sep: nat, end: nat)
    requires BlankLineAt(s, sep) && end <= |s| - sep - 2
    ensures s[..sep + 2 + end] == s[..sep] + "\n" + ("" + "\n" + s[sep + 2..][..end])
  {
  }

  lemma DataOverBlank(a: string, b: string)
    ensures Data(a + "\n" + ("" + "\n" + b)) == Data(a) + Data(b)
  {
    DataJoin(a, "" + "\n" + b);
    DataJoin("", b);
    DataEmpty();
  }

  lemma LastInTail(s: string, sep: nat)
    requires BlankLineAt(s, sep)
    ensures var end := LastBlankLine(s[sep + 2..]);
      if end == -1 then LastBlankLine(s) == sep || LastBlankLine(s) == sep + 1 else LastBlankLine(s) == sep + 2 + end
  {
    var tail, last := s[sep + 2..], LastBlankLine(s);
    assert forall j :: 0 <= j < |tail| ==> (BlankLineAt(tail, j) <==> BlankLineAt(s, sep + 2 + j));
    assert last >= sep;
    if last >= sep + 2 { assert BlankLineAt(tail, last - sep - 2); }
    if LastBlankLine(tail) != -1 { assert BlankLineAt(s, sep + 2 + LastBlankLine(tail)); }
  }

  // ---------------------------------------------------------------- the program

  method DataLines(rawEvent: string) returns (out: seq<string>)
    ensures out == Data(rawEvent)
  {
    out := [];
    var lines := Lines(rawEvent);
    for i := 0 to |lines|
      invariant out == FlatMap(Payload, lines[..i])
    {
      assert lines[..i + 1][..i] == lines[..i];
      var trimmed := Trim(lines[i]);
      if "data:" <= trimmed {
        var data := Trim(trimmed[5..]);
        if data != "" && data != "[DONE]" { out := out + [data]; }
      }
    }
    assert lines[..|lines|] == lines;
  }

  /** One turn of the reading loop: a chunk arrives and every complete event in the buffer is handled. */
  method ReadChunk(buffer: string) returns (out: seq<string>, rest: string)
    ensures out == FlatMap(Data, Drain(buffer).events) && rest == Drain(buffer).rest
  {
    out, rest := [], buffer;
    ghost var events: seq<string> := [];
    var sep := IndexFrom(rest, 0);
    while sep != -1
      invariant sep == IndexFrom(rest, 0) && out == FlatMap(Data, events)
      invariant Drain(buffer).events == events + Drain(rest).events && Drain(buffer).rest == Drain(rest).rest
      decreases |rest|
    {
      DrainStep(rest, sep);
      var payloads := DataLines(rest[..sep]);
      FlatMapJoin(Data, events, [rest[..sep]]);
      FlatMapOne(Data, rest[..sep]);
      Associative(events, [rest[..sep]], Drain(rest[sep + 2..]).events);
      events := events + [rest[..sep]];
      out := out + payloads;
      rest := rest[sep + 2..];
      sep := IndexFrom(rest, 0);
    }
    assert Drain(rest).events == [] && Drain(rest).rest == rest;
    assert Drain(buffer).events == events;
  }

  /** However the decoded body is cut into chunks, the payloads are those of the body. */
  method Stream(chunks: seq<string>) returns (out: seq<string>)
    ensures out == Published(Concat(chunks))
  {
    var buffer := "";
    out := [];
    for i := 0 to |chunks|
      invariant out == FlatMap(Data, Drain(Concat(chunks[..i])).events) && buffer == Drain(Concat(chunks[..i])).rest
    {
      assert chunks[..i + 1][..i] == chunks[..i];
      DrainTwice(Concat(chunks[..i]), chunks[i]);
      FlatMapJoin(Data, Drain(Concat(chunks[..i])).events, Drain(buffer + chunks[i]).events);
      var payloads, rest := ReadChunk(buffer + chunks[i]);
      out, buffer := out + payloads, rest;
    }
    assert chunks[..|chunks|] == chunks;
    DrainPublishes(Concat(chunks));
  }
}
