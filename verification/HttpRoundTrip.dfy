/** Header blocks as Request::serialize prints them and Response::parse reads them are inverse. */
module HttpRoundTrip {
  import opened Wrappers
  import opened Text
  import opened Http
  import opened Strings

  predicate OneLine(s: text) {
    CR !in s && LF !in s
  }

  predicate GoodKey(k: text) {
    OneLine(k) && COLON !in k && Tight(k)
  }

  predicate GoodValue(v: text) {
    OneLine(v) && Tight(v)
  }

  ghost predicate GoodEntries(headers: Headers) {
    forall k | k in headers :: GoodKey(k) && GoodValue(headers[k])
  }

  /** Names and values that survive: trimmed single lines, no colon in a name, names distinct without case. */
  ghost predicate GoodHeaders(headers: Headers) {
    && GoodEntries(headers)
    && (forall j, k | j in headers && k in headers && j != k :: !SameName(j, k))
  }

  // ---- One line ----

  /** A header line with any blanks around name and value, colons in the value included. */
  lemma AnyLine(a: text, k: text, b: text, c: text, v: text, d: text)
    requires Blank(a) && Blank(b) && Blank(c) && Blank(d) && COLON !in k && Tight(k) && Tight(v)
    ensures ParseLine(a + k + b + [COLON] + (c + v + d)) == Some((Lower(k), v))
  {
    var name, value := a + k + b, c + v + d;
    var line := name + [COLON] + value;
    FindSep(name, [COLON], value);
    assert line[..|name|] == name && line[|name| + 1..] == value;
    TrimMeaning(a, k, b);
    TrimMeaning(c, v, d);
  }

  lemma LineRoundTrip(k: text, v: text)
    requires GoodKey(k) && GoodValue(v)
    ensures ParseLine(HeaderLine(k, v)) == Some((Lower(k), v))
  {
    AnyLine([], k, [], [SPACE], v, []);
    assert HeaderLine(k, v) == [] + k + [] + [COLON] + ([SPACE] + v + []);
  }

  // ---- The lines of a header ----

  predicate GoodLines(lines: seq<text>) {
    && lines != []
    && (forall l | l in lines :: CR !in l)
    && (forall k | 0 < k < |lines| :: lines[k] != [])
  }

  const BLANK: text := END_LINE + END_LINE

  /** Searching the blank line from within a line. */
  lemma {:induction false} FindBlankStep(l: text, rest: text)
    requires CR !in l
    ensures Find(l + END_LINE + rest, BLANK) ==
            if StartsWith(rest, END_LINE) then Some(|l|)
            else match Find(rest, BLANK) case None => None case Some(j) => Some(|l| + 2 + j)
  {
    var s := l + END_LINE + rest;
    if l == [] {
      StartsBlank(rest);
      if !StartsWith(rest, END_LINE) {
        assert s[1..] == [LF] + rest;
        assert !StartsWith([LF] + rest, BLANK) by {
          if |rest| >= 3 { assert ([LF] + rest)[..4][0] == LF; }
        }
        assert ([LF] + rest)[1..] == rest;
      }
    } else {
      assert !StartsWith(s, BLANK) by {
        if |s| >= 4 { assert s[..4][0] == l[0]; }
      }
      assert s[1..] == l[1..] + END_LINE + rest;
      FindBlankStep(l[1..], rest);
    }
  }

  lemma StartsBlank(rest: text)
    ensures StartsWith([] + END_LINE + rest, BLANK) <==> StartsWith(rest, END_LINE)
  {
    var s := [] + END_LINE + rest;
    if |rest| >= 2 {
      assert s[..4] == END_LINE + rest[..2];
      assert s[..4][2..] == rest[..2] && BLANK[2..] == END_LINE;
    }
  }

  lemma {:induction false} FindBlank(lines: seq<text>, body: text)
    requires GoodLines(lines)
    ensures Find(JoinWith(lines, END_LINE) + BLANK + body, BLANK) == Some(|JoinWith(lines, END_LINE)|)
  {
    var l := lines[0];
    if |lines| == 1 {
      var rest := END_LINE + body;
      assert JoinWith(lines, END_LINE) + BLANK + body == l + END_LINE + rest;
      assert rest[..2] == END_LINE;
      FindBlankStep(l, rest);
    } else {
      var rest := JoinWith(lines[1..], END_LINE) + BLANK + body;
      assert JoinWith(lines, END_LINE) + BLANK + body == l + END_LINE + rest;
      assert rest[0] == lines[1][0] && lines[1][0] in lines[1];
      assert !StartsWith(rest, END_LINE) by { assert rest[..2][0] == rest[0]; }
      FindBlankStep(l, rest);
      FindBlank(lines[1..], body);
    }
  }

  // ---- The header block ----

  function HeaderLines(order: seq<text>, headers: Headers): (r: seq<text>)
    requires forall k | k in order :: k in headers
    ensures |r| == |order|
  {
    seq(|order|, i requires 0 <= i < |order| => HeaderLine(order[i], headers[order[i]]))
  }

  /** A first line and a header block are joined lines up to the blank line. */
  lemma {:induction false} BlockIsJoin(first: text, order: seq<text>, headers: Headers)
    requires forall k | k in order :: k in headers
    ensures first + END_LINE + HeaderBlock(order, headers) ==
            JoinWith([first] + HeaderLines(order, headers), END_LINE) + END_LINE
    decreases |order|
  {
    var lines := HeaderLines(order, headers);
    if order == [] {
      assert [first] + lines == [first];
    } else {
      var rest := order[1..];
      assert lines == [HeaderLine(order[0], headers[order[0]])] + HeaderLines(rest, headers);
      assert ([first] + lines)[1..] == lines;
      BlockIsJoin(lines[0], rest, headers);
      assert HeaderBlock(order, headers) == lines[0] + END_LINE + HeaderBlock(rest, headers);
    }
  }

  lemma HeaderLineGood(k: text, v: text)
    requires GoodKey(k) && GoodValue(v)
    ensures CR !in HeaderLine(k, v) && HeaderLine(k, v) != []
  {
  }

  lemma LinesGood(first: text, order: seq<text>, headers: Headers)
    requires OneLine(first) && GoodHeaders(headers) && forall k | k in order :: k in headers
    ensures GoodLines([first] + HeaderLines(order, headers))
  {
    var lines := [first] + HeaderLines(order, headers);
    forall k | 0 < k < |lines| ensures CR !in lines[k] && lines[k] != [] {
      assert order[k - 1] in order;
      HeaderLineGood(order[k - 1], headers[order[k - 1]]);
    }
  }

  /** m is what the headers named in `order` make of base. */
  ghost predicate ReadAs(m: Headers, base: Headers, order: seq<text>, headers: Headers)
    requires forall k | k in order :: k in headers
  {
    && (forall k | k in order :: Lower(k) in m && m[Lower(k)] == headers[k])
    && (forall x | x in m :: x in base || exists k :: k in order && Lower(k) == x)
    && (forall x | x in base :: x in m && ((forall k | k in order :: Lower(k) != x) ==> m[x] == base[x]))
  }

  ghost predicate DistinctLower(headers: Headers) {
    forall j, k | j in headers && k in headers && j != k :: Lower(j) != Lower(k)
  }

  lemma GoodIsDistinct(headers: Headers)
    requires GoodHeaders(headers)
    ensures DistinctLower(headers)
  {
    forall j, k | j in headers && k in headers && j != k ensures Lower(j) != Lower(k) {
      LowerIff(j, k);
    }
  }

  lemma ReadAsCons(m: Headers, base: Headers, order: seq<text>, headers: Headers)
    requires DistinctLower(headers) && forall k | k in order :: k in headers
    requires order != [] && order[0] !in order[1..]
    requires ReadAs(m, base[Lower(order[0]) := headers[order[0]]], order[1..], headers)
    ensures ReadAs(m, base, order, headers)
  {
    var k, rest := order[0], order[1..];
    assert forall x :: x in order <==> x == k || x in rest;
    assert forall x | x in rest :: Lower(x) != Lower(k);
  }

  lemma {:induction false} ParseHeaderLines(order: seq<text>, headers: Headers, base: Headers) returns (m: Headers)
    requires GoodEntries(headers) && DistinctLower(headers) && forall k | k in order :: k in headers
    requires forall i, j | 0 <= i < j < |order| :: order[i] != order[j]
    ensures ParseHeaders(HeaderLines(order, headers), base) == Some(m)
    ensures ReadAs(m, base, order, headers)
    decreases |order|
  {
    if order == [] {
      m := base;
    } else {
      var k, rest := order[0], order[1..];
      LineRoundTrip(k, headers[k]);
      assert HeaderLines(order, headers)[1..] == HeaderLines(rest, headers);
      m := ParseHeaderLines(rest, headers, base[Lower(k) := headers[k]]);
      ReadAsCons(m, base, order, headers);
    }
  }

  /** A status line of at least three words, the second of which is a 16-bit number. */
  predicate StatusLine(line: text, code: nat) {
    OneLine(line) && |Words(line)| >= 3 && Code(line) == Some(code)
  }

  /** Looking up any name in the response gives the value of the header of that name, whatever the case. */
  ghost predicate SameHeaders(r: Response, headers: Headers) {
    && (forall name: text, k | k in headers && SameName(name, k) :: r.Header(name) == Some(headers[k]))
    && (forall name: text :: (forall k | k in headers :: !SameName(name, k)) ==> r.Header(name) == None)
  }

  lemma LookupSame(m: Headers, order: seq<text>, headers: Headers, r: Response)
    requires IterationOrder(order, headers) && ReadAs(m, map[], order, headers) && r.headers == NonEmptyMap(m)
    ensures SameHeaders(r, headers)
  {
    forall name: text, k | k in headers && SameName(name, k) ensures r.Header(name) == Some(headers[k]) {
      LowerIff(name, k);
      assert k in order && Lower(k) in m;
      assert |m| > 0;
    }
    forall name: text | forall k | k in headers :: !SameName(name, k) ensures r.Header(name) == None {
      forall k | k in order ensures Lower(k) != Lower(name) {
        LowerIff(name, k);
      }
    }
  }

  /** The bytes of a response: status line, header block in some order, blank line, body. */
  function Printed(line: text, order: seq<text>, headers: Headers, body: text): text
    requires forall k | k in order :: k in headers
  {
    line + END_LINE + HeaderBlock(order, headers) + END_LINE + body
  }

  /** The parser finds the lines that were printed, and the body. */
  lemma PrintedLines(line: text, headers: Headers, order: seq<text>, body: text)
    requires OneLine(line) && GoodHeaders(headers) && IterationOrder(order, headers)
    ensures var s := Printed(line, order, headers, body);
            && Find(s, BLANK).Some?
            && var end := Find(s, BLANK).value;
               Split(s[..end], END_LINE) == [line] + HeaderLines(order, headers) && s[end + 4..] == body
  {
    var lines := [line] + HeaderLines(order, headers);
    LinesGood(line, order, headers);
    BlockIsJoin(line, order, headers);
    var s, end := JoinWith(lines, END_LINE) + BLANK + body, |JoinWith(lines, END_LINE)|;
    assert Printed(line, order, headers, body) == s;
    FindBlank(lines, body);
    assert s[..end] == JoinWith(lines, END_LINE) && s[end + 4..] == body;
    SplitJoined(lines, END_LINE);
  }

  /**
   * Whatever order the map of headers was printed in, the parser reads a response made of a status
   * line, that block and a body as this code, these headers and this body.
   */
  lemma HeaderRoundTrip(line: text, code: nat, headers: Headers, order: seq<text>, body: text)
    requires StatusLine(line, code) && GoodHeaders(headers) && IterationOrder(order, headers)
    ensures var p := ParseText(Printed(line, order, headers, body));
            && p.Parsed? && p.response.statusCode == code
            && p.response.version == Trim(Words(line)[0]) && p.response.statusText == Trim(Words(line)[2])
            && p.response.body == NonEmptyText(body)
            && SameHeaders(p.response, headers)
  {
    PrintedLines(line, headers, order, body);
    assert ([line] + HeaderLines(order, headers))[1..] == HeaderLines(order, headers);
    GoodIsDistinct(headers);
    var m := ParseHeaderLines(order, headers, map[]);
    LookupSame(m, order, headers, ParseText(Printed(line, order, headers, body)).response);
  }

  /**
   * Any status line before a good header block: the parser panics if and only if the line has one
   * word, or two of which the second is a number, and it waits if and only if there is a second word
   * and it is not a number.
   */
  lemma StatusLineDecides(line: text, headers: Headers, order: seq<text>, body: text)
    requires OneLine(line) && GoodHeaders(headers) && IterationOrder(order, headers)
    ensures var p := ParseText(Printed(line, order, headers, body));
            && (p.Panics? <==> CutShort(line))
            && (p.ParseError? <==> |Words(line)| >= 2 && Code(line).None?)
  {
    PrintedLines(line, headers, order, body);
    assert ([line] + HeaderLines(order, headers))[0] == line;
    if |Words(line)| >= 3 && Code(line).Some? {
      HeaderRoundTrip(line, Code(line).value, headers, order, body);
    }
  }

  // ---- Any header lines ----

  lemma ColonIff(line: text)
    ensures ParseLine(line).None? <==> COLON !in line
  {
    FindMeaning(line, [COLON]);
    forall j: nat | j < |line| ensures At(line, [COLON], j) <==> line[j] == COLON {
      assert line[j..j + 1] == [line[j]];
    }
  }

  /** The last line of a name decides. */
  lemma {:induction false} LastLineWins(lines: seq<text>, line: text, m: Headers)
    ensures ParseHeaders(lines + [line], m) ==
            match ParseHeaders(lines, m)
            case None => None
            case Some(h) =>
              (match ParseLine(line)
               case None => None
               case Some((k, v)) => Some(h[k := v]))
    decreases |lines|
  {
    if lines == [] {
      assert lines + [line] == [line] && [line][1..] == [];
    } else {
      assert (lines + [line])[0] == lines[0] && (lines + [line])[1..] == lines[1..] + [line];
      if ParseLine(lines[0]).Some? {
        var (k, v) := ParseLine(lines[0]).value;
        LastLineWins(lines[1..], line, m[k := v]);
      }
    }
  }

  /** The lines are refused exactly when one of them has no colon. */
  lemma {:induction false} HeadersRefusedIff(lines: seq<text>, m: Headers)
    ensures ParseHeaders(lines, m).None? <==> exists k :: 0 <= k < |lines| && COLON !in lines[k]
    decreases |lines|
  {
    if lines != [] {
      ColonIff(lines[0]);
      if ParseLine(lines[0]).Some? {
        var (k, v) := ParseLine(lines[0]).value;
        HeadersRefusedIff(lines[1..], m[k := v]);
        assert forall x | 1 <= x < |lines| :: lines[x] == lines[1..][x - 1];
        assert forall x | 0 <= x < |lines| - 1 :: lines[1..][x] == lines[x + 1];
      }
    }
  }

  /** On any text at all: the client waits while the blank line is missing, or the code or a header line is bad. */
  lemma ParseErrorIff(s: text)
    ensures ParseText(s).ParseError? <==>
            || Find(s, BLANK).None?
            || (var lines := Split(s[..Find(s, BLANK).value], END_LINE);
                && |Words(lines[0])| >= 2
                && (|| Code(lines[0]).None?
                    || (|Words(lines[0])| >= 3 && exists k :: 1 <= k < |lines| && COLON !in lines[k])))
  {
    if Find(s, BLANK).Some? {
      var lines := Split(s[..Find(s, BLANK).value], END_LINE);
      HeadersRefusedIff(lines[1..], map[]);
      assert forall x | 1 <= x < |lines| :: lines[x] == lines[1..][x - 1];
      assert forall x | 0 <= x < |lines| - 1 :: lines[1..][x] == lines[x + 1];
    }
  }

  // ---- When the parser panics ----

  /** The text up to the first line end. */
  function FirstLine(s: text): text {
    match Find(s, END_LINE)
    case None => s
    case Some(k) => s[..k]
  }

  lemma {:induction false} FirstLineOfHead(s: text)
    requires Find(s, BLANK).Some?
    ensures Split(s[..Find(s, BLANK).value], END_LINE)[0] == FirstLine(s)
  {
    var end := Find(s, BLANK).value;
    var head := s[..end];
    if StartsWith(s, BLANK) {
      assert s[..4][..2] == END_LINE && head == [];
    } else if StartsWith(s, END_LINE) {
      EndLineFits(s);
      assert head[..2] == s[..2];
    } else {
      FirstLineOfHead(s[1..]);
      assert head[1..] == s[1..][..end - 1];
      assert !StartsWith(head, END_LINE) by {
        if |head| >= 2 { assert head[..2] == s[..2]; }
      }
    }
  }

  /** A line end at the head of the text does not overlap the blank line. */
  lemma EndLineFits(s: text)
    requires Find(s, BLANK).Some? && StartsWith(s, END_LINE) && !StartsWith(s, BLANK)
    ensures Find(s, BLANK).value >= 2
  {
    assert s[..2][1] == LF;
    assert s[1..][0] == LF;
    if |s| >= 5 {
      assert s[1..][..4][0] == LF;
    }
  }

  /** On any text at all: the header is complete and the status line is cut short. */
  lemma ParsePanicsIff(s: text)
    ensures ParseText(s).Panics? <==> Find(s, BLANK).Some? && CutShort(FirstLine(s))
  {
    if Find(s, BLANK).Some? {
      FirstLineOfHead(s);
    }
  }

  lemma TwoWords(a: text, b: text)
    requires SPACE !in a && SPACE !in b
    ensures Words(a + [SPACE] + b) == [a, b]
  {
    assert [a, b][1..] == [b] && JoinWith([a, b], [SPACE]) == a + [SPACE] + b;
    SplitJoined([a, b], [SPACE]);
  }

  /** A server that leaves the reason out, and the blank before it, makes the client panic. */
  lemma NoReasonPanics(body: text)
    ensures ParseText(Literal("HTTP/1.1 101") + END_LINE + END_LINE + body).Panics?
  {
    var version, code := Literal("HTTP/1.1"), Literal("101");
    var line := version + [SPACE] + code;
    assert line == Literal("HTTP/1.1 101");
    TwoWords(version, code);
    assert code == [49, 48, 49];
    assert code[1..] == [48, 49] && code[1..][1..] == [49] && code[1..][1..][1..] == [];
    assert ParseU16(code) == Some(101);
    StatusLineDecides(line, map[], [], body);
    assert Printed(line, [], map[], body) == line + END_LINE + END_LINE + body;
  }
}
