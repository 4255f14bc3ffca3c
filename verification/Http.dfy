/** The handshake messages: websocket/src/http/request.rs and response.rs. */
module Http {
  import opened Bytes
  import opened Wrappers
  import opened Text
  import Utf8

  type Headers = map<text, text>

  // ---- request.rs ----

  datatype Request = Request(verb: text, path: text, version: text, headers: Headers)

  /** `method_to_string` of the only method. */
  const GET: text := [71, 69, 84]

  function RequestLine(r: Request): text {
    r.verb + [SPACE] + r.path + [SPACE] + r.version + END_LINE
  }

  function HeaderLine(key: text, value: text): text {
    key + [COLON, SPACE] + value
  }

  /** The header lines in a given order of the keys. */
  function HeaderBlock(order: seq<text>, headers: Headers): text
    requires forall k | k in order :: k in headers
  {
    if order == [] then []
    else HeaderLine(order[0], headers[order[0]]) + END_LINE + HeaderBlock(order[1..], headers)
  }

  /** An order in which the iteration of a map may visit its keys. */
  ghost predicate IterationOrder(order: seq<text>, headers: Headers) {
    && (forall k :: k in headers <==> k in order)
    && (forall i, j | 0 <= i < j < |order| :: order[i] != order[j])
  }

  /** The order in which the program visits each map, fixed by the hasher of that map. */
  type HashOrder = f: Headers -> seq<text> | forall h :: IterationOrder(f(h), h) ghost witness SomeOrder

  ghost function SomeOrder(h: Headers): (order: seq<text>)
    ensures IterationOrder(order, h)
    decreases |h|
  {
    if h == map[] then []
    else
      var k :| k in h;
      [k] + SomeOrder(h - {k})
  }

  /** The bytes of a request whose headers are visited in this order. */
  function RequestBytes(r: Request, order: seq<text>): text
    requires forall k | k in order :: k in r.headers
  {
    RequestLine(r) + HeaderBlock(order, r.headers) + END_LINE
  }

  lemma {:induction false} HeaderBlockSnoc(order: seq<text>, k: text, headers: Headers)
    requires k in headers && forall x | x in order :: x in headers
    ensures HeaderBlock(order + [k], headers) ==
            HeaderBlock(order, headers) + HeaderLine(k, headers[k]) + END_LINE
  {
    if order == [] {
      assert order + [k] == [k];
      assert HeaderBlock([k][1..], headers) == [];
    } else {
      assert (order + [k])[0] == order[0] && (order + [k])[1..] == order[1..] + [k];
      HeaderBlockSnoc(order[1..], k, headers);
    }
  }

  /** `Request::serialize`. */
  method SerializeRequest(r: Request, order: HashOrder) returns (data: text)
    ensures data == RequestBytes(r, order(r.headers))
  {
    data := r.verb;
    data := data + [SPACE];
    data := data + r.path;
    data := data + [SPACE];
    data := data + r.version;
    data := data + END_LINE;

    var keys := order(r.headers);
    for n := 0 to |keys|
      invariant data == RequestLine(r) + HeaderBlock(keys[..n], r.headers)
    {
      var key := keys[n];
      assert keys[..n + 1] == keys[..n] + [key];
      HeaderBlockSnoc(keys[..n], key, r.headers);
      ghost var before := data;
      data := data + key;
      data := data + [COLON, SPACE];
      data := data + r.headers[key];
      data := data + END_LINE;
      assert data == before + (HeaderLine(key, r.headers[key]) + END_LINE);
    }
    assert keys[..|keys|] == keys;
    data := data + END_LINE;
  }

  // ---- response.rs ----

  datatype Response = Response(version: text, statusCode: nat, statusText: text,
                               headers: Option<Headers>, body: Option<text>)
  {
    /** `header`: the lookup ignores the case of the name. */
    function Header(key: text): Option<text> {
      if headers.Some? && Lower(key) in headers.value then Some(headers.value[Lower(key)]) else None
    }
  }

  datatype ParseResult = Parsed(response: Response) | ParseError | Panics

  /** One header line: the name before the first colon, lower-cased, and the value after it. */
  function ParseLine(line: text): Option<(text, text)> {
    match Find(line, [COLON])
    case None => None
    case Some(i) => Some((Lower(Trim(line[..i])), Trim(line[i + 1..])))
  }

  /** The header lines read into a map; None if a line has no colon. */
  function ParseHeaders(lines: seq<text>, headers: Headers): Option<Headers>
    decreases |lines|
  {
    if lines == [] then Some(headers)
    else
      match ParseLine(lines[0])
      case None => None
      case Some((k, v)) => ParseHeaders(lines[1..], headers[k := v])
  }

  /** The words of a status line: version, code and the words of the reason. */
  function Words(line: text): (r: seq<text>)
    ensures |r| >= 1
  {
    Split(line, [SPACE])
  }

  /** The second word of a status line of at least two words, if it is a 16-bit number. */
  function Code(line: text): Option<nat> {
    if |Words(line)| < 2 then None else ParseU16(Trim(Words(line)[1]))
  }

  /** A status line of one word, or of two words the second of which is a number. */
  predicate CutShort(line: text) {
    |Words(line)| == 1 || (|Words(line)| == 2 && Code(line).Some?)
  }

  /** What `Response::parse` makes of a text: it panics on a status line of fewer than three words. */
  function ParseText(s: text): ParseResult {
    match Find(s, END_LINE + END_LINE)
    case None => ParseError
    case Some(end) =>
      var lines := Split(s[..end], END_LINE);
      var info := Split(lines[0], [SPACE]);
      if |info| < 2 then Panics
      else
        match ParseU16(Trim(info[1]))
        case None => ParseError
        case Some(code) =>
          if |info| < 3 then Panics
          else
            match ParseHeaders(lines[1..], map[])
            case None => ParseError
            case Some(headers) =>
              Parsed(Response(Trim(info[0]), code, Trim(info[2]), NonEmptyMap(headers), NonEmptyText(s[end + 4..])))
  }

  function NonEmptyMap(m: Headers): Option<Headers> {
    if |m| == 0 then None else Some(m)
  }

  function NonEmptyText(s: text): Option<text> {
    if |s| == 0 then None else Some(s)
  }

  function ParseResponse(bytes: seq<byte>): ParseResult {
    ParseText(Utf8.Lossy(bytes))
  }

  /** `Response::parse`, statement by statement. */
  method ResponseParse(input: seq<byte>) returns (r: ParseResult)
    ensures r == ParseResponse(input)
  {
    var bytes := Utf8.Lossy(input);
    var endHeader := Find(bytes, END_LINE + END_LINE);
    if endHeader.None? { return ParseError; }
    var header := bytes[..endHeader.value];
    var body := bytes[endHeader.value + |END_LINE| * 2..];

    var headerLines := Split(header, END_LINE);
    var responseInfo := Split(headerLines[0], [SPACE]);
    var version := Trim(responseInfo[0]);
    if |responseInfo| < 2 { return Panics; }
    var statusCode := ParseU16(Trim(responseInfo[1]));
    if statusCode.None? { return ParseError; }
    if |responseInfo| < 3 { return Panics; }
    var statusText := Trim(responseInfo[2]);

    var headers: Headers := map[];
    headerLines := headerLines[1..];
    for n := 0 to |headerLines|
      invariant ParseHeaders(headerLines, map[]) == ParseHeaders(headerLines[n..], headers)
    {
      var line := headerLines[n];
      var index := Find(line, [COLON]);
      if index.None? { return ParseError; }
      var key, value := line[..index.value], line[index.value..];
      assert value[1..] == line[index.value + 1..];
      key := Trim(key);
      value := Trim(value[1..]);
      headers := headers[Lower(key) := value];
      assert headerLines[n..][1..] == headerLines[n + 1..];
    }
    var b := if |body| == 0 then None else Some(body);
    var h := if |headers| == 0 then None else Some(headers);
    r := Parsed(Response(version, statusCode.value, statusText, h, b));
  }
}
