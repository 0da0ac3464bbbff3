/** FastCGI requests: what the two clients emit, and a reader written from the FastCGI 1.0
    specification that gets it back. */
module FastCgi {
  import opened Wrappers
  import opened Arith

  type Bytes = seq<byte>

  datatype Pair = Pair(name: Bytes, value: Bytes)

  const FCGI_VERSION_1: byte := 1
  const FCGI_BEGIN_REQUEST: byte := 1
  const FCGI_PARAMS: byte := 4
  const FCGI_STDIN: byte := 5
  const FCGI_RESPONDER: byte := 1
  const FCGI_KEEP_CONN: byte := 1
  const FCGI_NV_LLEN := 0x8000_0000

  // ----- the reader: sections 3.3, 3.4 and 5.1 of the FastCGI 1.0 specification -----

  datatype Record = Record(version: byte, typ: byte, requestId: nat, content: Bytes)

  function U16(hi: byte, lo: byte): (n: nat)
    ensures n < 65536
  {
    (hi as int) * 256 + (lo as int)
  }

  /** A stream of records: an 8-byte header, the content, the padding. */
  function ReadRecords(b: Bytes): Option<seq<Record>>
    decreases |b|
  {
    if b == [] then Some([])
    else if |b| < 8 then None
    else
      var len := U16(b[4], b[5]);
      var end := 8 + len + (b[6] as int);
      if |b| < end then None
      else match ReadRecords(b[end..])
        case None => None
        case Some(rest) => Some([Record(b[0], b[1], U16(b[2], b[3]), b[8..8 + len])] + rest)
  }

  datatype Length = Length(n: nat, rest: Bytes)

  /** A length: one byte, or four with the top bit set. */
  function ReadLength(b: Bytes): (r: Option<Length>)
    ensures r.Some? ==> |r.value.rest| < |b|
  {
    if b == [] then None
    else if b[0] < 128 then Some(Length(b[0], b[1..]))
    else if |b| < 4 then None
    else Some(Length(U16(b[0], b[1]) % 0x8000 * 65536 + U16(b[2], b[3]), b[4..]))
  }

  /** Name-value pairs: both lengths, then name and value. */
  function ReadPairs(b: Bytes): Option<seq<Pair>>
    decreases |b|
  {
    if b == [] then Some([])
    else match ReadLength(b)
      case None => None
      case Some(x) =>
        match ReadLength(x.rest)
        case None => None
        case Some(y) =>
          if |y.rest| < x.n + y.n then None
          else match ReadPairs(y.rest[x.n + y.n..])
            case None => None
            case Some(more) => Some([Pair(y.rest[..x.n], y.rest[x.n..x.n + y.n])] + more)
  }

  // ----- what is emitted -----

  /** Sixteen bits, most significant byte first. */
  function Word16(n: nat): (b: Bytes)
    ensures |b| == 2 && U16(b[0], b[1]) == n % 65536
  {
    DivDiv(n, 256, 256);
    [n / 256 % 256, n % 256]
  }

  /** A length in the form that the reader takes for it. */
  function LengthBytes(n: nat): (b: Bytes)
    requires n < FCGI_NV_LLEN
    ensures n < 128 ==> b == [n]
    ensures n >= 128 ==> |b| == 4 && b[0] >= 128 && U16(b[0], b[1]) % 0x8000 * 65536 + U16(b[2], b[3]) == n
  {
    if n < 128 then [n]
    else
      LongLength(n);
      Word16(n / 65536 + 0x8000) + Word16(n % 65536)
  }

  predicate Encodable(p: Pair) {
    |p.name| < FCGI_NV_LLEN && |p.value| < FCGI_NV_LLEN
  }

  function PairBytes(p: Pair): Bytes
    requires Encodable(p)
  {
    LengthBytes(|p.name|) + LengthBytes(|p.value|) + p.name + p.value
  }

  predicate AllEncodable(ps: seq<Pair>) {
    ps == [] || (Encodable(ps[0]) && AllEncodable(ps[1..]))
  }

  function PairsBytes(ps: seq<Pair>): Bytes
    requires AllEncodable(ps)
  {
    if ps == [] then [] else PairBytes(ps[0]) + PairsBytes(ps[1..])
  }

  /** A header; lengths and request ids keep their low 16 bits. */
  function Header(typ: byte, len: nat, requestId: nat): Bytes {
    [FCGI_VERSION_1, typ] + Word16(requestId) + Word16(len) + [0, 0]
  }

  function BeginBody(keep: bool): Bytes {
    [0, FCGI_RESPONDER, if keep then FCGI_KEEP_CONN else 0, 0, 0, 0, 0, 0]
  }

  /** The whole request: begin, the parameters in one record, their end, and an empty input. */
  function Request(params: Bytes, requestId: nat, keep: bool): Bytes {
    Header(FCGI_BEGIN_REQUEST, 8, requestId) + BeginBody(keep)
    + Header(FCGI_PARAMS, |params|, requestId) + params
    + Header(FCGI_PARAMS, 0, requestId)
    + Header(FCGI_STDIN, 0, requestId)
  }

  // ----- pairs survive -----

  lemma LengthRoundTrip(n: nat, rest: Bytes)
    requires n < FCGI_NV_LLEN
    ensures ReadLength(LengthBytes(n) + rest) == Some(Length(n, rest))
  {
    hide LengthBytes, U16;
    var b := LengthBytes(n) + rest;
    assert if n < 128 then b[1..] == rest else b[..4] == LengthBytes(n) && b[4..] == rest;
  }

  /** The top bit marks a four-byte length and does not count. */
  lemma LongLength(n: nat)
    requires 128 <= n < FCGI_NV_LLEN
    ensures (n / 65536 + 0x8000) % 65536 % 0x8000 * 65536 + n % 65536 % 65536 == n
    ensures Word16(n / 65536 + 0x8000)[0] >= 128
  {
    var q, r := n / 65536, n % 65536;
    DivModBack(n, 65536);
    DivBelow(n, 0x8000, 65536);
    SmallMod(q + 0x8000, 65536);
    DivMod(1, 0x8000, q);
    SmallMod(r, 65536);
    TopByte(Word16(q + 0x8000)[0], Word16(q + 0x8000)[1]);
  }

  lemma TopByte(hi: byte, lo: byte)
    ensures U16(hi, lo) >= 0x8000 ==> hi >= 128
  {}

  /** Reading what was written for a list of pairs gives the list back. */
  lemma {:induction false} PairsRoundTrip(ps: seq<Pair>)
    requires AllEncodable(ps)
    ensures ReadPairs(PairsBytes(ps)) == Some(ps)
  {
    if ps != [] {
      hide PairBytes, ReadPairs;
      PairsRoundTrip(ps[1..]);
      FirstPair(ps[0], PairsBytes(ps[1..]));
      assert ps == [ps[0]] + ps[1..];
    }
  }

  lemma FirstPair(p: Pair, more: Bytes)
    requires Encodable(p)
    ensures ReadPairs(PairBytes(p) + more) ==
            match ReadPairs(more) case None => None case Some(ps) => Some([p] + ps)
  {
    hide ReadLength, LengthBytes;
    var b := PairBytes(p) + more;
    var body := p.name + p.value + more;
    assert b == LengthBytes(|p.name|) + (LengthBytes(|p.value|) + body);
    LengthRoundTrip(|p.name|, LengthBytes(|p.value|) + body);
    LengthRoundTrip(|p.value|, body);
    assert b != [] by { LengthNotEmpty(|p.name|); }
    assert body[..|p.name|] == p.name && body[|p.name|..|p.name| + |p.value|] == p.value;
    assert body[|p.name| + |p.value|..] == more;
  }

  lemma LengthNotEmpty(n: nat)
    requires n < FCGI_NV_LLEN
    ensures LengthBytes(n) != []
  {}

  // ----- records survive -----

  function HeaderRecord(typ: byte, requestId: nat, content: Bytes): Record {
    Record(FCGI_VERSION_1, typ, requestId % 65536, content)
  }

  /** A header announces the length of what follows modulo 65536. */
  lemma RecordStep(typ: byte, len: nat, requestId: nat, content: Bytes, rest: Bytes)
    requires |content| == len % 65536
    ensures ReadRecords(Header(typ, len, requestId) + (content + rest)) ==
            match ReadRecords(rest)
            case None => None
            case Some(rs) => Some([HeaderRecord(typ, requestId, content)] + rs)
  {
    hide U16, Header;
    var b, n := Header(typ, len, requestId) + (content + rest), |content|;
    HeaderFields(typ, len, requestId, content + rest);
    assert b[8..8 + n] == b[8..][..n] == content;
    assert b[8 + n..] == b[8..][n..] == rest;
  }

  lemma HeaderFields(typ: byte, len: nat, requestId: nat, rest: Bytes)
    ensures var b := Header(typ, len, requestId) + rest;
            && |b| == 8 + |rest| && b[8..] == rest && b[0] == FCGI_VERSION_1 && b[1] == typ
            && U16(b[2], b[3]) == requestId % 65536 && U16(b[4], b[5]) == len % 65536 && b[6] == 0
  {
    hide U16, Word16;
  }

  lemma NoRecords()
    ensures ReadRecords([]) == Some([])
  {}

  /** The four records a server must see. */
  function Expected(params: Bytes, requestId: nat, keep: bool): seq<Record> {
    [HeaderRecord(FCGI_BEGIN_REQUEST, requestId, BeginBody(keep))]
    + ([HeaderRecord(FCGI_PARAMS, requestId, params)] + TailRecords(requestId))
  }

  function TailRecords(requestId: nat): seq<Record> {
    [HeaderRecord(FCGI_PARAMS, requestId, [])] + [HeaderRecord(FCGI_STDIN, requestId, [])]
  }

  lemma ReadTail(requestId: nat)
    ensures ReadRecords(Header(FCGI_PARAMS, 0, requestId) + Header(FCGI_STDIN, 0, requestId)) ==
            Some(TailRecords(requestId))
  {
    hide ReadRecords, Header;
    var last := Header(FCGI_STDIN, 0, requestId);
    NoRecords();
    RecordStep(FCGI_STDIN, 0, requestId, [], []);
    assert last + ([] + []) == last;
    RecordStep(FCGI_PARAMS, 0, requestId, [], last);
    assert [] + last == last;
    assert [HeaderRecord(FCGI_STDIN, requestId, [])] + [] == [HeaderRecord(FCGI_STDIN, requestId, [])];
  }

  /** The stream parses as begin, parameters, end of parameters and end of input exactly when
      the parameters fit one record. */
  lemma RequestRoundTrip(params: Bytes, requestId: nat, keep: bool)
    ensures ReadRecords(Request(params, requestId, keep)) == Some(Expected(params, requestId, keep)) <==>
            |params| < 65536
  {
    hide ReadRecords, Header, HeaderRecord, TailRecords;
    var tail := Header(FCGI_PARAMS, 0, requestId) + Header(FCGI_STDIN, 0, requestId);
    var n := |params| % 65536;
    var second := Header(FCGI_PARAMS, |params|, requestId) + (params[..n] + (params[n..] + tail));
    assert Request(params, requestId, keep) ==
        Header(FCGI_BEGIN_REQUEST, 8, requestId) + (BeginBody(keep) + second) by {
      assert params == params[..n] + params[n..];
    }
    RecordStep(FCGI_BEGIN_REQUEST, 8, requestId, BeginBody(keep), second);
    RecordStep(FCGI_PARAMS, |params|, requestId, params[..n], params[n..] + tail);
    if |params| < 65536 {
      SmallMod(|params|, 65536);
      assert params[..n] == params && params[n..] + tail == tail;
      ReadTail(requestId);
    } else {
      SecondContent(params, requestId, keep, params[..n]);
    }
  }

  /** A shorter second record is not the expected one. */
  lemma SecondContent(params: Bytes, requestId: nat, keep: bool, content: Bytes)
    requires |content| < |params|
    ensures forall rs: seq<Record> {:trigger [HeaderRecord(FCGI_PARAMS, requestId, content)] + rs} ::
              [HeaderRecord(FCGI_BEGIN_REQUEST, requestId, BeginBody(keep))]
                  + ([HeaderRecord(FCGI_PARAMS, requestId, content)] + rs)
              != Expected(params, requestId, keep)
  {
    forall rs: seq<Record> {:trigger [HeaderRecord(FCGI_PARAMS, requestId, content)] + rs}
      ensures [HeaderRecord(FCGI_BEGIN_REQUEST, requestId, BeginBody(keep))]
              + ([HeaderRecord(FCGI_PARAMS, requestId, content)] + rs)
              != Expected(params, requestId, keep)
    {
      var x := [HeaderRecord(FCGI_BEGIN_REQUEST, requestId, BeginBody(keep))]
          + ([HeaderRecord(FCGI_PARAMS, requestId, content)] + rs);
      assert x[1].content == content && Expected(params, requestId, keep)[1].content == params;
    }
  }

  // ----- the two clients' parameters -----

  function ToBytes(s: string): (b: Bytes)
    ensures |b| == |s|
  {
    if s == "" then [] else [s[0] as int % 256] + ToBytes(s[1..])
  }

  const SLASH: Bytes := ToBytes("/")
  const QUESTION: Bytes := ToBytes("?")

  function Fixed(): seq<Pair> {
    [Pair(ToBytes("GATEWAY_INTERFACE"), ToBytes("FastCGI/1.0")), Pair(ToBytes("REQUEST_METHOD"), ToBytes("GET")),
     Pair(ToBytes("NO_HEADERS"), ToBytes("1"))]
  }

  /** fcgicli: `name` is the script's base name, `data` the optional query. */
  function CliPairs(script: Bytes, name: Bytes, data: Option<Bytes>): seq<Pair> {
    Fixed() + [Pair(ToBytes("SCRIPT_FILENAME"), script), Pair(ToBytes("SCRIPT_NAME"), SLASH + name)]
    + match data
      case None => [Pair(ToBytes("REQUEST_URI"), SLASH + name), Pair(ToBytes("DOCUMENT_URI"), SLASH + name)]
      case Some(d) =>
        [Pair(ToBytes("DOCUMENT_URI"), SLASH + name), Pair(ToBytes("QUERY_STRING"), d),
         Pair(ToBytes("REQUEST_URI"), SLASH + name + QUESTION + d)]
  }

  /** The command from its last slash on. */
  function FromLastSlash(command: Bytes): Bytes
    requires SLASH[0] in command
  {
    if command[|command| - 1] == SLASH[0] then command[|command| - 1..]
    else FromLastSlash(command[..|command| - 1]) + [command[|command| - 1]]
  }

  lemma {:induction false} FromLastSlashShorter(command: Bytes)
    requires SLASH[0] in command
    ensures |FromLastSlash(command)| <= |command|
  {
    if command[|command| - 1] != SLASH[0] { FromLastSlashShorter(command[..|command| - 1]); }
  }

  /** check_reload_status. */
  function DaemonPairs(command: Bytes, params: Bytes): seq<Pair>
    requires SLASH[0] in command
  {
    var p := FromLastSlash(command);
    Fixed() + [Pair(ToBytes("SCRIPT_FILENAME"), command), Pair(ToBytes("SCRIPT_NAME"), p),
               Pair(ToBytes("DOCUMENT_URI"), p)]
    + if params == [] then [Pair(ToBytes("REQUEST_URI"), p)]
      else [Pair(ToBytes("QUERY_STRING"), params), Pair(ToBytes("REQUEST_URI"), SLASH + p + QUESTION + params)]
  }

  // ----- the daemon's own pair writer -----

  /** A pair as the daemon writes it: a value of more than 65535 bytes gets one byte of length. */
  function DaemonPairBytes(p: Pair): Bytes
    requires |p.name| < FCGI_NV_LLEN
  {
    LengthBytes(|p.name|) + (if |p.value| > 65535 then [|p.value| % 256] else LengthBytes(|p.value|)) + p.name + p.value
  }

  predicate AllNamed(ps: seq<Pair>) {
    ps == [] || (|ps[0].name| < FCGI_NV_LLEN && AllNamed(ps[1..]))
  }

  function DaemonBytes(ps: seq<Pair>): Bytes
    requires AllNamed(ps)
  {
    if ps == [] then [] else DaemonPairBytes(ps[0]) + DaemonBytes(ps[1..])
  }

  /** One pair written by the daemon reads back exactly when its value has at most 65535 bytes. */
  lemma DaemonPairReads(p: Pair)
    requires |p.name| < FCGI_NV_LLEN
    ensures ReadPairs(DaemonPairBytes(p)) == Some([p]) <==> |p.value| <= 65535
  {
    hide PairBytes, DaemonPairBytes, ReadPairs;
    if |p.value| <= 65535 {
      DaemonPairSpec(p);
      FirstPair(p, []);
      NoPairs();
      assert PairBytes(p) + [] == PairBytes(p) && [p] + [] == [p];
    } else {
      LongPairReads(p);
    }
  }

  lemma NoPairs()
    ensures ReadPairs([]) == Some([])
  {}

  lemma LongPairReads(p: Pair)
    requires |p.name| < FCGI_NV_LLEN && |p.value| > 65535
    ensures ReadPairs(DaemonPairBytes(p)) != Some([p])
  {
    hide LengthBytes, ReadLength, ReadPairs;
    var tail := p.name + p.value;
    var rest := [|p.value| % 256] + tail;
    var b := LengthBytes(|p.name|) + rest;
    assert DaemonPairBytes(p) == b;
    LengthRoundTrip(|p.name|, rest);
    ShortLength(|p.value| % 256, tail, rest);
    if ReadPairs(b) == Some([p]) { FirstValue(b); }
  }

  /** What is taken for a length of a long value: less than the value has, or too little is left. */
  lemma ShortLength(x: byte, tail: Bytes, rest: Bytes)
    requires rest == [x] + tail
    ensures match ReadLength(rest)
            case None => true
            case Some(y) => y.n < 128 || |y.rest| == |tail| - 3
  {}

  /** The value of the first pair has the second length, and there is enough left for it. */
  lemma FirstValue(b: Bytes)
    requires b != [] && ReadLength(b).Some? && ReadPairs(b).Some? && ReadPairs(b).value != []
    ensures var x := ReadLength(b).value;
            && ReadLength(x.rest).Some?
            && var y := ReadLength(x.rest).value;
            && x.n + y.n <= |y.rest| && |ReadPairs(b).value[0].value| == y.n
  {
    hide ReadLength;
  }

  lemma {:induction false} DaemonBytesSpec(ps: seq<Pair>)
    requires AllEncodable(ps)
    ensures AllNamed(ps)
    ensures |DaemonBytes(ps)| < 65536 <==> |PairsBytes(ps)| < 65536
    ensures |PairsBytes(ps)| < 65536 ==> DaemonBytes(ps) == PairsBytes(ps)
  {
    if ps != [] {
      DaemonBytesSpec(ps[1..]);
      DaemonPairSpec(ps[0]);
    }
  }

  lemma DaemonPairSpec(p: Pair)
    requires Encodable(p)
    ensures |p.value| <= 65535 ==> DaemonPairBytes(p) == PairBytes(p)
    ensures |p.value| > 65535 ==> |DaemonPairBytes(p)| >= 65536 && |PairBytes(p)| >= 65536
  {
    hide LengthBytes;
  }

  // ----- sizes -----

  function LengthSize(n: nat): nat { if n < 128 then 1 else 4 }

  /** The encoded size of a pair, from the lengths of its strings. */
  function PairSize(name: nat, value: nat): nat {
    LengthSize(name) + LengthSize(value) + name + value
  }

  function PairsSize(ps: seq<Pair>): nat {
    if ps == [] then 0 else PairSize(|ps[0].name|, |ps[0].value|) + PairsSize(ps[1..])
  }

  lemma {:induction false} SizeExact(ps: seq<Pair>)
    requires AllEncodable(ps)
    ensures |PairsBytes(ps)| == PairsSize(ps)
  {
    if ps != [] { SizeExact(ps[1..]); }
  }

  lemma {:induction false} SizeAppend(x: seq<Pair>, y: seq<Pair>)
    ensures PairsSize(x + y) == PairsSize(x) + PairsSize(y)
    ensures AllEncodable(x + y) <==> AllEncodable(x) && AllEncodable(y)
  {
    if x == [] {
      assert x + y == y;
    } else {
      assert (x + y)[1..] == x[1..] + y;
      SizeAppend(x[1..], y);
    }
  }

  /** Both strings of every pair are short enough for 31 bits of length. */
  predicate DaemonEncodable(command: Bytes, params: Bytes) {
    && SLASH[0] in command && |command| < FCGI_NV_LLEN
    && (params != [] ==> |FromLastSlash(command)| + |params| + 2 < FCGI_NV_LLEN)
  }

  /** The size of the daemon's parameters, from the lengths of the command and its query. */
  function DaemonSize(command: Bytes, params: Bytes): nat
    requires SLASH[0] in command
  {
    var c, p, q := |command|, |FromLastSlash(command)|, |params|;
    PairSize(17, 11) + PairSize(14, 3) + PairSize(10, 1) + PairSize(15, c) + PairSize(11, p) + PairSize(12, p)
    + if q == 0 then PairSize(11, p) else PairSize(12, q) + PairSize(11, p + q + 2)
  }

  /** The parameters and the five headers fit the daemon's buffer. */
  predicate DaemonRoom(command: Bytes, params: Bytes) {
    SLASH[0] in command && 40 + DaemonSize(command, params) <= 4096
  }

  lemma DaemonSizeExact(command: Bytes, params: Bytes)
    requires DaemonEncodable(command, params)
    ensures AllEncodable(DaemonPairs(command, params))
    ensures |PairsBytes(DaemonPairs(command, params))| == DaemonSize(command, params)
  {
    hide FromLastSlash, PairsBytes, ToBytes, PairSize;
    var p := FromLastSlash(command);
    FromLastSlashShorter(command);
    var mid := [Pair(ToBytes("SCRIPT_FILENAME"), command), Pair(ToBytes("SCRIPT_NAME"), p),
        Pair(ToBytes("DOCUMENT_URI"), p)];
    var end := if params == [] then [Pair(ToBytes("REQUEST_URI"), p)]
               else [Pair(ToBytes("QUERY_STRING"), params),
                   Pair(ToBytes("REQUEST_URI"), SLASH + p + QUESTION + params)];
    SizeAppend(Fixed() + mid, end);
    SizeAppend(Fixed(), mid);
    SizeThree(Fixed());
    SizeThree(mid);
    SizeTwo(end);
    SizeExact(DaemonPairs(command, params));
  }

  lemma RoomIsEncodable(command: Bytes, params: Bytes)
    requires DaemonRoom(command, params)
    ensures DaemonEncodable(command, params)
  {}

  /** Commands of up to 700 bytes leave enough room, with parameters as long as the daemon keeps. */
  lemma DaemonFits(command: Bytes, params: Bytes)
    requires SLASH[0] in command && |command| <= 700 && |params| < 256
    ensures DaemonRoom(command, params)
  {
    FromLastSlashShorter(command);
  }

  lemma SizeThree(ps: seq<Pair>)
    requires |ps| == 3
    ensures PairsSize(ps) == PairSize(|ps[0].name|, |ps[0].value|) + PairSize(|ps[1].name|, |ps[1].value|)
            + PairSize(|ps[2].name|, |ps[2].value|)
    ensures AllEncodable(ps) <==> Encodable(ps[0]) && Encodable(ps[1]) && Encodable(ps[2])
  {
    hide PairSize, Encodable;
    assert ps[1..][1..] == ps[2..] && ps[2..][1..] == [];
    assert PairsSize(ps[2..]) == PairSize(|ps[2].name|, |ps[2].value|);
    assert AllEncodable(ps[2..]) <==> Encodable(ps[2]);
  }

  lemma SizeTwo(ps: seq<Pair>)
    requires 1 <= |ps| <= 2
    ensures PairsSize(ps) == PairSize(|ps[0].name|, |ps[0].value|)
            + if |ps| == 2 then PairSize(|ps[1].name|, |ps[1].value|) else 0
    ensures AllEncodable(ps) <==> Encodable(ps[0]) && (|ps| == 2 ==> Encodable(ps[1]))
  {
    hide PairSize, Encodable;
    assert |ps| == 2 ==> ps[1..][1..] == [];
  }

  /** The parameters of a request in the daemon's own bytes. */
  function DaemonText(command: Bytes, params: Bytes): Bytes
    requires DaemonEncodable(command, params)
  {
    DaemonNamed(command, params);
    DaemonBytes(DaemonPairs(command, params))
  }

  lemma DaemonNamed(command: Bytes, params: Bytes)
    requires DaemonEncodable(command, params)
    ensures AllNamed(DaemonPairs(command, params))
  {
    hide DaemonPairs, FromLastSlash;
    DaemonSizeExact(command, params);
    DaemonBytesSpec(DaemonPairs(command, params));
  }

  /** The parameters, framed, read back as the four records of a request. */
  ghost predicate Framed(b: Bytes, requestId: nat, keep: bool) {
    ReadRecords(Request(b, requestId, keep)) == Some(Expected(b, requestId, keep))
  }

  /** For every command and parameters, the request in the daemon's own bytes reads back as its four
      records exactly when the parameters fit one record, and then as its list of pairs. */
  lemma DaemonRoundTrip(command: Bytes, params: Bytes, requestId: nat, keep: bool)
    requires DaemonEncodable(command, params)
    ensures Framed(DaemonText(command, params), requestId, keep) <==> DaemonSize(command, params) < 65536
    ensures DaemonSize(command, params) < 65536 ==>
              ReadPairs(DaemonText(command, params)) == Some(DaemonPairs(command, params))
  {
    hide DaemonPairs, PairsBytes, DaemonBytes, Request, Expected, ReadRecords, DaemonSize, FromLastSlash;
    DaemonSizeExact(command, params);
    DaemonBytesSpec(DaemonPairs(command, params));
    PairsRoundTrip(DaemonPairs(command, params));
    RequestRoundTrip(DaemonText(command, params), requestId, keep);
  }

  lemma {:induction false} EncodableParts(x: seq<Pair>, y: seq<Pair>)
    requires AllEncodable(x + y)
    ensures AllEncodable(x) && AllEncodable(y) && PairsBytes(x + y) == PairsBytes(x) + PairsBytes(y)
  {
    hide PairBytes, Encodable;
    if x == [] {
      assert x + y == y;
    } else {
      assert (x + y)[1..] == x[1..] + y;
      EncodableParts(x[1..], y);
      assert PairBytes(x[0]) + (PairsBytes(x[1..]) + PairsBytes(y)) ==
          (PairBytes(x[0]) + PairsBytes(x[1..])) + PairsBytes(y);
    }
  }

  lemma PairShorter(p: Pair)
    requires Encodable(p)
    ensures |p.name| + |p.value| <= |PairBytes(p)|
  {
    hide LengthBytes;
  }

  lemma OnePair(p: Pair)
    requires Encodable(p)
    ensures AllEncodable([p]) && PairsBytes([p]) == PairBytes(p)
  {
    hide PairBytes, Encodable;
    assert [p][1..] == [];
    assert PairBytes(p) + [] == PairBytes(p);
  }

  // ----- building the buffers -----

  /** A growing string buffer. */
  class Sbuf {
    var data: Bytes

    constructor ()
      ensures data == []
    {
      data := [];
    }

    method Putc(c: byte)
      modifies this
      ensures data == old(data) + [c]
    {
      data := data + [c];
    }

    method Cat(s: Bytes)
      modifies this
      ensures data == old(data) + s
    {
      data := data + s;
    }
  }

  /** fcgicli's length field: one byte, or the 32-bit word with its top bit set. */
  method CliLength(sb: Sbuf, n: nat)
    requires n < FCGI_NV_LLEN
    modifies sb
    ensures sb.data == old(sb.data) + LengthBytes(n)
  {
    if n < 128 {
      sb.Putc(n);
    } else {
      var ntmp := FCGI_NV_LLEN + n;
      Halves(n);
      sb.Cat(Word16(ntmp / 65536) + Word16(ntmp % 65536));
    }
  }

  lemma Halves(n: nat)
    requires n < FCGI_NV_LLEN
    ensures (FCGI_NV_LLEN + n) / 65536 == n / 65536 + 0x8000 && (FCGI_NV_LLEN + n) % 65536 == n % 65536
  {
    DivModBack(n, 65536);
    DivMod(n / 65536 + 0x8000, 65536, n % 65536);
  }

  lemma FourPieces(d: Bytes, w: Bytes, x: Bytes, y: Bytes, z: Bytes)
    ensures d + w + x + y + z == d + (w + x + y + z)
  {}

  /** fcgicli's build_nvpair: refuses lengths of more than 31 bits. */
  method CliNvpair(sb: Sbuf, p: Pair) returns (ok: bool)
    modifies sb
    ensures ok <==> Encodable(p)
    ensures sb.data == old(sb.data) + if ok then PairBytes(p) else []
  {
    hide LengthBytes;
    if |p.name| >= FCGI_NV_LLEN || |p.value| >= FCGI_NV_LLEN {
      assert old(sb.data) + [] == sb.data;
      return false;
    }
    CliLength(sb, |p.name|);
    CliLength(sb, |p.value|);
    sb.Cat(p.name);
    sb.Cat(p.value);
    FourPieces(old(sb.data), LengthBytes(|p.name|), LengthBytes(|p.value|), p.name, p.value);
    return true;
  }

  /** The daemon's four bytes, one shift at a time. */
  lemma ByteByByte(n: nat)
    requires 128 <= n < FCGI_NV_LLEN
    ensures LengthBytes(n) == [n / 65536 / 256 + 128, n / 65536 % 256, n / 256 % 256, n % 256]
  {
    hide Word16;
    DivBelow(n, 0x8000, 65536);
    HighWord(n / 65536);
    LowWord(n);
  }

  /** The high half with its top bit set. */
  lemma HighWord(q: nat)
    requires q < 0x8000
    ensures q / 256 + 128 < 256 && Word16(q + 0x8000) == [q / 256 + 128, q % 256]
  {
    DivBelow(q, 128, 256);
    DivModBack(q, 256);
    DivMod(q / 256 + 128, 256, q % 256);
    SmallMod(q / 256 + 128, 256);
  }

  lemma LowWord(n: nat)
    ensures Word16(n % 65536) == [n / 256 % 256, n % 256]
  {
    var a, b := n / 256 % 256, n % 256;
    DivDiv(n, 256, 256);
    DivMod(a, 256, b);
    SmallMod(a, 256);
  }

  method DaemonLength(sb: Sbuf, n: nat)
    requires n < FCGI_NV_LLEN
    modifies sb
    ensures sb.data == old(sb.data) + LengthBytes(n)
  {
    if n < 128 {
      sb.Putc(n);
    } else {
      ByteByByte(n);
      sb.Putc(n / 65536 / 256 + 128);
      sb.Putc(n / 65536 % 256);
      sb.Putc(n / 256 % 256);
      sb.Putc(n % 256);
    }
  }

  /** The daemon's build_nvpair: the lengths are given apart from the strings; a value length
      above 65535 would be written as one byte. */
  method DaemonNvpair(sb: Sbuf, lkey: nat, lvalue: nat, key: Bytes, svalue: Bytes)
    requires lkey < FCGI_NV_LLEN && |key| == lkey && (lvalue == 0 ==> svalue == [])
    modifies sb
    ensures sb.data == old(sb.data) + LengthBytes(lkey)
                       + (if lvalue > 65535 then [lvalue % 256] else LengthBytes(lvalue)) + key + svalue
  {
    hide LengthBytes;
    DaemonLength(sb, lkey);
    if lvalue > 65535 {
      sb.Putc(lvalue % 256);
    } else {
      DaemonLength(sb, lvalue);
    }
    if lkey > 0 { sb.Cat(key); }
    if lvalue > 0 { sb.Cat(svalue); }
  }

  /** One pair under its own length. */
  method DaemonPair(sb: Sbuf, p: Pair)
    requires |p.name| < FCGI_NV_LLEN
    modifies sb
    ensures sb.data == old(sb.data) + DaemonPairBytes(p)
  {
    hide LengthBytes;
    DaemonNvpair(sb, |p.name|, |p.value|, p.name, p.value);
    FourPieces(old(sb.data), LengthBytes(|p.name|),
               if |p.value| > 65535 then [|p.value| % 256] else LengthBytes(|p.value|), p.name, p.value);
  }

  /** REQUEST_URI written in two pieces under one length, to save a buffer. */
  method DaemonUri(sb: Sbuf, p: Bytes, params: Bytes)
    modifies sb
    ensures sb.data == old(sb.data) + DaemonPairBytes(Pair(ToBytes("REQUEST_URI"), SLASH + p + QUESTION + params))
  {
    hide LengthBytes, ToBytes;
    var key, n := ToBytes("REQUEST_URI"), |p| + |params| + 2;
    ghost var length := if n > 65535 then [n % 256] else LengthBytes(n);
    DaemonNvpair(sb, |key|, n, key, SLASH);
    sb.Cat(p + QUESTION + params);
    assert SLASH + (p + QUESTION + params) == SLASH + p + QUESTION + params;
    FourPieces(old(sb.data), LengthBytes(|key|), length, key, SLASH);
    LastPiece(old(sb.data), LengthBytes(|key|) + length + key, SLASH, p + QUESTION + params);
  }

  lemma LastPiece(d: Bytes, w: Bytes, x: Bytes, y: Bytes)
    ensures (d + (w + x)) + y == d + (w + (x + y))
  {}

  /** Pairs one after the other. */
  method DaemonList(sb: Sbuf, ps: seq<Pair>)
    requires AllEncodable(ps) && |PairsBytes(ps)| < 65536
    modifies sb
    ensures sb.data == old(sb.data) + PairsBytes(ps)
  {
    var i := 0;
    assert old(sb.data) + PairsBytes(ps) == sb.data + PairsBytes(ps[0..]) by { assert ps[0..] == ps; }
    while i < |ps|
      invariant 0 <= i <= |ps| && AllEncodable(ps[i..]) && |PairsBytes(ps[i..])| < 65536
      invariant old(sb.data) + PairsBytes(ps) == sb.data + PairsBytes(ps[i..])
    {
      hide PairBytes;
      assert ps[i..][0] == ps[i] && ps[i..][1..] == ps[i + 1..];
      PairShorter(ps[i]);
      DaemonPairSpec(ps[i]);
      hide DaemonPairBytes;
      assert sb.data + (PairBytes(ps[i]) + PairsBytes(ps[i + 1..])) ==
          (sb.data + PairBytes(ps[i])) + PairsBytes(ps[i + 1..]);
      DaemonPair(sb, ps[i]);
      i := i + 1;
    }
    assert sb.data + [] == sb.data;
  }

  /** The parameter buffer of fcgi_send_command. */
  method DaemonParams(command: Bytes, params: Bytes) returns (sb: Sbuf)
    requires DaemonRoom(command, params)
    ensures fresh(sb) && AllEncodable(DaemonPairs(command, params))
            && sb.data == PairsBytes(DaemonPairs(command, params))
  {
    hide FromLastSlash, PairBytes, PairsBytes, AllEncodable, ToBytes, Fixed, DaemonSize, DaemonEncodable;
    RoomIsEncodable(command, params);
    DaemonSizeExact(command, params);
    var p := FromLastSlash(command);
    sb := new Sbuf();
    var head := Fixed() + [Pair(ToBytes("SCRIPT_FILENAME"), command), Pair(ToBytes("SCRIPT_NAME"), p),
        Pair(ToBytes("DOCUMENT_URI"), p)];
    if params == [] {
      var last := [Pair(ToBytes("REQUEST_URI"), p)];
      assert DaemonPairs(command, params) == head + last;
      EncodableParts(head, last);
      DaemonList(sb, head);
      DaemonList(sb, last);
    } else {
      var query, uri := [Pair(ToBytes("QUERY_STRING"), params)],
          Pair(ToBytes("REQUEST_URI"), SLASH + p + QUESTION + params);
      assert DaemonPairs(command, params) == (head + query) + [uri];
      EncodableParts(head + query, [uri]);
      EncodableParts(head, query);
      DaemonList(sb, head);
      DaemonList(sb, query);
      LastPair(uri);
      DaemonPairSpec(uri);
      hide DaemonPairBytes;
      DaemonUri(sb, p, params);
    }
  }

  lemma LastPair(p: Pair)
    requires AllEncodable([p])
    ensures Encodable(p) && PairsBytes([p]) == PairBytes(p) && |p.value| <= |PairBytes(p)|
  {
    OnePair(p);
    PairShorter(p);
  }

  /** prepare_packet: fills the first six bytes of a zeroed header. */
  method PreparePacket(buf: array<byte>, off: nat, typ: byte, lcontent: nat, requestId: nat)
    requires off + 8 <= buf.Length && buf[off + 6] == 0 && buf[off + 7] == 0
    modifies buf
    ensures buf[off..off + 8] == Header(typ, lcontent, requestId)
    ensures forall i | 0 <= i < buf.Length && !(off <= i < off + 8) :: buf[i] == old(buf[i])
  {
    buf[off], buf[off + 1] := FCGI_VERSION_1, typ;
    buf[off + 2], buf[off + 3] := requestId / 256 % 256, requestId % 256;
    buf[off + 4], buf[off + 5] := lcontent / 256 % 256, lcontent % 256;
    HeaderBytes(typ, lcontent, requestId);
    hide Header;
    assert buf[off + 6] == 0 && buf[off + 7] == 0;
    assert buf[off..off + 8] == [FCGI_VERSION_1, typ, requestId / 256 % 256, requestId % 256,
                                 lcontent / 256 % 256, lcontent % 256, 0, 0];
  }

  lemma HeaderBytes(typ: byte, len: nat, requestId: nat)
    ensures Header(typ, len, requestId) ==
            [FCGI_VERSION_1, typ, requestId / 256 % 256, requestId % 256, len / 256 % 256, len % 256, 0, 0]
  {}

  /** The begin-request record at the start of a zeroed buffer. */
  method BeginRecord(buf: array<byte>, requestId: nat, keep: bool)
    requires buf.Length >= 16 && forall i | 0 <= i < 16 :: buf[i] == 0
    modifies buf
    ensures buf[..16] == Header(FCGI_BEGIN_REQUEST, 8, requestId) + BeginBody(keep)
    ensures forall i | 16 <= i < buf.Length :: buf[i] == old(buf[i])
  {
    hide Header;
    PreparePacket(buf, 0, FCGI_BEGIN_REQUEST, 8, requestId);
    ghost var head := buf[0..8];
    assert buf[8] == 0 && buf[9] == 0 && buf[10] == 0 && buf[11] == 0;
    assert buf[12] == 0 && buf[13] == 0 && buf[14] == 0 && buf[15] == 0;
    buf[9], buf[10] := FCGI_RESPONDER, if keep then FCGI_KEEP_CONN else 0;
    assert buf[0..8] == head;
    assert buf[8..16] == [0, FCGI_RESPONDER, if keep then FCGI_KEEP_CONN else 0, 0, 0, 0, 0, 0];
    assert buf[..16] == buf[0..8] + buf[8..16];
  }

  /** memcpy into the buffer. */
  method CopyAt(buf: array<byte>, off: nat, s: Bytes)
    requires off + |s| <= buf.Length
    modifies buf
    ensures buf[off..off + |s|] == s
    ensures forall i | 0 <= i < buf.Length && !(off <= i < off + |s|) :: buf[i] == old(buf[i])
  {
    forall i | off <= i < off + |s| { buf[i] := s[i - off]; }
  }

  /** The framing of both clients, written into a zeroed buffer that is long enough. */
  method Frame(buf: array<byte>, params: Bytes, requestId: nat, keep: bool)
    requires 40 + |params| <= buf.Length && forall i | 0 <= i < buf.Length :: buf[i] == 0
    modifies buf
    ensures buf[..40 + |params|] == Request(params, requestId, keep)
  {
    hide Header, BeginBody;
    var end := 24 + |params|;
    BeginRecord(buf, requestId, keep);
    ghost var begin := buf[..16];
    PreparePacket(buf, 16, FCGI_PARAMS, |params|, requestId);
    CopyAt(buf, 24, params);
    assert buf[..16] == begin && buf[16..24] == Header(FCGI_PARAMS, |params|, requestId);
    ghost var head := buf[..end];
    assert head == buf[..16] + buf[16..24] + buf[24..end];
    PreparePacket(buf, end, FCGI_PARAMS, 0, requestId);
    PreparePacket(buf, end + 8, FCGI_STDIN, 0, requestId);
    assert buf[..end] == head && buf[end..end + 8] == Header(FCGI_PARAMS, 0, requestId);
    assert buf[..end + 16] == buf[..end] + buf[end..end + 8] + buf[end + 8..end + 16];
  }

  /** By the specification, these bytes are a request with this list of pairs. */
  ghost predicate IsRequest(b: Bytes, ps: seq<Pair>, requestId: nat, keep: bool) {
    && AllEncodable(ps) && ReadRecords(b) == Some(Expected(PairsBytes(ps), requestId, keep))
    && ReadPairs(PairsBytes(ps)) == Some(ps)
  }

  /** fcgi_send_command up to its write: the bytes read back as what was asked for. */
  method DaemonRequest(command: Bytes, params: Bytes, requestId: nat, keep: bool) returns (buf: array<byte>, len: nat)
    requires DaemonRoom(command, params)
    ensures buf.Length == 4096 && len <= 4096 && fresh(buf)
    ensures IsRequest(buf[..len], DaemonPairs(command, params), requestId, keep)
  {
    hide DaemonPairs, PairsBytes, Request, Expected, ReadRecords, DaemonSize, DaemonEncodable;
    RoomIsEncodable(command, params);
    DaemonSizeExact(command, params);
    PairsRoundTrip(DaemonPairs(command, params));
    RequestRoundTrip(PairsBytes(DaemonPairs(command, params)), requestId, keep);
    var sb := DaemonParams(command, params);
    buf := new byte[4096](_ => 0);
    Frame(buf, sb.data, requestId, keep);
    len := 40 + |sb.data|;
  }

  /** fcgicli's parameter buffer; a string of 2 GiB or more ends the program. */
  method CliParams(ps: seq<Pair>) returns (sb: Sbuf, ok: bool)
    ensures fresh(sb) && (ok <==> AllEncodable(ps))
    ensures ok ==> sb.data == PairsBytes(ps)
  {
    hide PairBytes, Encodable;
    sb := new Sbuf();
    assert ps[0..] == ps;
    for i := 0 to |ps|
      invariant fresh(sb) && (AllEncodable(ps) <==> AllEncodable(ps[i..]))
      invariant AllEncodable(ps) ==> PairsBytes(ps) == sb.data + PairsBytes(ps[i..])
    {
      assert ps[i..][0] == ps[i] && ps[i..][1..] == ps[i + 1..];
      ghost var was := sb.data;
      ok := CliNvpair(sb, ps[i]);
      if !ok { return; }
      assert AllEncodable(ps) ==>
          was + (PairBytes(ps[i]) + PairsBytes(ps[i + 1..])) == sb.data + PairsBytes(ps[i + 1..]);
    }
    assert sb.data + [] == sb.data;
    return sb, true;
  }

  /** fcgicli's request: it reads back as four records and the list of pairs exactly when the
      parameters fit one record. */
  method CliRequest(script: Bytes, name: Bytes, data: Option<Bytes>, keep: bool) returns (r: Option<array<byte>>)
    ensures r.Some? <==> AllEncodable(CliPairs(script, name, data))
    ensures r.Some? ==> (IsRequest(r.value[..], CliPairs(script, name, data), 1, keep)
                         <==> PairsSize(CliPairs(script, name, data)) < 65536)
  {
    hide CliPairs, PairsBytes, Request, Expected, ReadRecords;
    var ps := CliPairs(script, name, data);
    hide AllEncodable, PairsSize;
    var sb, ok := CliParams(ps);
    if !ok { return None; }
    PairsRoundTrip(ps);
    SizeExact(ps);
    RequestRoundTrip(sb.data, 1, keep);
    var buf := new byte[40 + |sb.data|](_ => 0);
    Frame(buf, sb.data, 1, keep);
    assert buf[..40 + |sb.data|] == buf[..];
    return Some(buf);
  }
}
