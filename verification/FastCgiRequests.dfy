/** What a FastCGI server sees of the two clients' requests: four records of the specification, and the
    variables by name. */
module FastCgiRequests {
  import opened Wrappers
  import opened Arith
  import opened FastCgi

  // ----- records -----

  /** Section 8 of the FastCGI specification in numbers: a begin record (type 1) for the responder role
      (1), with the keep-alive flag, the parameters (type 4) and their end, and an empty input (type 5),
      all of version 1 and of one request. */
  ghost predicate IsResponderRequest(rs: seq<Record>, requestId: nat, keep: bool, params: Bytes) {
    && |rs| == 4 && (forall i | 0 <= i < 4 :: rs[i].version == 1 && rs[i].requestId == requestId % 65536)
    && rs[0].typ == 1 && |rs[0].content| == 8
    && rs[0].content[0] == 0 && rs[0].content[1] == 1 && rs[0].content[2] == (if keep then 1 else 0)
    && (forall i | 3 <= i < 8 :: rs[0].content[i] == 0)
    && rs[1].typ == 4 && rs[1].content == params && rs[2].typ == 4 && rs[2].content == []
    && rs[3].typ == 5 && rs[3].content == []
  }

  lemma ExpectedIs(params: Bytes, requestId: nat, keep: bool)
    ensures IsResponderRequest(Expected(params, requestId, keep), requestId, keep, params)
  {
    var rs := Expected(params, requestId, keep);
    assert rs[1] == HeaderRecord(FCGI_PARAMS, requestId, params) && rs[2] == TailRecords(requestId)[0]
        && rs[3] == TailRecords(requestId)[1];
  }

  // ----- variables -----

  datatype Variable = GatewayInterface | RequestMethod | NoHeaders | ScriptFilename | ScriptName | DocumentUri
    | QueryString | RequestUri

  function NameOf(v: Variable): string {
    match v
    case GatewayInterface => "GATEWAY_INTERFACE"
    case RequestMethod => "REQUEST_METHOD"
    case NoHeaders => "NO_HEADERS"
    case ScriptFilename => "SCRIPT_FILENAME"
    case ScriptName => "SCRIPT_NAME"
    case DocumentUri => "DOCUMENT_URI"
    case QueryString => "QUERY_STRING"
    case RequestUri => "REQUEST_URI"
  }

  function NameBytes(v: Variable): Bytes {
    ToBytes(NameOf(v))
  }

  /** The variable is set once, to this value. */
  ghost predicate Sets(ps: seq<Pair>, v: Variable, value: Bytes) {
    exists i :: 0 <= i < |ps| && ps[i] == Pair(NameBytes(v), value)
                && forall j | 0 <= j < |ps| :: ps[j].name == NameBytes(v) ==> j == i
  }

  ghost predicate Unset(ps: seq<Pair>, v: Variable) {
    forall j | 0 <= j < |ps| :: ps[j].name != NameBytes(v)
  }

  lemma FirstByte(s: string)
    requires s != ""
    ensures ToBytes(s) != [] && ToBytes(s)[0] == s[0] as int % 256
  {}

  /** The names differ in length or in their first letter. */
  lemma NamesApart(v: Variable, w: Variable)
    requires v != w
    ensures |NameOf(v)| != |NameOf(w)| || NameOf(v)[0] as int % 256 != NameOf(w)[0] as int % 256
    ensures NameOf(v) != "" && NameOf(w) != ""
  {}

  lemma VariablesApart(v: Variable, w: Variable)
    requires v != w
    ensures NameBytes(v) != NameBytes(w)
  {
    NamesApart(v, w);
    hide NameOf, ToBytes;
    FirstByte(NameOf(v));
    FirstByte(NameOf(w));
  }

  /** The pairs are the variables `vs`, in this order. */
  ghost predicate NamedBy(ps: seq<Pair>, vs: seq<Variable>) {
    |ps| == |vs| && forall j | 0 <= j < |ps| :: ps[j].name == NameBytes(vs[j])
  }

  ghost predicate Different(vs: seq<Variable>) {
    forall i, j | 0 <= i < j < |vs| :: vs[i] != vs[j]
  }

  lemma SetAt(ps: seq<Pair>, vs: seq<Variable>, i: nat)
    requires NamedBy(ps, vs) && Different(vs) && i < |ps|
    ensures Sets(ps, vs[i], ps[i].value)
  {
    hide NameBytes;
    forall j | 0 <= j < |ps| && j != i ensures ps[j].name != NameBytes(vs[i]) { VariablesApart(vs[j], vs[i]); }
  }

  lemma NotSet(ps: seq<Pair>, vs: seq<Variable>, v: Variable)
    requires NamedBy(ps, vs) && v !in vs
    ensures Unset(ps, v)
  {
    hide NameBytes;
    forall j | 0 <= j < |ps| ensures ps[j].name != NameBytes(v) { VariablesApart(vs[j], v); }
  }

  /** The variables every request carries. */
  ghost predicate Common(ps: seq<Pair>) {
    && Sets(ps, GatewayInterface, ToBytes("FastCGI/1.0")) && Sets(ps, RequestMethod, ToBytes("GET"))
    && Sets(ps, NoHeaders, ToBytes("1"))
  }

  const HEAD := [GatewayInterface, RequestMethod, NoHeaders, ScriptFilename, ScriptName]

  lemma AllSet(ps: seq<Pair>, vs: seq<Variable>)
    requires NamedBy(ps, vs) && Different(vs)
    ensures forall i | 0 <= i < |ps| :: Sets(ps, vs[i], ps[i].value)
  {
    hide NamedBy, Different, Sets;
    assert |ps| == |vs| by { SameCount(ps, vs); }
    forall i: nat | i < |ps| ensures Sets(ps, vs[i], ps[i].value) { SetAt(ps, vs, i); }
  }

  lemma SameCount(ps: seq<Pair>, vs: seq<Variable>)
    requires NamedBy(ps, vs)
    ensures |ps| == |vs|
  {}

  /** What follows the last slash of a command, with the slash. */
  ghost predicate IsBaseName(command: Bytes, p: Bytes) {
    && 0 < |p| <= |command| && command[|command| - |p|..] == p && p[0] == '/' as int
    && forall i | 0 < i < |p| :: p[i] != '/' as int
  }

  lemma {:induction false} FromLastSlashIs(command: Bytes)
    requires SLASH[0] in command
    ensures IsBaseName(command, FromLastSlash(command))
  {
    SlashByte();
    hide ToBytes;
    if command[|command| - 1] != SLASH[0] {
      var t := command[..|command| - 1];
      assert command == t + [command[|command| - 1]];
      FromLastSlashIs(t);
    }
  }

  lemma SlashByte()
    ensures |SLASH| == 1 && SLASH[0] == '/' as int && |QUESTION| == 1 && QUESTION[0] == '?' as int
  {
    FirstByte("/");
    FirstByte("?");
  }

  /** The daemon asks for its script by its full name, under its base name, with the query if there is
      one. */
  ghost predicate DaemonAsks(ps: seq<Pair>, command: Bytes, p: Bytes, query: Bytes) {
    && Common(ps) && Sets(ps, ScriptFilename, command) && Sets(ps, ScriptName, p) && Sets(ps, DocumentUri, p)
    && if query == [] then Sets(ps, RequestUri, p) && Unset(ps, QueryString)
       else Sets(ps, QueryString, query) && Sets(ps, RequestUri, SLASH + p + QUESTION + query)
  }

  function DaemonVariables(withQuery: bool): seq<Variable> {
    if withQuery then HEAD + [DocumentUri, QueryString, RequestUri] else HEAD + [DocumentUri, RequestUri]
  }

  lemma DaemonNamed(command: Bytes, query: Bytes)
    requires SLASH[0] in command
    ensures NamedBy(DaemonPairs(command, query), DaemonVariables(query != []))
  {
    hide ToBytes, FromLastSlash;
  }

  lemma DaemonPairsAsk(command: Bytes, query: Bytes)
    requires SLASH[0] in command
    ensures DaemonAsks(DaemonPairs(command, query), command, FromLastSlash(command), query)
  {
    hide ToBytes, FromLastSlash, Sets, Unset, NameOf, NameBytes, NamedBy;
    var ps, vs := DaemonPairs(command, query), DaemonVariables(query != []);
    DaemonNamed(command, query);
    AllSet(ps, vs);
    assert Sets(ps, vs[0], ps[0].value) && Sets(ps, vs[1], ps[1].value) && Sets(ps, vs[2], ps[2].value);
    assert Sets(ps, vs[3], ps[3].value) && Sets(ps, vs[4], ps[4].value) && Sets(ps, vs[5], ps[5].value);
    assert Sets(ps, vs[6], ps[6].value);
    if query == [] { NotSet(ps, vs, QueryString); } else { assert Sets(ps, vs[7], ps[7].value); }
  }

  /** The daemon's request, end to end: whenever its parameters fit one record, the server reads one
      responder request with exactly these variables. */
  lemma DaemonIsUnderstood(command: Bytes, query: Bytes, requestId: nat, keep: bool)
    requires DaemonEncodable(command, query) && DaemonSize(command, query) < 65536
    ensures var b := DaemonText(command, query);
            && ReadRecords(Request(b, requestId, keep)).Some? && ReadPairs(b).Some?
            && IsResponderRequest(ReadRecords(Request(b, requestId, keep)).value, requestId, keep, b)
            && exists p :: IsBaseName(command, p) && DaemonAsks(ReadPairs(b).value, command, p, query)
  {
    hide DaemonPairs, DaemonSize, DaemonAsks, IsBaseName, ReadRecords, ReadPairs, Request, Expected, DaemonText,
        IsResponderRequest, FromLastSlash;
    DaemonRoundTrip(command, query, requestId, keep);
    ExpectedIs(DaemonText(command, query), requestId, keep);
    DaemonPairsAsk(command, query);
    FromLastSlashIs(command);
  }

  /** fcgicli asks for its script under the name it was given, with the data as the query. */
  ghost predicate CliAsks(ps: seq<Pair>, script: Bytes, name: Bytes, data: Option<Bytes>) {
    && Common(ps) && Sets(ps, ScriptFilename, script) && Sets(ps, ScriptName, SLASH + name)
    && Sets(ps, DocumentUri, SLASH + name)
    && match data
       case None => Sets(ps, RequestUri, SLASH + name) && Unset(ps, QueryString)
       case Some(d) => Sets(ps, QueryString, d) && Sets(ps, RequestUri, SLASH + name + QUESTION + d)
  }

  function CliVariables(withQuery: bool): seq<Variable> {
    if withQuery then HEAD + [DocumentUri, QueryString, RequestUri] else HEAD + [RequestUri, DocumentUri]
  }

  lemma CliNamed(script: Bytes, name: Bytes, data: Option<Bytes>)
    ensures NamedBy(CliPairs(script, name, data), CliVariables(data.Some?))
  {
    hide ToBytes;
  }

  lemma CliPairsAsk(script: Bytes, name: Bytes, data: Option<Bytes>)
    ensures CliAsks(CliPairs(script, name, data), script, name, data)
  {
    hide ToBytes, Sets, Unset, NameOf, NameBytes, NamedBy;
    var ps, vs := CliPairs(script, name, data), CliVariables(data.Some?);
    CliNamed(script, name, data);
    AllSet(ps, vs);
    assert Sets(ps, vs[0], ps[0].value) && Sets(ps, vs[1], ps[1].value) && Sets(ps, vs[2], ps[2].value);
    assert Sets(ps, vs[3], ps[3].value) && Sets(ps, vs[4], ps[4].value) && Sets(ps, vs[5], ps[5].value);
    assert Sets(ps, vs[6], ps[6].value);
    if data.None? { NotSet(ps, vs, QueryString); } else { assert Sets(ps, vs[7], ps[7].value); }
  }

  /** fcgicli's parameters can be encoded and fit one record. */
  predicate CliFits(script: Bytes, name: Bytes, data: Option<Bytes>) {
    AllEncodable(CliPairs(script, name, data)) && PairsSize(CliPairs(script, name, data)) < 65536
  }

  function CliText(script: Bytes, name: Bytes, data: Option<Bytes>): Bytes
    requires CliFits(script, name, data)
  {
    PairsBytes(CliPairs(script, name, data))
  }

  /** fcgicli's request, end to end. */
  lemma CliIsUnderstood(script: Bytes, name: Bytes, data: Option<Bytes>, keep: bool)
    requires CliFits(script, name, data)
    ensures var b := CliText(script, name, data);
            && ReadRecords(Request(b, 1, keep)).Some? && ReadPairs(b).Some?
            && IsResponderRequest(ReadRecords(Request(b, 1, keep)).value, 1, keep, b)
            && CliAsks(ReadPairs(b).value, script, name, data)
  {
    hide CliPairs, CliAsks, AllEncodable, ReadRecords, ReadPairs, Request, Expected, PairsBytes, IsResponderRequest,
        PairsSize;
    var ps := CliPairs(script, name, data);
    SizeExact(ps);
    PairsRoundTrip(ps);
    RequestRoundTrip(PairsBytes(ps), 1, keep);
    ExpectedIs(PairsBytes(ps), 1, keep);
    CliPairsAsk(script, name, data);
  }
}
