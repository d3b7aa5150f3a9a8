/** The parts of the Streamlit API client that decide something locally: parsing one
    server-sent-event line, the streaming/non-streaming guard of `AgentResponse`, the
    default retriever configuration of `search_documents`, and the file filter of
    `process_pdfs`. HTTP requests themselves are not modelled. */
module ApiClient {
  import opened Wrappers
  import opened Text
  import opened Paths
  import opened FileManager

  /** A JSON value (numbers restricted to integers). */
  datatype Json = JNull | JBool(b: bool) | JNum(n: int) | JStr(s: string) | JArr(items: seq<Json>) | JObj(fields: map<string, Json>) {
    /** Python truthiness of the decoded value. */
    predicate Truthy() {
      match this
      case JNull => false
      case JBool(b) => b
      case JNum(n) => n != 0
      case JStr(s) => s != ""
      case JArr(items) => items != []
      case JObj(fields) => fields != map[]
    }
  }

  newtype byte = x: int | 0 <= x < 256

  /** `{"error": str(e)}` */
  function ErrorObject(message: string): Json {
    JObj(map["error" := JStr(message)])
  }

  const DataPrefix: string := "data: "

  /** `_parse_sse_line(line)`: `decode` is `bytes.decode('utf-8')` and `loads` is
      `json.loads`, each answering the exception message when it raises. */
  function ParseSseLine(line: seq<byte>, decode: seq<byte> -> Result<string, string>, loads: string -> Result<Json, string>)
    : (r: Option<Json>)
    ensures line == [] ==> r == None
    ensures line != [] && decode(line).Failure? ==> r == Some(ErrorObject(decode(line).error))
    ensures line != [] && decode(line).Success? && !StartsWith(decode(line).value, DataPrefix) ==> r == None
    ensures line != [] && decode(line).Success? && StartsWith(decode(line).value, DataPrefix) ==>
      var payload := decode(line).value[|DataPrefix|..];
      r == Some(if loads(payload).Success? then loads(payload).value else ErrorObject(loads(payload).error))
  {
    if line == [] then None
    else match decode(line)
      case Failure(e) => Some(ErrorObject(e))
      case Success(text) =>
        if !StartsWith(text, DataPrefix) then None
        else match loads(text[|DataPrefix|..])
          case Failure(e) => Some(ErrorObject(e))
          case Success(j) => Some(j)
  }

  /** The server's framing of one event: the prefix, then the serialised value. */
  function Frame(payload: string): string {
    DataPrefix + payload
  }

  /** Parsing inverts the framing: when `encode` and `decode` are inverse on the framed
      text and `loads` inverts `dumps` on the value, the parsed line is the value sent. */
  lemma ParseFramedLine(j: Json, dumps: Json -> string, loads: string -> Result<Json, string>,
                        encode: string -> seq<byte>, decode: seq<byte> -> Result<string, string>)
    requires loads(dumps(j)) == Success(j)
    requires decode(encode(Frame(dumps(j)))) == Success(Frame(dumps(j)))
    requires encode(Frame(dumps(j))) != []
    ensures ParseSseLine(encode(Frame(dumps(j))), decode, loads) == Some(j)
  {
    var text := Frame(dumps(j));
    assert text[..|DataPrefix|] == DataPrefix;
    assert text[|DataPrefix|..] == dumps(j);
  }

  /** The events `stream_generator` yields: the parsed lines whose result is truthy, in
      order (so an empty object, `0`, `""` or `null` is dropped as well as `None`). */
  function StreamEvents(lines: seq<seq<byte>>, decode: seq<byte> -> Result<string, string>, loads: string -> Result<Json, string>)
    : (r: seq<Json>)
    ensures |r| <= |lines|
    ensures forall i :: 0 <= i < |r| ==> r[i].Truthy()
  {
    if lines == [] then []
    else
      var rest := StreamEvents(lines[1..], decode, loads);
      match ParseSseLine(lines[0], decode, loads)
      case Some(j) => if j.Truthy() then [j] + rest else rest
      case None => rest
  }

  /** Every truthy parse is yielded, and nothing else. */
  lemma {:induction false} StreamEventsComplete(lines: seq<seq<byte>>, decode: seq<byte> -> Result<string, string>,
                                               loads: string -> Result<Json, string>)
    ensures forall j :: j in StreamEvents(lines, decode, loads) <==>
      j.Truthy() && exists i :: 0 <= i < |lines| && ParseSseLine(lines[i], decode, loads) == Some(j)
  {
    if lines != [] {
      StreamEventsComplete(lines[1..], decode, loads);
      forall j ensures j in StreamEvents(lines, decode, loads) <==>
        j.Truthy() && exists i :: 0 <= i < |lines| && ParseSseLine(lines[i], decode, loads) == Some(j)
      {
        if j in StreamEvents(lines[1..], decode, loads) {
          var i :| 0 <= i < |lines[1..]| && ParseSseLine(lines[1..][i], decode, loads) == Some(j);
          assert lines[i + 1] == lines[1..][i];
        }
        if j.Truthy() && exists i :: 0 <= i < |lines| && ParseSseLine(lines[i], decode, loads) == Some(j) {
          var i :| 0 <= i < |lines| && ParseSseLine(lines[i], decode, loads) == Some(j);
          if i > 0 {
            assert lines[1..][i - 1] == lines[i];
          }
        }
      }
    }
  }

  /** The stream of several lines is the streams of their parts, one after the other:
      events keep the order of their lines. */
  lemma {:induction false} StreamEventsAppend(a: seq<seq<byte>>, b: seq<seq<byte>>, decode: seq<byte> -> Result<string, string>,
                                             loads: string -> Result<Json, string>)
    ensures StreamEvents(a + b, decode, loads) == StreamEvents(a, decode, loads) + StreamEvents(b, decode, loads)
  {
    if a == [] {
      assert a + b == b;
    } else {
      assert (a + b)[0] == a[0];
      assert (a + b)[1..] == a[1..] + b;
      StreamEventsAppend(a[1..], b, decode, loads);
    }
  }

  /** One line yields its parsed value exactly when the parse succeeds and is truthy, and
      otherwise nothing. */
  lemma StreamEventsOne(line: seq<byte>, decode: seq<byte> -> Result<string, string>, loads: string -> Result<Json, string>)
    ensures var p := ParseSseLine(line, decode, loads);
      StreamEvents([line], decode, loads) == (if p.Some? && p.value.Truthy() then [p.value] else [])
  {
    assert [line][1..] == [];
  }

  /** What an `AgentResponse` wraps: the decoded body, a generator function (identified
      by a handle), or an iterator (likewise). */
  datatype Data = Body(fields: map<string, Json>) | GeneratorFunction(fn: nat) | IteratorObject(it: nat)

  datatype ApiError = ValueError(message: string) | AttributeError | IoError(message: string)

  /** An `AgentResponse` and its cached iterator. */
  datatype AgentResponse = AgentResponse(data: Data, isStreaming: bool, cached: Option<Data>)

  /** The constructor: no iterator yet. */
  function NewAgentResponse(data: Data, isStreaming: bool): (r: AgentResponse)
    ensures r.data == data && r.isStreaming == isStreaming
    ensures r.cached == None
  {
    AgentResponse(data, isStreaming, None)
  }

  const GetOnStream: string := "Cannot use get() on streaming response. Use iterate() instead."
  const IterateNonStream: string := "Cannot iterate non-streaming response. Use get() instead."

  /** `get(key, default)`: refused on a streaming response; `dict.get` otherwise. */
  function Get(resp: AgentResponse, key: string, default: Json): (r: Result<Json, ApiError>)
    ensures resp.isStreaming <==> r == Failure(ValueError(GetOnStream))
    ensures !resp.isStreaming && resp.data.Body? ==>
      r == Success(if key in resp.data.fields then resp.data.fields[key] else default)
    ensures !resp.isStreaming && !resp.data.Body? ==> r == Failure(AttributeError)
  {
    if resp.isStreaming then Failure(ValueError(GetOnStream))
    else match resp.data
      case Body(fields) => Success(if key in fields then fields[key] else default)
      case _ => Failure(AttributeError)
  }

  /** The result of one `iterate()` call, the response afterwards, and whether the call
      invoked the generator function. */
  datatype Iteration = Iteration(result: Result<Data, ApiError>, after: AgentResponse, invoked: bool)

  /** `iterate()`: refused on a non-streaming response; otherwise the cached iterator,
      creating it on the first call by calling the generator function (`call` gives the
      iterator a call returns) or taking the data itself. */
  function Iterate(resp: AgentResponse, call: nat -> nat): (r: Iteration)
    ensures !resp.isStreaming <==> r.result == Failure(ValueError(IterateNonStream))
    ensures !resp.isStreaming ==> r.after == resp && !r.invoked
    ensures r.after.data == resp.data && r.after.isStreaming == resp.isStreaming
    ensures r.invoked ==> resp.isStreaming && resp.cached == None && resp.data.GeneratorFunction?
    ensures resp.isStreaming ==> r.after.cached.Some? && r.result == Success(r.after.cached.value)
    ensures resp.cached.Some? ==> r.after == resp && !r.invoked
    ensures resp.isStreaming && resp.cached == None ==>
      && r.after.cached == Some(if resp.data.GeneratorFunction? then IteratorObject(call(resp.data.fn)) else resp.data)
      && (r.invoked <==> resp.data.GeneratorFunction?)
  {
    if !resp.isStreaming then Iteration(Failure(ValueError(IterateNonStream)), resp, false)
    else if resp.cached.Some? then Iteration(Success(resp.cached.value), resp, false)
    else
      match resp.data
      case GeneratorFunction(fn) =>
        var it := IteratorObject(call(fn));
        Iteration(Success(it), resp.(cached := Some(it)), true)
      case _ => Iteration(Success(resp.data), resp.(cached := Some(resp.data)), false)
  }

  /** Calling `iterate()` twice gives the same iterator, and the second call never invokes
      the generator function, so it is invoked at most once. */
  lemma IterateTwice(resp: AgentResponse, call: nat -> nat)
    requires resp.isStreaming
    ensures var first := Iterate(resp, call);
      var second := Iterate(first.after, call);
      second.result == first.result && second.after == first.after && !second.invoked
  {
  }

  /** On a fresh streaming response built around a generator function, the first
      `iterate()` invokes it and returns the iterator it produced. */
  lemma IterateFresh(fn: nat, call: nat -> nat)
    ensures var first := Iterate(NewAgentResponse(GeneratorFunction(fn), true), call);
      first.invoked && first.result == Success(IteratorObject(call(fn)))
  {
  }

  /** The request `search_documents` sends: its URL and JSON body. */
  datatype SearchRequest = SearchRequest(url: string, query: string, retrieverConfig: map<string, Json>)

  /** The configuration used when the caller gives none. */
  function DefaultRetrieverConfig(collection: string, query: string): (c: map<string, Json>)
    ensures c.Keys == {"collection_name", "search_type", "k", "search_parameters"}
    ensures c["search_type"] == JStr("similarity") && c["search_parameters"] == JObj(map[])
    ensures c["k"] == JNum(if query == "" then 100 else 4)
    ensures c["collection_name"] == JStr(collection)
  {
    map["collection_name" := JStr(collection), "search_type" := JStr("similarity"),
        "k" := JNum(if query == "" then 100 else 4), "search_parameters" := JObj(map[])]
  }

  /** `search_documents(collection, query, retriever_config)` without the network call. */
  function SearchDocuments(searchEndpoint: string, collection: string, query: string,
                           config: Option<map<string, Json>>): (r: SearchRequest)
    ensures r.url == searchEndpoint + "/" + collection + "/search"
    ensures r.query == Strip(query)
    ensures "collection_name" in r.retrieverConfig && r.retrieverConfig["collection_name"] == JStr(collection)
    ensures config.None? ==> r.retrieverConfig == DefaultRetrieverConfig(collection, query)
    ensures config.Some? ==> r.retrieverConfig.Keys == config.value.Keys + {"collection_name"}
    ensures config.Some? ==> forall key :: key in config.value && key != "collection_name" ==>
      r.retrieverConfig[key] == config.value[key]
  {
    var cfg := match config
      case None => DefaultRetrieverConfig(collection, query)
      case Some(c) => c["collection_name" := JStr(collection)];
    SearchRequest(searchEndpoint + "/" + collection + "/search", Strip(query), cfg)
  }

  /** The caller's `retriever_config` after the call: a given dictionary has had its
      "collection_name" entry written in place; an absent one stays absent. */
  function CallerConfigAfter(collection: string, config: Option<map<string, Json>>): (after: Option<map<string, Json>>)
    ensures after.Some? <==> config.Some?
  {
    match config
    case None => None
    case Some(c) => Some(c["collection_name" := JStr(collection)])
  }

  /** A given configuration is written in place and sent as it is: after the call the
      caller holds exactly the dictionary that was sent, and a second call writes nothing
      new into it. */
  lemma SearchSendsCallersDict(searchEndpoint: string, collection: string, query: string,
                               config: Option<map<string, Json>>)
    ensures config.Some? ==>
      CallerConfigAfter(collection, config) == Some(SearchDocuments(searchEndpoint, collection, query, config).retrieverConfig)
    ensures CallerConfigAfter(collection, CallerConfigAfter(collection, config)) == CallerConfigAfter(collection, config)
  {
    if config.Some? {
      var after := config.value["collection_name" := JStr(collection)];
      assert after["collection_name" := JStr(collection)] == after;
    }
  }

  /** Passing the default configuration explicitly sends the same request, and the sent
      configuration is a fixed point: sending it again changes nothing. */
  lemma SearchConfigStable(searchEndpoint: string, collection: string, query: string, config: Option<map<string, Json>>)
    ensures SearchDocuments(searchEndpoint, collection, query, Some(DefaultRetrieverConfig(collection, query))) ==
      SearchDocuments(searchEndpoint, collection, query, None)
    ensures var r := SearchDocuments(searchEndpoint, collection, query, config);
      SearchDocuments(searchEndpoint, collection, query, Some(r.retrieverConfig)) == r
  {
    var d := DefaultRetrieverConfig(collection, query);
    assert d["collection_name" := JStr(collection)] == d;
    var r := SearchDocuments(searchEndpoint, collection, query, config);
    assert r.retrieverConfig["collection_name" := JStr(collection)] == r.retrieverConfig;
  }

  /** The size of the default search is decided by the raw query while the sent query is
      stripped: a query of blanks asks for 4 results with an empty query. */
  lemma BlankQueryAsksForFour(searchEndpoint: string, collection: string)
    ensures var r := SearchDocuments(searchEndpoint, collection, " ", None);
      r.query == "" && r.retrieverConfig["k"] == JNum(4)
  {
    assert IsSpace(" "[0]);
    assert StripLeft(" ") == "";
  }

  /** One file attached to the `process_pdfs` request: its base name and absolute path. */
  datatype Upload = Upload(filename: string, path: string)

  /** An attachment names an existing PDF by its base name. */
  predicate Attached(fs: set<string>, u: Upload) {
    IsValidPdf(fs, u.path) && u.filename == Basename(u.path)
  }

  /** The loop over `file_paths`: `abspath` is `os.path.abspath`, `fs` the existing paths,
      and `openError` the message `open(path, 'rb')` raises, if it does. */
  function SelectUploads(paths: seq<string>, abspath: string -> string, fs: set<string>,
                         openError: string -> Option<string>): (r: Result<seq<Upload>, ApiError>)
    ensures r.Success? ==> |r.value| <= |paths|
    ensures r.Failure? ==> r.error.IoError?
    ensures r.Success? ==> forall u :: u in r.value ==> Attached(fs, u)
  {
    if paths == [] then Success([])
    else
      var a := abspath(paths[0]);
      if IsValidPdf(fs, a) then
        if openError(a).Some? then Failure(IoError(openError(a).value))
        else match SelectUploads(paths[1..], abspath, fs, openError)
          case Failure(e) => Failure(e)
          case Success(us) => Success([Upload(Basename(a), a)] + us)
      else SelectUploads(paths[1..], abspath, fs, openError)
  }

  /** The absolute paths of the inputs that pass the filter, in order. */
  function ValidPaths(paths: seq<string>, abspath: string -> string, fs: set<string>): seq<string> {
    if paths == [] then []
    else
      var a := abspath(paths[0]);
      (if IsValidPdf(fs, a) then [a] else []) + ValidPaths(paths[1..], abspath, fs)
  }

  /** The paths of a list of attachments, in order. */
  function PathsOf(us: seq<Upload>): (ps: seq<string>)
    ensures |ps| == |us|
  {
    if us == [] then [] else [us[0].path] + PathsOf(us[1..])
  }

  /** When every kept file opens, the uploads are exactly the valid inputs in order. */
  lemma {:induction false} SelectUploadsIsFilter(paths: seq<string>, abspath: string -> string, fs: set<string>,
                                                openError: string -> Option<string>)
    requires forall p :: p in ValidPaths(paths, abspath, fs) ==> openError(p).None?
    ensures SelectUploads(paths, abspath, fs, openError).Success?
    ensures PathsOf(SelectUploads(paths, abspath, fs, openError).value) == ValidPaths(paths, abspath, fs)
  {
    if paths != [] {
      var a := abspath(paths[0]);
      var rest := ValidPaths(paths[1..], abspath, fs);
      var v := ValidPaths(paths, abspath, fs);
      var valid := IsValidPdf(fs, a);
      assert v == (if valid then [a] else []) + rest;
      forall p | p in rest ensures openError(p).None? {
        assert p in v;
      }
      SelectUploadsIsFilter(paths[1..], abspath, fs, openError);
      var us := SelectUploads(paths[1..], abspath, fs, openError).value;
      if valid {
        assert a in v;
        var r := [Upload(Basename(a), a)] + us;
        assert SelectUploads(paths, abspath, fs, openError) == Success(r);
        assert r[1..] == us;
      } else {
        assert SelectUploads(paths, abspath, fs, openError) == Success(us);
      }
    }
  }

  /** When some kept file fails to open, the first such file's error is raised. */
  lemma {:induction false} SelectUploadsFirstError(paths: seq<string>, abspath: string -> string, fs: set<string>,
                                                  openError: string -> Option<string>, k: nat)
    requires k < |ValidPaths(paths, abspath, fs)|
    requires openError(ValidPaths(paths, abspath, fs)[k]).Some?
    requires forall i :: 0 <= i < k ==> openError(ValidPaths(paths, abspath, fs)[i]).None?
    ensures SelectUploads(paths, abspath, fs, openError) ==
      Failure(IoError(openError(ValidPaths(paths, abspath, fs)[k]).value))
  {
    var a := abspath(paths[0]);
    var rest := ValidPaths(paths[1..], abspath, fs);
    var v := ValidPaths(paths, abspath, fs);
    if IsValidPdf(fs, a) {
      assert v == [a] + rest;
      if k > 0 {
        assert openError(a).None? by { assert v[0] == a; }
        forall i | 0 <= i < k - 1 ensures openError(rest[i]).None? {
          assert rest[i] == v[i + 1];
        }
        assert rest[k - 1] == v[k];
        SelectUploadsFirstError(paths[1..], abspath, fs, openError, k - 1);
      }
    } else {
      assert v == rest;
      SelectUploadsFirstError(paths[1..], abspath, fs, openError, k);
    }
  }

  const NoValidPdf: string := "No valid PDF files to process"

  /** The file-filter half of `process_pdfs`: the uploads to attach, or the error raised
      before any request is made. */
  function ProcessPdfsFiles(paths: seq<string>, abspath: string -> string, fs: set<string>,
                            openError: string -> Option<string>): (r: Result<seq<Upload>, ApiError>)
    ensures r.Success? ==> r.value != [] && r == SelectUploads(paths, abspath, fs, openError)
    ensures SelectUploads(paths, abspath, fs, openError) == Success([]) <==> r == Failure(ValueError(NoValidPdf))
    ensures SelectUploads(paths, abspath, fs, openError).Failure? ==> r == SelectUploads(paths, abspath, fs, openError)
  {
    match SelectUploads(paths, abspath, fs, openError)
    case Failure(e) => Failure(e)
    case Success(us) => if us == [] then Failure(ValueError(NoValidPdf)) else Success(us)
  }

  /** With no existing PDF among the inputs, `process_pdfs` raises the "no valid PDF"
      error. */
  lemma {:induction false} NoPdfRaises(paths: seq<string>, abspath: string -> string, fs: set<string>,
                                      openError: string -> Option<string>)
    requires forall i :: 0 <= i < |paths| ==> !IsValidPdf(fs, abspath(paths[i]))
    ensures ProcessPdfsFiles(paths, abspath, fs, openError) == Failure(ValueError(NoValidPdf))
  {
    NoPdfSelectsNothing(paths, abspath, fs, openError);
  }

  lemma {:induction false} NoPdfSelectsNothing(paths: seq<string>, abspath: string -> string, fs: set<string>,
                                              openError: string -> Option<string>)
    requires forall i :: 0 <= i < |paths| ==> !IsValidPdf(fs, abspath(paths[i]))
    ensures SelectUploads(paths, abspath, fs, openError) == Success([])
  {
    if paths != [] {
      assert !IsValidPdf(fs, abspath(paths[0]));
      assert forall i :: 0 <= i < |paths[1..]| ==> paths[1..][i] == paths[i + 1];
      NoPdfSelectsNothing(paths[1..], abspath, fs, openError);
    }
  }
}
