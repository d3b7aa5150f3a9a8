/** The PDF indexing pipeline (`SimpleIndexChromaPipeline`): check a path, load its pages,
    stamp provenance metadata, chunk, stamp the chunks that lost it, and hand the chunks to
    the vector-store indexer. The file system is a set of existing paths; the PDF loader,
    the chunker and the indexer are services given as functions. */
module IndexPipeline {
  import opened Wrappers
  import opened Text
  import opened Paths
  import opened FileManager

  /** A metadata value: a string, an integer, or Python's `None`. */
  datatype Meta = MStr(s: string) | MInt(i: int) | MNull

  /** Python truthiness of an optional metadata entry (`metadata.get(key)`). */
  predicate Truthy(m: Option<Meta>) {
    match m
    case Some(MStr(s)) => s != ""
    case Some(MInt(i)) => i != 0
    case Some(MNull) => false
    case None => false
  }

  datatype Document = Document(content: string, metadata: map<string, Meta>) {
    /** `metadata.get(key)` */
    function Get(key: string): Option<Meta> {
      if key in metadata then Some(metadata[key]) else None
    }
  }

  /** The three provenance entries written onto a page or chunk; "page_number" takes the
      document's own "page" entry, or 1 when it has none. */
  function Stamp(doc: Document, filename: string, path: string): (r: Document)
    ensures r.content == doc.content
    ensures r.metadata.Keys == doc.metadata.Keys + {"source_file", "file_path", "page_number"}
    ensures r.metadata["source_file"] == MStr(filename) && r.metadata["file_path"] == MStr(path)
    ensures r.metadata["page_number"] == doc.Get("page").GetOr(MInt(1))
    ensures forall key :: key in doc.metadata && key !in {"source_file", "file_path", "page_number"} ==>
      r.metadata[key] == doc.metadata[key]
  {
    Document(doc.content, doc.metadata["source_file" := MStr(filename)]["file_path" := MStr(path)]
      ["page_number" := doc.Get("page").GetOr(MInt(1))])
  }

  /** A chunk is re-stamped only when its "source_file" entry is missing or falsy. */
  function StampChunk(chunk: Document, filename: string, path: string): (r: Document)
    ensures Truthy(chunk.Get("source_file")) ==> r == chunk
    ensures !Truthy(chunk.Get("source_file")) ==> r == Stamp(chunk, filename, path)
  {
    if Truthy(chunk.Get("source_file")) then chunk else Stamp(chunk, filename, path)
  }

  function StampAll(docs: seq<Document>, filename: string, path: string): (r: seq<Document>)
    ensures |r| == |docs| && forall i :: 0 <= i < |r| ==> r[i] == Stamp(docs[i], filename, path)
  {
    seq(|docs|, i requires 0 <= i < |docs| => Stamp(docs[i], filename, path))
  }

  function StampChunks(chunks: seq<Document>, filename: string, path: string): (r: seq<Document>)
    ensures |r| == |chunks| && forall i :: 0 <= i < |r| ==> r[i] == StampChunk(chunks[i], filename, path)
  {
    seq(|chunks|, i requires 0 <= i < |chunks| => StampChunk(chunks[i], filename, path))
  }

  /** The loader (`PyPDFLoader(path).load()`), the chunker (`split_documents`) and the
      indexer (`add_documents`, answering an error message when it raises). */
  datatype Services = Services(
    load: string -> Result<seq<Document>, string>,
    split: seq<Document> -> Result<seq<Document>, string>,
    add: seq<Document> -> Option<string>)

  /** The exceptions `process_pdf` lets escape. */
  datatype PdfError = FileNotFound(path: string) | NotAPdf(path: string) | ProcessingError(message: string) {
    /** `str(e)` */
    function Message(): string {
      match this
      case FileNotFound(p) => "File not found: " + p
      case NotAPdf(p) => "File is not a PDF: " + p
      case ProcessingError(m) => m
    }
  }

  /** What one call of `process_pdf` returns or raises, and the batch it handed to the
      indexer, if it got that far. */
  datatype PdfRun = PdfRun(result: Result<seq<Document>, PdfError>, indexed: Option<seq<Document>>)

  /** `process_pdf(path)` */
  function ProcessPdf(svc: Services, fs: set<string>, path: string): (r: PdfRun)
    ensures path !in fs ==> r == PdfRun(Failure(FileNotFound(path)), None)
    ensures path in fs && !HasPdfExtension(path) ==> r == PdfRun(Failure(NotAPdf(path)), None)
    ensures r.result.Failure? && r.result.error.ProcessingError? ==>
      path in fs && HasPdfExtension(path)
    ensures r.result.Success? ==> path in fs && HasPdfExtension(path)
    ensures r.result.Success? && r.result.value != [] ==> r.indexed == Some(r.result.value)
    ensures r.result.Success? && r.result.value == [] ==> r.indexed == None
    ensures r.indexed.Some? && r.result.Success? ==> svc.add(r.indexed.value).None?
    ensures r.indexed.Some? && r.result.Failure? ==>
      svc.add(r.indexed.value).Some? && r.result.error == ProcessingError(svc.add(r.indexed.value).value)
    ensures path in fs && HasPdfExtension(path) ==>
      var load := svc.load(path);
      && (load.Failure? ==> r == PdfRun(Failure(ProcessingError(load.error)), None))
      && (load == Success([]) ==> r == PdfRun(Success([]), None))
      && (load.Success? && load.value != [] ==>
            var split := svc.split(StampAll(load.value, Basename(path), path));
            && (split.Failure? ==> r == PdfRun(Failure(ProcessingError(split.error)), None))
            && (split == Success([]) ==> r == PdfRun(Success([]), None))
            && (split.Success? && split.value != [] ==>
                  && r.indexed == Some(StampChunks(split.value, Basename(path), path))
                  && (r.result == Success(r.indexed.value) <==> svc.add(r.indexed.value).None?)))
  {
    if path !in fs then PdfRun(Failure(FileNotFound(path)), None)
    else if !HasPdfExtension(path) then PdfRun(Failure(NotAPdf(path)), None)
    else match svc.load(path)
      case Failure(e) => PdfRun(Failure(ProcessingError(e)), None)
      case Success(pages) =>
        if pages == [] then PdfRun(Success([]), None)
        else
          var filename := Basename(path);
          match svc.split(StampAll(pages, filename, path))
          case Failure(e) => PdfRun(Failure(ProcessingError(e)), None)
          case Success(chunks) =>
            if chunks == [] then PdfRun(Success([]), None)
            else
              var stamped := StampChunks(chunks, filename, path);
              match svc.add(stamped)
              case Some(e) => PdfRun(Failure(ProcessingError(e)), Some(stamped))
              case None => PdfRun(Success(stamped), Some(stamped))
  }

  /** `process_pdf` gets past its two checks exactly when the file manager's
      `is_valid_pdf` holds of the path. */
  lemma ProcessPdfChecksAreIsValidPdf(svc: Services, fs: set<string>, path: string)
    ensures (ProcessPdf(svc, fs, path).result.Failure? &&
             !ProcessPdf(svc, fs, path).result.error.ProcessingError?) <==> !IsValidPdf(fs, path)
  {
  }

  /** The base name of a path ending in ".pdf" is not empty. */
  lemma PdfBasenameNonEmpty(path: string)
    requires HasPdfExtension(path)
    ensures Basename(path) != []
  {
    var n := |path|;
    assert Lower(path)[n - 1] == 'f';
    assert path[n - 1] != '/';
  }

  /** A stamped chunk's "source_file" is truthy when the file name is not empty. */
  lemma StampChunksTruthy(chunks: seq<Document>, filename: string, path: string)
    requires filename != []
    ensures forall i :: 0 <= i < |chunks| ==> Truthy(StampChunks(chunks, filename, path)[i].Get("source_file"))
  {
    forall i | 0 <= i < |chunks|
      ensures Truthy(StampChunks(chunks, filename, path)[i].Get("source_file"))
    {
      var c := chunks[i];
      if !Truthy(c.Get("source_file")) {
        assert Stamp(c, filename, path).metadata["source_file"] == MStr(filename);
      }
    }
  }

  /** Every chunk `process_pdf` returns carries a non-empty "source_file", and each is
      either the chunker's chunk untouched or that chunk stamped with this file's
      provenance; the chunk count is the chunker's. */
  lemma ProcessPdfProvenance(svc: Services, fs: set<string>, path: string)
    requires ProcessPdf(svc, fs, path).result.Success?
    ensures var ds := ProcessPdf(svc, fs, path).result.value;
      forall i :: 0 <= i < |ds| ==> Truthy(ds[i].Get("source_file"))
    ensures var ds := ProcessPdf(svc, fs, path).result.value;
      ds != [] ==>
        var chunks := svc.split(StampAll(svc.load(path).value, Basename(path), path));
        chunks.Success? && |ds| == |chunks.value| &&
        forall i :: 0 <= i < |ds| ==>
          ds[i] == chunks.value[i] || ds[i] == Stamp(chunks.value[i], Basename(path), path)
  {
    var ds := ProcessPdf(svc, fs, path).result.value;
    if ds != [] {
      var filename := Basename(path);
      PdfBasenameNonEmpty(path);
      var pages := svc.load(path).value;
      var chunks := svc.split(StampAll(pages, filename, path)).value;
      assert ds == StampChunks(chunks, filename, path);
      StampChunksTruthy(chunks, filename, path);
    }
  }

  /** `str(e)` for each failed path, in input order, and every chunk produced. */
  datatype Batch = Batch(documents: seq<Document>, failed: seq<(string, string)>)

  /** `process_multiple_pdfs(paths)`: failures are recorded and the loop goes on. */
  function ProcessMultiplePdfs(svc: Services, fs: set<string>, paths: seq<string>): (r: Batch)
    ensures |r.failed| <= |paths|
    ensures paths == [] ==> r == Batch([], [])
  {
    if paths == [] then Batch([], [])
    else
      var prefix := ProcessMultiplePdfs(svc, fs, paths[..|paths| - 1]);
      var last := paths[|paths| - 1];
      match ProcessPdf(svc, fs, last).result
      case Success(ds) => Batch(prefix.documents + ds, prefix.failed)
      case Failure(e) => Batch(prefix.documents, prefix.failed + [(last, e.Message())])
  }

  /** The chunks one file contributes to a batch: none when it raised. */
  function Contribution(svc: Services, fs: set<string>, path: string): seq<Document> {
    var r := ProcessPdf(svc, fs, path).result;
    if r.Success? then r.value else []
  }

  /** The failure entry one file contributes to a batch: none when it succeeded. */
  function FailureOf(svc: Services, fs: set<string>, path: string): seq<(string, string)> {
    var r := ProcessPdf(svc, fs, path).result;
    if r.Failure? then [(path, r.error.Message())] else []
  }

  /** The concatenation, in input order, of what `f` yields for each path. */
  function ConcatMap<T>(f: string -> seq<T>, paths: seq<string>): seq<T> {
    if paths == [] then [] else f(paths[0]) + ConcatMap(f, paths[1..])
  }

  lemma {:induction false} ConcatMapAppend<T>(f: string -> seq<T>, a: seq<string>, b: seq<string>)
    ensures ConcatMap(f, a + b) == ConcatMap(f, a) + ConcatMap(f, b)
  {
    if a == [] {
      assert a + b == b;
    } else {
      assert (a + b)[0] == a[0];
      assert (a + b)[1..] == a[1..] + b;
      ConcatMapAppend(f, a[1..], b);
    }
  }

  lemma ConcatMapSingle<T>(f: string -> seq<T>, path: string)
    ensures ConcatMap(f, [path]) == f(path)
  {
    assert [path][1..] == [];
  }

  function Contributions(svc: Services, fs: set<string>): string -> seq<Document> {
    path => Contribution(svc, fs, path)
  }

  function FailuresOf(svc: Services, fs: set<string>): string -> seq<(string, string)> {
    path => FailureOf(svc, fs, path)
  }

  /** The documents of each file, in order. */
  function Produced(svc: Services, fs: set<string>, paths: seq<string>): seq<Document> {
    ConcatMap(Contributions(svc, fs), paths)
  }

  /** The failures of each file, in order. */
  function Failures(svc: Services, fs: set<string>, paths: seq<string>): seq<(string, string)> {
    ConcatMap(FailuresOf(svc, fs), paths)
  }

  lemma ProducedAppend(svc: Services, fs: set<string>, a: seq<string>, b: seq<string>)
    ensures Produced(svc, fs, a + b) == Produced(svc, fs, a) + Produced(svc, fs, b)
  {
    ConcatMapAppend(Contributions(svc, fs), a, b);
  }

  lemma FailuresAppend(svc: Services, fs: set<string>, a: seq<string>, b: seq<string>)
    ensures Failures(svc, fs, a + b) == Failures(svc, fs, a) + Failures(svc, fs, b)
  {
    ConcatMapAppend(FailuresOf(svc, fs), a, b);
  }

  /** The batch is the concatenation, in input order, of every successful file's chunks,
      and the failure list holds exactly the files that raised, in order. */
  lemma {:induction false} ProcessMultiplePdfsIsConcat(svc: Services, fs: set<string>, paths: seq<string>)
    ensures ProcessMultiplePdfs(svc, fs, paths) == Batch(Produced(svc, fs, paths), Failures(svc, fs, paths))
  {
    if paths != [] {
      var init := paths[..|paths| - 1];
      var last := paths[|paths| - 1];
      ProcessMultiplePdfsIsConcat(svc, fs, init);
      assert paths == init + [last];
      ProducedAppend(svc, fs, init, [last]);
      FailuresAppend(svc, fs, init, [last]);
      ConcatMapSingle(Contributions(svc, fs), last);
      ConcatMapSingle(FailuresOf(svc, fs), last);
    }
  }

  /** Processing a list is processing its two halves and joining the results. */
  lemma ProcessMultiplePdfsAppend(svc: Services, fs: set<string>, a: seq<string>, b: seq<string>)
    ensures ProcessMultiplePdfs(svc, fs, a + b).documents ==
      ProcessMultiplePdfs(svc, fs, a).documents + ProcessMultiplePdfs(svc, fs, b).documents
    ensures ProcessMultiplePdfs(svc, fs, a + b).failed ==
      ProcessMultiplePdfs(svc, fs, a).failed + ProcessMultiplePdfs(svc, fs, b).failed
  {
    ProcessMultiplePdfsIsConcat(svc, fs, a + b);
    ProcessMultiplePdfsIsConcat(svc, fs, a);
    ProcessMultiplePdfsIsConcat(svc, fs, b);
    ProducedAppend(svc, fs, a, b);
    FailuresAppend(svc, fs, a, b);
  }

  /** The `os.walk` listing: each directory visited and the file names in it. */
  type Walk = seq<(string, seq<string>)>

  function PdfsIn(root: string, files: seq<string>): (r: seq<string>)
    ensures |r| <= |files|
  {
    if files == [] then []
    else
      var rest := PdfsIn(root, files[1..]);
      if HasPdfExtension(files[0]) then [PathJoin(root, files[0])] + rest else rest
  }

  /** The PDF paths `process_folder` collects, in walk order. */
  function CollectPdfs(walk: Walk): seq<string> {
    if walk == [] then [] else PdfsIn(walk[0].0, walk[0].1) + CollectPdfs(walk[1..])
  }

  /** A joined path ends with the name joined. */
  lemma JoinEndsWith(root: string, f: string)
    ensures EndsWith(PathJoin(root, f), f)
  {
    var r := PathJoin(root, f);
    assert r[|r| - |f|..] == f;
  }

  lemma HasPdfExtensionOfSuffix(s: string, f: string)
    requires EndsWith(s, f) && HasPdfExtension(f)
    ensures HasPdfExtension(s)
  {
    assert s[|s| - 4..] == f[|f| - 4..];
    assert Lower(s)[|s| - 4..] == Lower(f)[|f| - 4..];
  }

  /** A listed PDF name joined to the directory is a ".pdf" path. */
  predicate JoinedPdf(root: string, files: seq<string>, p: string) {
    exists f :: f in files && HasPdfExtension(f) && p == PathJoin(root, f)
  }

  lemma JoinedPdfCons(root: string, files: seq<string>, p: string)
    requires files != []
    ensures JoinedPdf(root, files, p) <==>
      (HasPdfExtension(files[0]) && p == PathJoin(root, files[0])) || JoinedPdf(root, files[1..], p)
  {
    if JoinedPdf(root, files, p) {
      var f :| f in files && HasPdfExtension(f) && p == PathJoin(root, f);
      if f != files[0] {
        assert f in files[1..];
      }
    }
    if JoinedPdf(root, files[1..], p) {
      var f :| f in files[1..] && HasPdfExtension(f) && p == PathJoin(root, f);
      assert f in files;
    }
  }

  /** A collected path comes from a listed PDF name, and every listed PDF name is
      collected; each collected path passes the ".pdf" test. */
  lemma {:induction false} PdfsInMembers(root: string, files: seq<string>)
    ensures forall p :: p in PdfsIn(root, files) ==> HasPdfExtension(p)
    ensures forall p :: p in PdfsIn(root, files) <==> JoinedPdf(root, files, p)
  {
    if files != [] {
      PdfsInMembers(root, files[1..]);
      var rest := PdfsIn(root, files[1..]);
      if HasPdfExtension(files[0]) {
        JoinEndsWith(root, files[0]);
        HasPdfExtensionOfSuffix(PathJoin(root, files[0]), files[0]);
        assert PdfsIn(root, files) == [PathJoin(root, files[0])] + rest;
      } else {
        assert PdfsIn(root, files) == rest;
      }
      forall p ensures p in PdfsIn(root, files) <==> JoinedPdf(root, files, p) {
        JoinedPdfCons(root, files, p);
      }
    }
  }

  /** `process_folder` collects exactly the joined paths of listed names ending in ".pdf",
      so none of them is refused as "not a PDF". */
  lemma {:induction false} CollectPdfsMembers(walk: Walk)
    ensures forall p :: p in CollectPdfs(walk) ==> HasPdfExtension(p)
    ensures forall p :: p in CollectPdfs(walk) <==>
      exists i :: 0 <= i < |walk| && JoinedPdf(walk[i].0, walk[i].1, p)
  {
    if walk != [] {
      CollectPdfsMembers(walk[1..]);
      PdfsInMembers(walk[0].0, walk[0].1);
      forall p ensures p in CollectPdfs(walk) <==>
        exists i :: 0 <= i < |walk| && JoinedPdf(walk[i].0, walk[i].1, p)
      {
        if p in CollectPdfs(walk[1..]) {
          var i :| 0 <= i < |walk[1..]| && JoinedPdf(walk[1..][i].0, walk[1..][i].1, p);
          assert walk[i + 1] == walk[1..][i];
        }
        if exists i :: 0 <= i < |walk| && JoinedPdf(walk[i].0, walk[i].1, p) {
          var i :| 0 <= i < |walk| && JoinedPdf(walk[i].0, walk[i].1, p);
          if i > 0 {
            assert walk[1..][i - 1] == walk[i];
          }
        }
      }
    }
  }

  datatype FolderError = NotADirectory(path: string)

  /** `process_folder(folder)`: `dirs` are the existing directories, `walk` what
      `os.walk(folder)` lists. */
  function ProcessFolder(svc: Services, fs: set<string>, dirs: set<string>, walk: Walk, folder: string)
    : (r: Result<seq<Document>, FolderError>)
    ensures folder !in dirs <==> r == Failure(NotADirectory(folder))
    ensures folder in dirs && CollectPdfs(walk) == [] ==> r == Success([])
    ensures r.Success? ==> r.value == Produced(svc, fs, CollectPdfs(walk))
  {
    if folder !in dirs then Failure(NotADirectory(folder))
    else
      var pdfs := CollectPdfs(walk);
      if pdfs == [] then Success([])
      else
        ProcessMultiplePdfsIsConcat(svc, fs, pdfs);
        Success(ProcessMultiplePdfs(svc, fs, pdfs).documents)
  }

  /** No file collected from a folder is rejected for its extension. */
  lemma FolderNeverRejectsExtension(svc: Services, fs: set<string>, walk: Walk)
    ensures forall p :: p in CollectPdfs(walk) ==>
      ProcessPdf(svc, fs, p).result != Failure(NotAPdf(p))
  {
    CollectPdfsMembers(walk);
    forall p | p in CollectPdfs(walk)
      ensures ProcessPdf(svc, fs, p).result != Failure(NotAPdf(p))
    {
      PdfPassesExtensionCheck(svc, fs, p);
    }
  }

  lemma PdfPassesExtensionCheck(svc: Services, fs: set<string>, p: string)
    requires HasPdfExtension(p)
    ensures ProcessPdf(svc, fs, p).result != Failure(NotAPdf(p))
  {
  }
}
