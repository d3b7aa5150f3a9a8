/** The legacy UI's file manager: listing, naming and saving uploaded PDFs under the raw
    data directory. The directory's contents are a set of paths given as a parameter. */
module FileManager {
  import opened Wrappers
  import opened Text
  import opened Paths

  const RawDataDir: string := "data/raw_data"

  /** `get_raw_data_files`: the listed names whose lower-cased form ends in ".pdf". */
  function GetRawDataFiles(listing: set<string>): (r: set<string>)
    ensures r <= listing
    ensures forall f :: f in r <==> f in listing && EndsWith(Lower(f), ".pdf")
  {
    set f | f in listing && HasPdfExtension(f)
  }

  /** `get_file_path`: the name placed under the raw data directory. */
  function GetFilePath(filename: string): (r: string)
    ensures |filename| > 0 && filename[0] == '/' ==> r == filename
    ensures !(|filename| > 0 && filename[0] == '/') ==> r == RawDataDir + "/" + filename
  {
    PathJoin(RawDataDir, filename)
  }

  /** `is_valid_pdf`: the path exists and ends in ".pdf", ignoring case. */
  predicate IsValidPdf(existing: set<string>, path: string) {
    path in existing && HasPdfExtension(path)
  }

  /** The k-th alternative name: the original root, '_', k in decimal, the original
      extension. */
  function Candidate(name: string, k: nat): string {
    SplitExt(name).0 + "_" + NatToString(k) + SplitExt(name).1
  }

  /** Splitting an alternative name gives back the original extension, behind a root
      that is the original root followed by '_' and the counter. */
  lemma CandidateSplit(name: string, k: nat)
    ensures SplitExt(Candidate(name, k)) == (SplitExt(name).0 + "_" + NatToString(k), SplitExt(name).1)
  {
    var root := SplitExt(name).0;
    var ext := SplitExt(name).1;
    var d := NatToString(k);
    var t := "_" + d;
    assert Plain(t) by {
      assert forall j :: 1 <= j < |t| ==> t[j] == d[j - 1];
    }
    SplitExtInsert(name, t);
    assert root + t + ext == Candidate(name, k);
    assert root + t == root + "_" + d;
  }

  /** Whether a name starts with '/', which decides how `PathJoin` treats it. */
  predicate Absolute(b: string) {
    |b| > 0 && b[0] == '/'
  }

  lemma JoinInjective(b1: string, b2: string)
    requires Absolute(b1) == Absolute(b2)
    requires GetFilePath(b1) == GetFilePath(b2)
    ensures b1 == b2
  {
    if !Absolute(b1) {
      var pre := RawDataDir + "/";
      assert GetFilePath(b1) == pre + b1 && GetFilePath(b2) == pre + b2;
      assert b1 == (pre + b1)[|pre|..];
      assert b2 == (pre + b2)[|pre|..];
    }
  }

  lemma CandidateAbsolute(name: string, k: nat)
    ensures Absolute(Candidate(name, k)) == Absolute(name)
    ensures |Candidate(name, k)| > |name|
  {
    var root := SplitExt(name).0;
    var ext := SplitExt(name).1;
    assert Candidate(name, k) == root + ("_" + NatToString(k) + ext);
    assert name == root + ext;
  }

  /** Distinct counters give distinct paths, and none is the original name's path. */
  lemma CandidatePathsDistinct(name: string, j: nat, k: nat)
    ensures GetFilePath(Candidate(name, j)) != GetFilePath(name)
    ensures GetFilePath(Candidate(name, j)) == GetFilePath(Candidate(name, k)) ==> j == k
  {
    CandidateAbsolute(name, j);
    CandidateAbsolute(name, k);
    if GetFilePath(Candidate(name, j)) == GetFilePath(name) {
      JoinInjective(Candidate(name, j), name);
      assert false;
    }
    if GetFilePath(Candidate(name, j)) == GetFilePath(Candidate(name, k)) {
      JoinInjective(Candidate(name, j), Candidate(name, k));
      CandidateSplit(name, j);
      CandidateSplit(name, k);
      var root := SplitExt(name).0;
      var ext := SplitExt(name).1;
      var dj := NatToString(j);
      var dk := NatToString(k);
      assert SplitExt(Candidate(name, j)).0 == SplitExt(Candidate(name, k)).0;
      assert root + "_" + dj == root + "_" + dk;
      assert dj == (root + "_" + dj)[|root| + 1..];
      assert dk == (root + "_" + dk)[|root| + 1..];
      NatToStringInjective(j, k);
    }
  }

  /** How saving the bytes ends: `open(path, "wb")` itself can raise, before anything is
      created, or the file is created (or truncated) and the write then raises or succeeds. */
  datatype WriteOutcome = Written | OpenFails(message: string) | WriteFails(message: string)

  /** Marking the current path as tried leaves every later alternative untried. */
  lemma NextUntried(name: string, tried: set<string>, path: string, counter: nat)
    requires counter >= 1
    requires counter == 1 ==> path == GetFilePath(name)
    requires counter > 1 ==> path == GetFilePath(Candidate(name, counter - 1))
    requires forall j: nat :: j >= counter ==> GetFilePath(Candidate(name, j)) !in tried
    ensures forall j: nat :: j >= counter + 1 ==> GetFilePath(Candidate(name, j)) !in tried + {path}
    ensures GetFilePath(Candidate(name, counter)) !in tried + {path}
  {
    forall j: nat | j >= counter
      ensures GetFilePath(Candidate(name, j)) != path
    {
      CandidatePathsDistinct(name, j, counter - 1);
    }
  }

  /** `save_uploaded_file`: the original name's path if it is free, otherwise the path of
      the first free alternative name; the file is then opened and written there. An error
      is logged and re-raised. `saved` is the set of existing paths afterwards: a failed
      write leaves the opened file behind. */
  method SaveUploadedFile(existing: set<string>, name: string, outcome: WriteOutcome)
    returns (r: Result<string, string>, chosen: string, saved: set<string>)
    ensures chosen !in existing
    ensures GetFilePath(name) !in existing ==> chosen == GetFilePath(name)
    ensures GetFilePath(name) in existing ==>
      exists k: nat :: k >= 1 && chosen == GetFilePath(Candidate(name, k)) &&
        forall j: nat :: 1 <= j < k ==> GetFilePath(Candidate(name, j)) in existing
    ensures outcome.Written? ==> r == Success(chosen) && saved == existing + {chosen}
    ensures outcome.OpenFails? ==> r == Failure(outcome.message) && saved == existing
    ensures outcome.WriteFails? ==> r == Failure(outcome.message) && saved == existing + {chosen}
  {
    var path := GetFilePath(name);
    var counter: nat := 1;
    ghost var tried: set<string> := {};
    while path in existing
      invariant counter >= 1
      invariant tried <= existing
      invariant path !in tried
      invariant counter == 1 ==> path == GetFilePath(name)
      invariant counter > 1 ==> path == GetFilePath(Candidate(name, counter - 1))
      invariant counter > 1 ==> GetFilePath(name) in existing
      invariant forall j: nat :: 1 <= j < counter - 1 ==> GetFilePath(Candidate(name, j)) in existing
      invariant forall j: nat :: j >= counter ==> GetFilePath(Candidate(name, j)) !in tried
      decreases |existing - tried|
    {
      assert existing - (tried + {path}) < existing - tried by {
        assert path in existing - tried;
      }
      NextUntried(name, tried, path, counter);
      tried := tried + {path};
      path := GetFilePath(Candidate(name, counter));
      counter := counter + 1;
    }
    chosen := path;
    match outcome
    case Written => r, saved := Success(path), existing + {path};
    case OpenFails(m) => r, saved := Failure(m), existing;
    case WriteFails(m) => r, saved := Failure(m), existing + {path};
  }

  /** Every alternative name keeps the uploaded file's extension. */
  lemma CandidateKeepsExtension(name: string, k: nat)
    ensures SplitExt(Candidate(name, k)).1 == SplitExt(name).1
    ensures EndsWith(Candidate(name, k), SplitExt(name).1)
  {
    CandidateSplit(name, k);
  }

  /** A name ending in ".pdf" whose extension Python recognises keeps ending in ".pdf"
      when renamed, so the saved upload is listed again by `GetRawDataFiles`. */
  lemma CandidateStaysPdf(name: string, k: nat)
    requires HasPdfExtension(name)
    requires SplitExt(name).1 != []
    ensures HasPdfExtension(Candidate(name, k))
  {
    var ext := SplitExt(name).1;
    CandidateKeepsExtension(name, k);
    assert name == SplitExt(name).0 + ext;
    assert name[|name| - |ext|..] == ext;
    SharedExtensionIsPdf(name, Candidate(name, k), ext);
  }

  /** A ".pdf" upload whose root ends in a component with a character other than '.' has
      its extension recognised, so every renamed copy of it is listed again. */
  lemma RenamedPdfStaysListed(root: string, k: nat)
    requires HasNonDot(root, LastIndexOf(root, '/') + 1, |root|)
    ensures SplitExt(root + ".pdf") == (root, ".pdf")
    ensures HasPdfExtension(Candidate(root + ".pdf", k))
  {
    SplitExtOfPdf(root);
    RenamedStaysPdf(root + ".pdf", root, k);
  }

  lemma RenamedStaysPdf(name: string, root: string, k: nat)
    requires SplitExt(name) == (root, ".pdf")
    ensures HasPdfExtension(Candidate(name, k))
  {
    assert name == root + ".pdf";
    EndsInDotPdf(root);
    CandidateStaysPdf(name, k);
  }

  /** Two names ending in the same dotted extension are PDFs together. */
  lemma SharedExtensionIsPdf(name: string, c: string, ext: string)
    requires HasPdfExtension(name)
    requires EndsWith(name, ext) && EndsWith(c, ext)
    requires |ext| > 0 && ext[0] == '.' && forall j :: 1 <= j < |ext| ==> ext[j] != '.'
    ensures HasPdfExtension(c)
  {
    var n := |name|;
    HasPdfExtensionIff(name);
    HasPdfExtensionIff(c);
    assert ext[0] == name[n - |ext|];
    assert |ext| >= 4;
    assert ext[|ext| - 4] == name[n - 4];
    assert |ext| == 4;
    assert c[|c| - 4] == ext[0] == name[n - 4];
    assert c[|c| - 3] == ext[1] == name[n - 3];
    assert c[|c| - 2] == ext[2] == name[n - 2];
    assert c[|c| - 1] == ext[3] == name[n - 1];
  }

  /** Python finds no extension in ".pdf", so its alternative names are not PDFs. */
  lemma DotPdfLosesExtension()
    ensures HasPdfExtension(".pdf")
    ensures Candidate(".pdf", 1) == ".pdf_1"
    ensures !HasPdfExtension(Candidate(".pdf", 1))
  {
    assert LastIndexOf(".pdf", '/') == -1;
    LastIndexOfUnique(".pdf", '.', 0);
    assert !HasNonDot(".pdf", 0, 0);
    assert SplitExt(".pdf") == (".pdf", "");
    assert NatToString(1) == "1";
    assert Lower(".pdf_1")[2..] == "df_1";
  }
}
