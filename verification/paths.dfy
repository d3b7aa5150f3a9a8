/** The three `os.path` operations the modelled code uses, for POSIX paths ('/' is the
    only separator). */
module Paths {

  /** `s.rfind(c)`: the last position holding `c`, or -1. */
  function LastIndexOf(s: string, c: char): (i: int)
    ensures -1 <= i < |s|
    ensures i >= 0 ==> s[i] == c
    ensures forall j :: i < j < |s| ==> s[j] != c
  {
    if |s| == 0 then -1
    else if s[|s| - 1] == c then |s| - 1
    else LastIndexOf(s[..|s| - 1], c)
  }

  /** The last occurrence is determined by the characterisation above. */
  lemma LastIndexOfUnique(s: string, c: char, i: int)
    requires -1 <= i < |s| && (i >= 0 ==> s[i] == c)
    requires forall j :: i < j < |s| ==> s[j] != c
    ensures LastIndexOf(s, c) == i
  {
  }

  /** Appending text without `c` does not move the last `c`. */
  lemma LastIndexOfAppend(s: string, t: string, c: char)
    requires forall j :: 0 <= j < |t| ==> t[j] != c
    ensures LastIndexOf(s + t, c) == LastIndexOf(s, c)
  {
    LastIndexOfUnique(s + t, c, LastIndexOf(s, c));
  }

  /** `os.path.basename(p)`: everything after the last '/'. */
  function Basename(p: string): (r: string)
    ensures forall j :: 0 <= j < |r| ==> r[j] != '/'
    ensures |r| <= |p| && r == p[|p| - |r|..]
    ensures |r| < |p| ==> p[|p| - |r| - 1] == '/'
  {
    p[LastIndexOf(p, '/') + 1..]
  }

  /** `os.path.join(a, b)`. */
  function PathJoin(a: string, b: string): (r: string)
    ensures |b| > 0 && b[0] == '/' ==> r == b
    ensures !(|b| > 0 && b[0] == '/') ==> r == a + (if a == [] || a[|a| - 1] == '/' then "" else "/") + b
  {
    if |b| > 0 && b[0] == '/' then b
    else if a == [] || a[|a| - 1] == '/' then a + b
    else a + "/" + b
  }

  /** The base name of a joined path is the joined name when the name has no '/'. */
  lemma BasenameOfJoin(a: string, b: string)
    requires forall j :: 0 <= j < |b| ==> b[j] != '/'
    requires |b| > 0
    ensures Basename(PathJoin(a, b)) == b
  {
    var r := PathJoin(a, b);
    var sep := if a == [] || a[|a| - 1] == '/' then "" else "/";
    assert r == (a + sep) + b;
    LastIndexOfAppend(a + sep, b, '/');
    if sep == "/" {
      assert LastIndexOf(a + sep, '/') == |a|;
    } else if a != [] {
      assert LastIndexOf(a, '/') == |a| - 1;
    }
  }

  /** A character other than '.' occurs in `p[from..to]`. */
  predicate HasNonDot(p: string, from: int, to: int)
    requires 0 <= from && to <= |p|
  {
    exists i :: from <= i < to && p[i] != '.'
  }

  /** `os.path.splitext(p)`: the extension starts at the last '.' after the last '/',
      provided that dot is not part of a run of leading dots of the last component. */
  function SplitExt(p: string): (r: (string, string))
    ensures r.0 + r.1 == p
    ensures r.1 == [] || (r.1[0] == '.' && forall j :: 1 <= j < |r.1| ==> r.1[j] != '.' && r.1[j] != '/')
    ensures r.1 != [] <==> ExtensionDot(p)
  {
    var sepIndex := LastIndexOf(p, '/');
    var dotIndex := LastIndexOf(p, '.');
    if dotIndex > sepIndex && HasNonDot(p, sepIndex + 1, dotIndex) then (p[..dotIndex], p[dotIndex..])
    else (p, "")
  }

  /** The last component of `p` holds a '.' with a character other than '.' before it in
      that component: the condition under which `splitext` finds an extension. */
  predicate ExtensionDot(p: string) {
    exists i :: LastIndexOf(p, '/') < i < |p| && p[i] == '.' && HasNonDot(p, LastIndexOf(p, '/') + 1, i)
  }

  /** The converse of the split: a root whose last component has a character other than
      '.', followed by a dotted extension free of '.' and '/', splits back into the two. */
  lemma SplitExtOfDotted(root: string, ext: string)
    requires |ext| > 0 && ext[0] == '.' && Plain(ext[1..])
    requires HasNonDot(root, LastIndexOf(root, '/') + 1, |root|)
    ensures SplitExt(root + ext) == (root, ext)
  {
    var p := root + ext;
    DottedHasNoSlash(ext);
    LastIndexOfAppend(root, ext, '/');
    LastDotOfDotted(root, ext);
    var sepIndex := LastIndexOf(root, '/');
    var w :| sepIndex + 1 <= w < |root| && root[w] != '.';
    assert p[w] == root[w];
    assert HasNonDot(p, sepIndex + 1, |root|);
    assert p[..|root|] == root && p[|root|..] == ext;
  }

  lemma DottedHasNoSlash(ext: string)
    requires |ext| > 0 && ext[0] == '.' && Plain(ext[1..])
    ensures forall j :: 0 <= j < |ext| ==> ext[j] != '/'
  {
    forall j | 1 <= j < |ext| ensures ext[j] != '/' {
      assert ext[j] == ext[1..][j - 1];
    }
  }

  lemma LastDotOfDotted(root: string, ext: string)
    requires |ext| > 0 && ext[0] == '.' && Plain(ext[1..])
    ensures LastIndexOf(root + ext, '.') == |root|
  {
    var p := root + ext;
    forall j | |root| < j < |p| ensures p[j] != '.' {
      assert p[j] == ext[1..][j - |root| - 1];
    }
    LastIndexOfUnique(p, '.', |root|);
  }

  /** A root whose last component has a character other than '.' keeps ".pdf" as its
      extension. */
  lemma SplitExtOfPdf(root: string)
    requires HasNonDot(root, LastIndexOf(root, '/') + 1, |root|)
    ensures SplitExt(root + ".pdf") == (root, ".pdf")
  {
    var ext := ".pdf";
    PlainPdf();
    assert ext[1..] == "pdf";
    SplitExtOfDotted(root, ext);
  }

  lemma PlainPdf()
    ensures Plain("pdf")
  {
    var t := "pdf";
    forall j | 0 <= j < |t| ensures t[j] != '.' && t[j] != '/' {
      assert j == 0 || j == 1 || j == 2;
    }
  }

  /** `splitext("report.pdf") == ("report", ".pdf")`. */
  lemma SplitExtReport()
    ensures SplitExt("report.pdf") == ("report", ".pdf")
  {
    assert "report"[0] != '.';
    assert ".pdf"[1..] == "pdf";
    assert LastIndexOf("report", '/') == -1;
    SplitExtOfDotted("report", ".pdf");
    assert "report" + ".pdf" == "report.pdf";
  }

  /** Characters that are neither '.' nor '/'. */
  predicate Plain(t: string) {
    forall j :: 0 <= j < |t| ==> t[j] != '.' && t[j] != '/'
  }

  /** Inserting plain text between the root and the extension keeps the extension. */
  lemma SplitExtInsert(p: string, t: string)
    requires Plain(t)
    ensures SplitExt(SplitExt(p).0 + t + SplitExt(p).1).1 == SplitExt(p).1
    ensures SplitExt(SplitExt(p).0 + t + SplitExt(p).1).0 == SplitExt(p).0 + t
  {
    if SplitExt(p).1 == [] {
      assert SplitExt(p).0 + t + SplitExt(p).1 == p + t;
      InsertNoExt(p, t);
    } else {
      InsertExt(p, t);
    }
  }

  lemma InsertNoExt(p: string, t: string)
    requires Plain(t)
    requires SplitExt(p).1 == []
    ensures SplitExt(p + t) == (p + t, "")
  {
    var q := p + t;
    var sepIndex := LastIndexOf(p, '/');
    var dotIndex := LastIndexOf(p, '.');
    LastIndexOfAppend(p, t, '/');
    LastIndexOfAppend(p, t, '.');
    if dotIndex > sepIndex {
      assert !HasNonDot(p, sepIndex + 1, dotIndex);
      assert forall i :: sepIndex + 1 <= i < dotIndex ==> q[i] == p[i];
      assert !HasNonDot(q, sepIndex + 1, dotIndex);
    }
  }

  lemma InsertExt(p: string, t: string)
    requires Plain(t)
    requires SplitExt(p).1 != []
    ensures SplitExt(SplitExt(p).0 + t + SplitExt(p).1) == (SplitExt(p).0 + t, SplitExt(p).1)
  {
    var root := SplitExt(p).0;
    var ext := SplitExt(p).1;
    var sepIndex := LastIndexOf(p, '/');
    var dotIndex := LastIndexOf(p, '.');
    assert dotIndex > sepIndex && HasNonDot(p, sepIndex + 1, dotIndex);
    assert root == p[..dotIndex] && ext == p[dotIndex..];
    var w := root + t;
    var q := w + ext;
    assert root + t + ext == q;
    var tail := ext[1..];
    assert Plain(tail);
    LastIndexOfSlash(p, root, t, ext, sepIndex);
    assert q == (w + ext[..1]) + tail;
    LastIndexOfAppend(w + ext[..1], tail, '.');
    assert LastIndexOf(q, '.') == |w|;
    var i :| sepIndex + 1 <= i < dotIndex && p[i] != '.';
    assert q[i] == p[i];
    assert HasNonDot(q, sepIndex + 1, |w|);
    assert q[..|w|] == w && q[|w|..] == ext;
  }

  lemma LastIndexOfSlash(p: string, root: string, t: string, ext: string, sepIndex: int)
    requires p == root + ext && Plain(t) && |ext| > 0 && ext[0] == '.' && Plain(ext[1..])
    requires sepIndex == LastIndexOf(p, '/')
    ensures LastIndexOf(root + t + ext, '/') == sepIndex
  {
    assert forall j :: 0 <= j < |ext| ==> ext[j] != '/' by {
      forall j | 0 <= j < |ext| ensures ext[j] != '/' {
        if j > 0 { assert ext[j] == ext[1..][j - 1]; }
      }
    }
    LastIndexOfAppend(root, ext, '/');
    LastIndexOfAppend(root, t, '/');
    LastIndexOfAppend(root + t, ext, '/');
  }
}
