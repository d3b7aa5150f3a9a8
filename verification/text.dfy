/** The few Python string operations the modelled code relies on, over `seq<char>`. */
module Text {

  /** `sep.join(xs)`. */
  function Join(xs: seq<string>, sep: string): (r: string)
    decreases |xs|
  {
    if |xs| == 0 then ""
    else if |xs| == 1 then xs[0]
    else Join(xs[..|xs| - 1], sep) + sep + xs[|xs| - 1]
  }

  /** Total length of the pieces of `xs`. */
  function TotalLength(xs: seq<string>): nat
  {
    if |xs| == 0 then 0 else TotalLength(xs[..|xs| - 1]) + |xs[|xs| - 1]|
  }

  /** `sep.join` puts exactly one separator between consecutive pieces and nothing else. */
  lemma {:induction false} JoinLength(xs: seq<string>, sep: string)
    ensures |Join(xs, sep)| == TotalLength(xs) + (if |xs| == 0 then 0 else (|xs| - 1) * |sep|)
    decreases |xs|
  {
    if |xs| > 1 {
      var ys := xs[..|xs| - 1];
      JoinLength(ys, sep);
      assert TotalLength(xs) == TotalLength(ys) + |xs[|xs| - 1]|;
      assert (|xs| - 1) * |sep| == (|ys| - 1) * |sep| + |sep| by {
        MulStep(|ys| - 1, |sep|);
      }
    }
  }

  lemma MulStep(a: nat, b: nat)
    ensures (a + 1) * b == a * b + b
  {
  }

  /** Appending one piece to a non-empty list appends a separator and the piece. */
  lemma JoinSnoc(xs: seq<string>, x: string, sep: string)
    requires |xs| > 0
    ensures Join(xs + [x], sep) == Join(xs, sep) + sep + x
  {
    assert (xs + [x])[..|xs + [x]| - 1] == xs;
  }

  /** `s.startswith(prefix)`. */
  predicate StartsWith(s: string, prefix: string) {
    |prefix| <= |s| && s[..|prefix|] == prefix
  }

  /** `s.endswith(suffix)`. */
  predicate EndsWith(s: string, suffix: string) {
    |suffix| <= |s| && s[|s| - |suffix|..] == suffix
  }

  /** `c.lower()` for one character; only ASCII letters are mapped. */
  function LowerChar(c: char): char {
    if 'A' <= c <= 'Z' then (c as int - 'A' as int + 'a' as int) as char else c
  }

  /** `s.lower()`, character by character. */
  function Lower(s: string): (r: string)
    ensures |r| == |s|
    ensures forall i :: 0 <= i < |s| ==> r[i] == LowerChar(s[i])
  {
    seq(|s|, i requires 0 <= i < |s| => LowerChar(s[i]))
  }

  /** `s.lower().endswith('.pdf')`, the PDF test used throughout the repository. */
  predicate HasPdfExtension(s: string) {
    EndsWith(Lower(s), ".pdf")
  }

  /** Any text followed by ".pdf" passes the test. */
  lemma EndsInDotPdf(root: string)
    ensures HasPdfExtension(root + ".pdf")
  {
    var s := root + ".pdf";
    assert Lower(s)[|s| - 4..] == [LowerChar(s[|s| - 4]), LowerChar(s[|s| - 3]), LowerChar(s[|s| - 2]), LowerChar(s[|s| - 1])];
    assert s[|s| - 4..] == ".pdf";
  }

  /** The test depends only on the last four characters, case-insensitively. */
  lemma HasPdfExtensionIff(s: string)
    ensures HasPdfExtension(s) <==>
      |s| >= 4 && LowerChar(s[|s| - 4]) == '.' && LowerChar(s[|s| - 3]) == 'p'
      && LowerChar(s[|s| - 2]) == 'd' && LowerChar(s[|s| - 1]) == 'f'
  {
    if |s| >= 4 {
      var t := Lower(s)[|s| - 4..];
      assert t == [t[0], t[1], t[2], t[3]];
    }
  }

  /** The characters Python's `str.strip()` removes: those `str.isspace` accepts, namely
      tab to carriage return, the four information separators U+001C to U+001F, space,
      NEL, no-break space, the ogham space mark, the spaces U+2000 to U+200A, the line and
      paragraph separators, the narrow no-break space, the medium mathematical space and
      the ideographic space. */
  predicate IsSpace(c: char) {
    || ('\t' <= c <= '\r')
    || ('\U{1C}' <= c <= ' ')
    || c == '\U{85}' || c == '\U{A0}' || c == '\U{1680}'
    || ('\U{2000}' <= c <= '\U{200A}')
    || c == '\U{2028}' || c == '\U{2029}' || c == '\U{202F}' || c == '\U{205F}' || c == '\U{3000}'
  }

  predicate AllSpace(s: string) {
    forall i :: 0 <= i < |s| ==> IsSpace(s[i])
  }

  function StripLeft(s: string): (r: string)
    ensures |r| <= |s| && r == s[|s| - |r|..]
    ensures |r| > 0 ==> !IsSpace(r[0])
    ensures AllSpace(s[..|s| - |r|])
  {
    if |s| > 0 && IsSpace(s[0]) then StripLeft(s[1..]) else s
  }

  function StripRight(s: string): (r: string)
    ensures |r| <= |s| && r == s[..|r|]
    ensures |r| > 0 ==> !IsSpace(r[|r| - 1])
    ensures AllSpace(s[|r|..])
  {
    if |s| > 0 && IsSpace(s[|s| - 1]) then StripRight(s[..|s| - 1]) else s
  }

  /** `s.strip()`: drop leading and trailing whitespace. */
  function Strip(s: string): string {
    StripRight(StripLeft(s))
  }

  /** The stripped text is the input with whitespace-only margins removed, and has no
      whitespace at either end. */
  lemma StripShape(s: string)
    ensures exists i, j ::
              0 <= i <= j <= |s| && Strip(s) == s[i..j] && AllSpace(s[..i]) && AllSpace(s[j..])
    ensures |Strip(s)| > 0 ==> !IsSpace(Strip(s)[0]) && !IsSpace(Strip(s)[|Strip(s)| - 1])
  {
    var l := StripLeft(s);
    var i := |s| - |l|;
    var r := StripRight(l);
    var j := i + |r|;
    assert Strip(s) == s[i..j];
    assert s[j..] == l[|r|..];
    assert AllSpace(s[..i]) && AllSpace(s[j..]);
    if |r| > 0 {
      assert r[0] == l[0];
    }
  }

  /** Stripping twice changes nothing. */
  lemma StripIdempotent(s: string)
    ensures Strip(Strip(s)) == Strip(s)
  {
    var t := Strip(s);
    if |t| > 0 {
      assert StripLeft(t) == t;
    }
  }

  /** The information separators count as blanks: `"\x1fq".strip()` is `"q"`. */
  lemma StripDropsSeparator()
    ensures Strip("\U{1F}q") == "q"
  {
    var q := "q";
    assert !IsSpace(q[0]);
    assert StripLeft(q) == q;
    assert StripRight(q) == q;
    assert IsSpace("\U{1F}q"[0]) && "\U{1F}q"[1..] == q;
  }

  /** `str(n)` for a natural number: decimal digits, no leading zeros. */
  function NatToString(n: nat): (r: string)
    ensures |r| > 0
    ensures forall i :: 0 <= i < |r| ==> '0' <= r[i] <= '9'
    decreases n
  {
    if n < 10 then [Digit(n)] else NatToString(n / 10) + [Digit(n % 10)]
  }

  function Digit(d: nat): (c: char)
    requires d < 10
    ensures '0' <= c <= '9'
  {
    ('0' as int + d) as char
  }

  /** Reads a non-empty string of decimal digits back as a number. */
  function ParseNat(s: string): nat
    requires forall i :: 0 <= i < |s| ==> '0' <= s[i] <= '9'
    decreases |s|
  {
    if |s| == 0 then 0
    else 10 * ParseNat(s[..|s| - 1]) + (s[|s| - 1] as int - '0' as int)
  }

  /** Decimal rendering is read back exactly. */
  lemma {:induction false} ParseNatToString(n: nat)
    ensures ParseNat(NatToString(n)) == n
    decreases n
  {
    if n >= 10 {
      var s := NatToString(n);
      ParseNatToString(n / 10);
      assert s[..|s| - 1] == NatToString(n / 10);
    }
  }

  /** Distinct numbers render differently. */
  lemma NatToStringInjective(m: nat, n: nat)
    requires NatToString(m) == NatToString(n)
    ensures m == n
  {
    ParseNatToString(m);
    ParseNatToString(n);
  }
}
