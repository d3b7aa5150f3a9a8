/** Order-preserving selection from a sequence, the shape of the two list comprehensions
    that filter documents: keep the entries whose paired relevance grade is "yes", and keep
    the non-empty extractions. Each is characterised against an independent reference: the
    elements at an explicit, strictly increasing list of positions. */
module Selection {
  import opened Labels

  /** Strictly increasing positions. */
  ghost predicate Increasing(idx: seq<nat>) {
    forall i, j :: 0 <= i < j < |idx| ==> idx[i] < idx[j]
  }

  /** The elements of `xs` at positions `idx`, in that order. */
  function Pick<T>(xs: seq<T>, idx: seq<nat>): (r: seq<T>)
    requires forall i :: 0 <= i < |idx| ==> idx[i] < |xs|
    ensures |r| == |idx|
    ensures forall i :: 0 <= i < |idx| ==> r[i] == xs[idx[i]]
  {
    seq(|idx|, i requires 0 <= i < |idx| => xs[idx[i]])
  }

  lemma PickSnoc<T>(xs: seq<T>, idx: seq<nat>, p: nat)
    requires forall i :: 0 <= i < |idx| ==> idx[i] < |xs|
    requires p < |xs|
    ensures Pick(xs, idx + [p]) == Pick(xs, idx) + [xs[p]]
  {
  }

  /** `[doc for grade, doc in zip(grades, docs) if grade.binary_score == 'yes']`, over the
      first `n` pairs. */
  function KeepGradedUpTo(grades: seq<Grade>, docs: seq<string>, n: nat): (r: seq<string>)
    requires n <= |grades| && n <= |docs|
    ensures |r| <= n
    ensures forall x :: x in r ==> x in docs[..n]
  {
    if n == 0 then []
    else
      var prefix := KeepGradedUpTo(grades, docs, n - 1);
      assert docs[..n - 1] <= docs[..n];
      prefix + (if grades[n - 1].Score() == "yes" then [docs[n - 1]] else [])
  }

  /** Python's `zip` stops at the shorter list. */
  function ZipLength(grades: seq<Grade>, docs: seq<string>): nat {
    if |grades| <= |docs| then |grades| else |docs|
  }

  /** The documents kept by the relevance filter. */
  function KeepGraded(grades: seq<Grade>, docs: seq<string>): (r: seq<string>)
    ensures |r| <= |docs|
    ensures forall x :: x in r ==> x in docs
  {
    var n := ZipLength(grades, docs);
    assert docs[..n] <= docs;
    KeepGradedUpTo(grades, docs, n)
  }

  /** The positions among the first `n` whose grade is "yes". */
  function YesPositions(grades: seq<Grade>, n: nat): (r: seq<nat>)
    requires n <= |grades|
    ensures forall i :: 0 <= i < |r| ==> r[i] < n
    ensures forall p: nat :: p in r <==> p < n && grades[p] == Yes
    ensures Increasing(r)
  {
    if n == 0 then []
    else YesPositions(grades, n - 1) + (if grades[n - 1] == Yes then [n - 1] else [])
  }

  /** The filter keeps exactly the documents at the "yes" positions of the zipped pairs,
      in their original order. */
  lemma {:induction false} KeepGradedUpToIsPick(grades: seq<Grade>, docs: seq<string>, n: nat)
    requires n <= |grades| && n <= |docs|
    ensures KeepGradedUpTo(grades, docs, n) == Pick(docs, YesPositions(grades, n))
  {
    if n > 0 {
      KeepGradedUpToIsPick(grades, docs, n - 1);
      if grades[n - 1] == Yes {
        PickSnoc(docs, YesPositions(grades, n - 1), n - 1);
      }
    }
  }

  lemma KeepGradedIsPick(grades: seq<Grade>, docs: seq<string>)
    ensures ZipLength(grades, docs) <= |grades|
    ensures KeepGraded(grades, docs) == Pick(docs, YesPositions(grades, ZipLength(grades, docs)))
  {
    KeepGradedUpToIsPick(grades, docs, ZipLength(grades, docs));
  }

  /** The filter result is empty exactly when no zipped pair is graded "yes". */
  lemma KeepGradedEmptyIff(grades: seq<Grade>, docs: seq<string>)
    ensures KeepGraded(grades, docs) == [] <==>
      forall p :: 0 <= p < |grades| && p < |docs| ==> grades[p] == No
  {
    var n := ZipLength(grades, docs);
    KeepGradedIsPick(grades, docs);
    var idx := YesPositions(grades, n);
    if KeepGraded(grades, docs) == [] {
      assert |idx| == 0;
      forall p | 0 <= p < |grades| && p < |docs| ensures grades[p] == No {
        assert p !in idx;
      }
    } else {
      assert idx[0] in idx;
    }
  }

  /** `[doc for doc in outputs if doc]`, over the first `n` outputs. */
  function KeepNonEmptyUpTo(outputs: seq<string>, n: nat): (r: seq<string>)
    requires n <= |outputs|
    ensures |r| <= n
  {
    if n == 0 then []
    else KeepNonEmptyUpTo(outputs, n - 1) + (if outputs[n - 1] != "" then [outputs[n - 1]] else [])
  }

  /** The extractions kept by the knowledge-extraction step. */
  function KeepNonEmpty(outputs: seq<string>): (r: seq<string>)
    ensures |r| <= |outputs|
  {
    KeepNonEmptyUpTo(outputs, |outputs|)
  }

  /** The positions among the first `n` holding a non-empty string. */
  function NonEmptyPositions(outputs: seq<string>, n: nat): (r: seq<nat>)
    requires n <= |outputs|
    ensures forall i :: 0 <= i < |r| ==> r[i] < n
    ensures forall p: nat :: p in r <==> p < n && outputs[p] != ""
    ensures Increasing(r)
  {
    if n == 0 then []
    else NonEmptyPositions(outputs, n - 1) + (if outputs[n - 1] != "" then [n - 1] else [])
  }

  lemma {:induction false} KeepNonEmptyUpToIsPick(outputs: seq<string>, n: nat)
    requires n <= |outputs|
    ensures KeepNonEmptyUpTo(outputs, n) == Pick(outputs, NonEmptyPositions(outputs, n))
  {
    if n > 0 {
      var prev := NonEmptyPositions(outputs, n - 1);
      KeepNonEmptyUpToIsPick(outputs, n - 1);
      if outputs[n - 1] != "" {
        assert NonEmptyPositions(outputs, n) == prev + [n - 1];
        PickSnoc(outputs, prev, n - 1);
      } else {
        assert NonEmptyPositions(outputs, n) == prev;
      }
    }
  }

  /** Extraction keeps exactly the non-empty outputs, in their original order, and only
      those. */
  lemma KeepNonEmptyIsPick(outputs: seq<string>)
    ensures KeepNonEmpty(outputs) == Pick(outputs, NonEmptyPositions(outputs, |outputs|))
    ensures forall x :: x in KeepNonEmpty(outputs) <==> x in outputs && x != ""
  {
    var idx := NonEmptyPositions(outputs, |outputs|);
    KeepNonEmptyUpToIsPick(outputs, |outputs|);
    forall x ensures x in KeepNonEmpty(outputs) <==> x in outputs && x != "" {
      if x in outputs && x != "" {
        var p :| 0 <= p < |outputs| && outputs[p] == x;
        assert p in idx;
        var j :| 0 <= j < |idx| && idx[j] == p;
        assert KeepNonEmpty(outputs)[j] == x;
      }
    }
  }
}
