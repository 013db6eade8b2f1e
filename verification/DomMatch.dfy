/** Self-healing recovery: the one live node that clearly matches a remembered signature. */
module DomMatch {
  import opened Options
  import opened SemanticNodes

  datatype Signature = Signature(role: string, caption: Option<string>, alias: Option<string>, attributes: Attributes)

  const RECOVERY_THRESHOLD: nat := 45

  function Min(a: nat, b: nat): nat {
    if a < b then a else b
  }

  /** Thirtyfold Jaccard similarity of the labels' word sets, truncated; `words` splits on whitespace. */
  function LabelSimilarity(words: string -> set<string>, a: Option<string>, b: Option<string>): nat {
    if a.None? || b.None? then 0
    else if a == b then 30
    else
      var x, y := words(a.value), words(b.value);
      if |x + y| == 0 then 0 else 30 * |x * y| / |x + y|
  }

  function ScoreAgainst(words: string -> set<string>, sig: Signature, candidate: Node): nat {
    var role := if sig.role == candidate.role then 35 else 0;
    var captionScore := LabelSimilarity(words, sig.caption, candidate.caption);
    var alias := if sig.alias.Some? && sig.alias == candidate.alias then 20 else 0;
    Min(role + captionScore + alias + 10 * Min(Agreeing(sig, candidate), 3), 100)
  }

  /** How many remembered attributes the candidate has with the same value. */
  function Agreeing(sig: Signature, candidate: Node): nat {
    if candidate.attributes.None? then 0
    else
      var theirs := candidate.attributes.value;
      |set k | k in sig.attributes && k in theirs && theirs[k] == sig.attributes[k]|
  }

  /** The labels share enough words for `points` of the thirty. */
  predicate Similar(words: string -> set<string>, a: Option<string>, b: Option<string>, points: nat) {
    && a.Some? && b.Some?
    && (a == b ||
        var x, y := words(a.value), words(b.value);
        |x + y| > 0 && points * |x + y| <= 30 * |x * y|)
  }

  lemma Scales(x: nat, y: nat, b: nat)
    requires x <= y
    ensures x * b <= y * b
  {
    assert y * b == x * b + (y - x) * b;
  }

  lemma DivideAtLeast(a: nat, b: nat, points: nat)
    requires b > 0
    ensures a / b >= points <==> a >= points * b
  {
    var q := a / b;
    assert a == q * b + a % b;
    if q >= points {
      Scales(points, q, b);
    } else {
      Scales(q + 1, points, b);
      assert (q + 1) * b == q * b + b;
    }
  }

  lemma SimilarityEarns(words: string -> set<string>, a: Option<string>, b: Option<string>, points: nat)
    requires 0 < points <= 30
    ensures LabelSimilarity(words, a, b) >= points <==> Similar(words, a, b, points)
  {
    if a.Some? && b.Some? && a != b {
      var x, y := words(a.value), words(b.value);
      if |x + y| > 0 {
        DivideAtLeast(30 * |x * y|, |x + y|, points);
      }
    }
  }

  lemma {:induction false} SubsetSize(x: set<string>, y: set<string>)
    requires x <= y
    ensures |x| <= |y|
    decreases |x|
  {
    if x != {} {
      var e :| e in x;
      SubsetSize(x - {e}, y - {e});
    }
  }

  lemma SimilarityIsBounded(words: string -> set<string>, a: Option<string>, b: Option<string>)
    ensures LabelSimilarity(words, a, b) <= 30
  {
    if a.Some? && b.Some? && a != b {
      var x, y := words(a.value), words(b.value);
      SubsetSize(x * y, x + y);
      if |x + y| > 0 {
        DivideAtLeast(30 * |x * y|, |x + y|, 31);
      }
    }
  }

  /**
    What clears the threshold, over all four traits: with the role, any other trait, the label
    counting once a third of the words agree; without it, what the rest must make up for.
   */
  lemma ThresholdOverAllTraits(words: string -> set<string>, sig: Signature, candidate: Node)
    ensures var alias := sig.alias.Some? && sig.alias == candidate.alias;
            var agreeing := Min(Agreeing(sig, candidate), 3);
            ScoreAgainst(words, sig, candidate) >= RECOVERY_THRESHOLD <==>
              if sig.role == candidate.role then
                alias || agreeing >= 1 || Similar(words, sig.caption, candidate.caption, 10)
              else if alias then
                agreeing >= 3 || Similar(words, sig.caption, candidate.caption, 25 - 10 * agreeing)
              else agreeing >= 2 && Similar(words, sig.caption, candidate.caption, 45 - 10 * agreeing)
  {
    SimilarityIsBounded(words, sig.caption, candidate.caption);
    SimilarityEarns(words, sig.caption, candidate.caption, 10);
    var agreeing := Min(Agreeing(sig, candidate), 3);
    if agreeing < 3 {
      SimilarityEarns(words, sig.caption, candidate.caption, 25 - 10 * agreeing);
    }
    if agreeing >= 2 {
      SimilarityEarns(words, sig.caption, candidate.caption, 45 - 10 * agreeing);
    }
  }

  /** What the traits besides the label are worth. */
  function WithoutLabel(sig: Signature, candidate: Node): nat {
    (if sig.role == candidate.role then 35 else 0) +
    (if sig.alias.Some? && sig.alias == candidate.alias then 20 else 0) +
    (if Agreeing(sig, candidate) >= 3 then 30 else 10 * Agreeing(sig, candidate))
  }

  /** Every level of the score, not just the threshold: what the other traits lack, the labels must share. */
  lemma ScoreReaches(words: string -> set<string>, sig: Signature, candidate: Node, level: nat)
    requires 0 < level <= 100
    ensures var rest := WithoutLabel(sig, candidate);
            ScoreAgainst(words, sig, candidate) >= level <==>
              rest >= level || (level - rest <= 30 && Similar(words, sig.caption, candidate.caption, level - rest))
    ensures ScoreAgainst(words, sig, candidate) <= 100
  {
    SimilarityIsBounded(words, sig.caption, candidate.caption);
    var rest := WithoutLabel(sig, candidate);
    if rest < level && level - rest <= 30 {
      SimilarityEarns(words, sig.caption, candidate.caption, level - rest);
    }
  }

  /** The candidate has every trait the other has, and as similar a label. */
  ghost predicate AtLeastAsClose(words: string -> set<string>, sig: Signature, a: Node, b: Node) {
    && (sig.role == b.role ==> sig.role == a.role)
    && (sig.alias.Some? && sig.alias == b.alias ==> sig.alias == a.alias)
    && Agreeing(sig, b) <= Agreeing(sig, a)
    && (forall points :: 0 < points <= 30 && Similar(words, sig.caption, b.caption, points) ==>
          Similar(words, sig.caption, a.caption, points))
  }

  lemma CloserLabelEarnsMore(words: string -> set<string>, sig: Signature, a: Node, b: Node)
    requires AtLeastAsClose(words, sig, a, b)
    ensures LabelSimilarity(words, sig.caption, b.caption) <= LabelSimilarity(words, sig.caption, a.caption)
  {
    var points := LabelSimilarity(words, sig.caption, b.caption);
    SimilarityIsBounded(words, sig.caption, b.caption);
    if points > 0 {
      SimilarityEarns(words, sig.caption, b.caption, points);
      SimilarityEarns(words, sig.caption, a.caption, points);
    }
  }

  /**
    How scores rank: a node that is closer in every trait never scores less, and short of the cap at
    a hundred each further trait is worth its own points.
   */
  lemma CloserNodesScoreHigher(words: string -> set<string>, sig: Signature, a: Node, b: Node)
    requires AtLeastAsClose(words, sig, a, b)
    ensures ScoreAgainst(words, sig, b) <= ScoreAgainst(words, sig, a)
    ensures ScoreAgainst(words, sig, a) < 100 ==>
              ScoreAgainst(words, sig, a) - ScoreAgainst(words, sig, b) >=
              (if sig.role == a.role && sig.role != b.role then 35 else 0) +
              (if sig.alias.Some? && sig.alias == a.alias && sig.alias != b.alias then 20 else 0) +
              10 * (Min(Agreeing(sig, a), 3) - Min(Agreeing(sig, b), 3))
  {
    CloserLabelEarnsMore(words, sig, a, b);
  }

  /** Ten points of label similarity are equal labels or a third of the words of both. */
  lemma MeaningfulOverlapIsAThird(words: string -> set<string>, a: string, b: string)
    ensures LabelSimilarity(words, Some(a), Some(b)) >= 10 <==>
              a == b || (words(a) + words(b) != {} && 3 * |words(a) * words(b)| >= |words(a) + words(b)|)
  {
    SimilarityEarns(words, Some(a), Some(b), 10);
  }

  /** A matching role and a shared word that do not clear the threshold. */
  lemma SharedWordIsNotEnough(words: string -> set<string>, sig: Signature, candidate: Node)
    requires words("pay") == {"pay"} && words("pay with gift card") == {"pay", "with", "gift", "card"}
    requires sig.role == candidate.role && sig.alias.None? && candidate.attributes.None?
    requires sig.caption == Some("pay") && candidate.caption == Some("pay with gift card")
    ensures words(sig.caption.value) * words(candidate.caption.value) != {}
    ensures ScoreAgainst(words, sig, candidate) == 42 < RECOVERY_THRESHOLD
  {
    var x, y := {"pay"}, {"pay", "with", "gift", "card"};
    assert x * y == {"pay"} && x + y == y && |y| == 4;
    assert "pay" in x * y;
  }

  // ---- choosing the match ----

  type Scored = (nat, nat)   // position of the node, its score

  /** The position of the only highest score, when it clears the threshold. */
  ghost predicate ClearWinner(scores: seq<nat>, i: nat) {
    && i < |scores| && scores[i] >= RECOVERY_THRESHOLD
    && forall j :: 0 <= j < |scores| && j != i ==> scores[j] < scores[i]
  }

  /** The candidates that clear the threshold, in document order. */
  function Candidates(scores: seq<nat>): seq<Scored>
    decreases |scores|
  {
    if scores == [] then []
    else
      var init, last := Candidates(scores[..|scores| - 1]), |scores| - 1;
      if scores[last] >= RECOVERY_THRESHOLD then init + [(last, scores[last])] else init
  }

  ghost predicate Descending(s: seq<Scored>) {
    forall i, j :: 0 <= i < j < |s| ==> s[i].1 >= s[j].1
  }

  /** Takes the head unless another entry ties with it. */
  function Pick(sorted: seq<Scored>): Option<nat> {
    if sorted == [] || (exists i :: 1 <= i < |sorted| && sorted[i].1 == sorted[0].1) then None
    else Some(sorted[0].0)
  }

  lemma {:induction false} CandidatesAre(scores: seq<nat>)
    ensures forall i :: 0 <= i < |scores| && scores[i] >= RECOVERY_THRESHOLD ==> (i, scores[i]) in Candidates(scores)
    ensures forall c <- Candidates(scores) :: c.0 < |scores| && c.1 == scores[c.0] && c.1 >= RECOVERY_THRESHOLD
    ensures forall i, j :: 0 <= i < j < |Candidates(scores)| ==> Candidates(scores)[i].0 != Candidates(scores)[j].0
    decreases |scores|
  {
    if scores != [] {
      var last := |scores| - 1;
      CandidatesAre(scores[..last]);
      var init := Candidates(scores[..last]);
      forall i | 0 <= i < |scores| && scores[i] >= RECOVERY_THRESHOLD
        ensures (i, scores[i]) in Candidates(scores)
      {
        if i == last {
          assert Candidates(scores)[|init|] == (last, scores[last]);
        } else {
          assert scores[..last][i] == scores[i];
        }
      }
    }
  }

  ghost predicate Permutation(a: seq<Scored>, b: seq<Scored>) {
    multiset(a) == multiset(b)
  }

  lemma SameElements(a: seq<Scored>, b: seq<Scored>, x: Scored)
    requires Permutation(a, b)
    ensures x in a <==> x in b
  {
    assert x in a <==> x in multiset(a);
    assert x in b <==> x in multiset(b);
  }

  lemma {:induction false} PermutationKeepsDistinct(a: seq<Scored>, b: seq<Scored>)
    requires Permutation(a, b)
    requires forall i, j :: 0 <= i < j < |a| ==> a[i] != a[j]
    ensures forall i, j :: 0 <= i < j < |b| ==> b[i] != b[j]
  {
    forall i, j | 0 <= i < j < |b|
      ensures b[i] != b[j]
    {
      if b[i] == b[j] {
        var x := b[i];
        assert b == b[..i] + [x] + b[i + 1..j] + [x] + b[j + 1..];
        assert multiset(b)[x] >= 2;
        OnceOnly(a, x);
      }
    }
  }

  lemma {:induction false} OnceOnly(a: seq<Scored>, x: Scored)
    requires forall i, j :: 0 <= i < j < |a| ==> a[i] != a[j]
    ensures multiset(a)[x] <= 1
    decreases |a|
  {
    if a != [] {
      var last := |a| - 1;
      OnceOnly(a[..last], x);
      assert a == a[..last] + [a[last]];
      if a[last] == x {
        assert x !in a[..last];
        assert x !in multiset(a[..last]);
      }
    }
  }

  /**
    Whatever order an unstable sort leaves ties in: the pick from any descending permutation of the
    candidates is a node exactly when it is the strict, unique best with at least the threshold.
   */
  lemma AnySortPicksTheClearWinner(scores: seq<nat>, sorted: seq<Scored>, i: nat)
    requires Permutation(Candidates(scores), sorted) && Descending(sorted)
    ensures Pick(sorted) == Some(i) <==> ClearWinner(scores, i)
  {
    var candidates := Candidates(scores);
    CandidatesAre(scores);
    PermutationKeepsDistinct(candidates, sorted);
    forall k | 0 <= k < |sorted|
      ensures sorted[k].0 < |scores| && sorted[k].1 == scores[sorted[k].0] && sorted[k].1 >= RECOVERY_THRESHOLD
    {
      SameElements(candidates, sorted, sorted[k]);
      assert sorted[k] in sorted;
    }
    if Pick(sorted) == Some(i) {
      PickedIsWinner(scores, sorted, i);
    }
    if ClearWinner(scores, i) {
      SameElements(candidates, sorted, (i, scores[i]));
      var k :| 0 <= k < |sorted| && sorted[k] == (i, scores[i]);
      WinnerIsFirst(scores, sorted, i, k);
    }
  }

  lemma PickedIsWinner(scores: seq<nat>, sorted: seq<Scored>, i: nat)
    requires Permutation(Candidates(scores), sorted) && Descending(sorted) && Pick(sorted) == Some(i)
    requires forall k :: 0 <= k < |sorted| ==>
               sorted[k].0 < |scores| && sorted[k].1 == scores[sorted[k].0] && sorted[k].1 >= RECOVERY_THRESHOLD
    ensures ClearWinner(scores, i)
  {
    CandidatesAre(scores);
    forall j | 0 <= j < |scores| && j != i
      ensures scores[j] < scores[i]
    {
      if scores[j] >= RECOVERY_THRESHOLD {
        SameElements(Candidates(scores), sorted, (j, scores[j]));
        var k :| 0 <= k < |sorted| && sorted[k] == (j, scores[j]);
        assert k != 0;
      }
    }
  }

  lemma LowerThanWinner(scores: seq<nat>, i: nat, other: Scored)
    requires ClearWinner(scores, i) && other != (i, scores[i])
    requires other.0 < |scores| && other.1 == scores[other.0]
    ensures other.1 < scores[i]
  {
    assert other == (other.0, other.1);
  }

  lemma WinnerIsFirst(scores: seq<nat>, sorted: seq<Scored>, i: nat, k: nat)
    requires ClearWinner(scores, i) && Descending(sorted)
    requires k < |sorted| && sorted[k] == (i, scores[i])
    requires forall a, b :: 0 <= a < b < |sorted| ==> sorted[a] != sorted[b]
    requires forall m :: 0 <= m < |sorted| ==> sorted[m].0 < |scores| && sorted[m].1 == scores[sorted[m].0]
    ensures Pick(sorted) == Some(i)
  {
    forall m | 0 <= m < |sorted| && m != k
      ensures sorted[m].1 < scores[i]
    {
      LowerThanWinner(scores, i, sorted[m]);
    }
  }

  // ---- the method ----

  function InsertAt(s: seq<Scored>, at: nat, x: Scored): seq<Scored>
    requires at <= |s|
  {
    s[..at] + [x] + s[at..]
  }

  lemma InsertKeeps(prefix: seq<Scored>, s: seq<Scored>, at: nat, x: Scored)
    requires Permutation(prefix, s) && at <= |s|
    ensures Permutation(prefix + [x], InsertAt(s, at, x))
  {
    assert s == s[..at] + s[at..];
  }

  lemma InsertDescends(s: seq<Scored>, at: nat, x: Scored)
    requires Descending(s) && at <= |s|
    requires forall j :: 0 <= j < at ==> s[j].1 >= x.1
    requires at < |s| ==> s[at].1 < x.1
    ensures Descending(InsertAt(s, at, x))
  {
    var t := InsertAt(s, at, x);
    forall i, j | 0 <= i < j < |t|
      ensures t[i].1 >= t[j].1
    {
      assert at < j ==> s[at].1 >= s[j - 1].1;
    }
  }

  /** How many leading entries are at least as high. */
  method FindSlot(s: seq<Scored>, x: Scored) returns (at: nat)
    ensures at <= |s| && (forall j :: 0 <= j < at ==> s[j].1 >= x.1) && (at < |s| ==> s[at].1 < x.1)
  {
    at := 0;
    while at < |s| && s[at].1 >= x.1
      invariant at <= |s| && forall j :: 0 <= j < at ==> s[j].1 >= x.1
    {
      at := at + 1;
    }
  }

  /** One descending order; ties may come out either way. */
  method SortDescending(list: seq<Scored>) returns (sorted: seq<Scored>)
    ensures Permutation(list, sorted) && Descending(sorted)
  {
    sorted := [];
    for i := 0 to |list|
      invariant Permutation(list[..i], sorted) && Descending(sorted)
    {
      var at := FindSlot(sorted, list[i]);
      InsertKeeps(list[..i], sorted, at, list[i]);
      InsertDescends(sorted, at, list[i]);
      assert list[..i + 1] == list[..i] + [list[i]];
      sorted := InsertAt(sorted, at, list[i]);
    }
    assert list[..|list|] == list;
  }

  function Scores(words: string -> set<string>, sig: Signature, nodes: seq<Node>): seq<nat> {
    seq(|nodes|, i requires 0 <= i < |nodes| => ScoreAgainst(words, sig, nodes[i]))
  }

  /** `cached` is the signature remembered under the stable key, if any. */
  method FindBestMatch(words: string -> set<string>, cached: Option<Signature>, nodes: seq<Node>)
    returns (best: Option<nat>)
    ensures cached.None? ==> best.None?
    ensures cached.Some? ==> forall i: nat :: best == Some(i) <==> ClearWinner(Scores(words, cached.value, nodes), i)
  {
    if cached.None? {
      return None;
    }
    var sig := cached.value;
    ghost var scores := Scores(words, sig, nodes);
    var scored: seq<Scored> := [];
    for n := 0 to |nodes|
      invariant scored == Candidates(scores[..n])
    {
      var score := ScoreAgainst(words, sig, nodes[n]);
      assert scores[..n + 1][..n] == scores[..n];
      if score >= RECOVERY_THRESHOLD {
        scored := scored + [(n, score)];
      }
    }
    assert scores[..|nodes|] == scores;
    var sorted := SortDescending(scored);
    forall i: nat
      ensures Pick(sorted) == Some(i) <==> ClearWinner(scores, i)
    {
      AnySortPicksTheClearWinner(scores, sorted, i);
    }
    if sorted == [] {
      return None;
    }
    var tied := 1;
    for k := 1 to |sorted|
      invariant tied >= 1
      invariant tied > 1 <==> exists m :: 1 <= m < k && sorted[m].1 == sorted[0].1
    {
      if sorted[k].1 == sorted[0].1 {
        tied := tied + 1;
      }
    }
    return if tied > 1 then None else Some(sorted[0].0);
  }
}
