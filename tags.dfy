/** Tag governance: `triage_tags` and `audit_tags` send the tags to a
    reviewer in consecutive batches of 75 and merge the per-batch answers,
    keeping only the first answer seen for each tag. The reviewer (prompt,
    model and output parser) is an oracle that returns the batch's answers
    or fails; a failure propagates and no partial list is returned. */
module Tags {
  import opened Wrappers

  const BatchSize: nat := 75

  datatype TagSample = TagSample(tag: string, usageCount: int, exampleTitles: seq<string>)

  datatype Action = Keep | Drop | Merge | Rename

  datatype TagDecision = TagDecision(tag: string, action: Action, replacement: Option<string>, rationale: string)

  datatype TagAuditResult = TagAuditResult(tag: string, reason: string)

  function DecisionTag(d: TagDecision): string { d.tag }

  function AuditTag(a: TagAuditResult): string { a.tag }

  // ---------------------------------------------------------------------
  // Batches
  // ---------------------------------------------------------------------

  function Min(a: int, b: int): int {
    if a < b then a else b
  }

  /** The consecutive slices of at most 75 elements, in order. */
  function Batches<T>(xs: seq<T>): (bs: seq<seq<T>>)
    decreases |xs|
  {
    if xs == [] then []
    else [xs[..Min(BatchSize, |xs|)]] + Batches(xs[Min(BatchSize, |xs|)..])
  }

  function Concat<T>(bs: seq<seq<T>>): seq<T> {
    if bs == [] then [] else bs[0] + Concat(bs[1..])
  }

  /** The batches are consecutive slices of the input: joined together they
      give the input back, each holds between 1 and 75 elements, and there
      are `ceil(n / 75)` of them. */
  lemma {:induction false} BatchesPartition<T>(xs: seq<T>)
    ensures Concat(Batches(xs)) == xs
    ensures forall i | 0 <= i < |Batches(xs)| :: 1 <= |Batches(xs)[i]| <= BatchSize
    ensures |Batches(xs)| == (|xs| + BatchSize - 1) / BatchSize
    decreases |xs|
  {
    if xs != [] {
      var m := Min(BatchSize, |xs|);
      BatchesPartition(xs[m..]);
      assert xs[..m] + xs[m..] == xs;
      var bs := Batches(xs);
      assert bs[1..] == Batches(xs[m..]);
    }
  }

  // ---------------------------------------------------------------------
  // First-wins merge
  // ---------------------------------------------------------------------

  /** Some element of `acc` already carries key `k`. */
  predicate HasKey<T>(acc: seq<T>, key: T -> string, k: string) {
    exists i | 0 <= i < |acc| :: key(acc[i]) == k
  }

  /** The merge loop: each answer of `items`, in order, is appended to `acc`
      unless `acc` already holds an answer for its tag. */
  function Merge<T>(acc: seq<T>, items: seq<T>, key: T -> string): seq<T>
  {
    if items == [] then acc
    else
      var prev := Merge(acc, items[..|items| - 1], key);
      var x := items[|items| - 1];
      if HasKey(prev, key, key(x)) then prev else prev + [x]
  }

  /** Reference definition: the answers of `items` that are the first with
      their tag, in order. */
  function FirstOccurrences<T>(items: seq<T>, key: T -> string): seq<T>
  {
    if items == [] then []
    else
      var p := items[..|items| - 1];
      var x := items[|items| - 1];
      FirstOccurrences(p, key) + (if HasKey(p, key, key(x)) then [] else [x])
  }

  /** Merging batch after batch is merging their concatenation. */
  lemma {:induction false} MergeAppend<T>(acc: seq<T>, a: seq<T>, b: seq<T>, key: T -> string)
    ensures Merge(Merge(acc, a, key), b, key) == Merge(acc, a + b, key)
  {
    if b != [] {
      var b' := b[..|b| - 1];
      MergeAppend(acc, a, b', key);
      var y := b[|b| - 1];
      assert (a + b)[..|a + b| - 1] == a + b';
      assert (a + b)[|a + b| - 1] == y;
      var m := Merge(acc, a + b', key);
      assert Merge(acc, a + b, key) == if HasKey(m, key, key(y)) then m else m + [y];
      assert Merge(Merge(acc, a, key), b, key) == if HasKey(m, key, key(y)) then m else m + [y];
    } else {
      assert a + b == a;
    }
  }

  lemma HasKeySnoc<T>(p: seq<T>, x: T, key: T -> string, k: string)
    ensures HasKey(p + [x], key, k) <==> HasKey(p, key, k) || key(x) == k
  {
    var q := p + [x];
    if HasKey(q, key, k) {
      var i :| 0 <= i < |q| && key(q[i]) == k;
      if i < |p| {
        assert q[i] == p[i];
      }
    }
    if HasKey(p, key, k) {
      var i :| 0 <= i < |p| && key(p[i]) == k;
      assert q[i] == p[i];
    }
    assert q[|p|] == x;
  }

  /** The first-wins result carries the same tags as the input. */
  lemma {:induction false} FirstOccurrencesKeys<T>(items: seq<T>, key: T -> string, k: string)
    ensures HasKey(FirstOccurrences(items, key), key, k) <==> HasKey(items, key, k)
  {
    if items != [] {
      var p := items[..|items| - 1];
      var x := items[|items| - 1];
      var fp := FirstOccurrences(p, key);
      FirstOccurrencesKeys(p, key, k);
      assert items == p + [x];
      HasKeySnoc(p, x, key, k);
      if HasKey(p, key, key(x)) {
        assert FirstOccurrences(items, key) == fp;
      } else {
        assert FirstOccurrences(items, key) == fp + [x];
        HasKeySnoc(fp, x, key, k);
      }
    }
  }

  /** The merge loop started from an empty list computes the first
      occurrences. */
  lemma {:induction false} MergeIsFirstOccurrences<T>(items: seq<T>, key: T -> string)
    ensures Merge([], items, key) == FirstOccurrences(items, key)
  {
    if items != [] {
      var p := items[..|items| - 1];
      MergeIsFirstOccurrences(p, key);
      FirstOccurrencesKeys(p, key, key(items[|items| - 1]));
    }
  }

  /** Tags of the result are pairwise distinct, every element is one of the
      input answers, and every input tag is represented. */
  lemma {:induction false} FirstOccurrencesDistinct<T>(items: seq<T>, key: T -> string)
    ensures var r := FirstOccurrences(items, key);
            && (forall i, j | 0 <= i < j < |r| :: key(r[i]) != key(r[j]))
            && (forall x | x in r :: x in items)
            && |r| <= |items|
  {
    if items != [] {
      var p := items[..|items| - 1];
      var x := items[|items| - 1];
      FirstOccurrencesDistinct(p, key);
      var fp := FirstOccurrences(p, key);
      if !HasKey(p, key, key(x)) {
        FirstOccurrencesKeys(p, key, key(x));
        var r := fp + [x];
        forall i | 0 <= i < |fp|
          ensures key(r[i]) != key(x)
        {
          assert r[i] == fp[i];
        }
      }
    }
  }

  /** Every element kept is the first answer for its tag: it sits at an
      index of the input before which no answer has the same tag. */
  lemma {:induction false} FirstOccurrencesFirstWins<T>(items: seq<T>, key: T -> string)
    ensures var r := FirstOccurrences(items, key);
            forall x | x in r :: exists i | 0 <= i < |items| :: items[i] == x && !HasKey(items[..i], key, key(x))
  {
    if items != [] {
      var p := items[..|items| - 1];
      var x := items[|items| - 1];
      FirstOccurrencesFirstWins(p, key);
      var r := FirstOccurrences(items, key);
      forall y | y in r
        ensures exists i | 0 <= i < |items| :: items[i] == y && !HasKey(items[..i], key, key(y))
      {
        if y in FirstOccurrences(p, key) {
          var i :| 0 <= i < |p| && p[i] == y && !HasKey(p[..i], key, key(y));
          assert items[..i] == p[..i];
          assert items[i] == y;
        } else {
          assert y == x;
          assert items[..|items| - 1] == p;
        }
      }
    }
  }

  // ---------------------------------------------------------------------
  // Batched review
  // ---------------------------------------------------------------------

  /** The answers of the batches in order, or `None` as soon as one batch
      fails. */
  function Answers<S, D>(bs: seq<seq<S>>, review: seq<S> -> Option<seq<D>>): Option<seq<D>>
  {
    if bs == [] then Some([])
    else
      match review(bs[0])
      case None => None
      case Some(first) =>
        match Answers(bs[1..], review)
        case None => None
        case Some(rest) => Some(first + rest)
  }

  /** What `triage_tags` and `audit_tags` return: the first answer per tag
      over all batches, or the failure. */
  function Reviewed<S, D>(items: seq<S>, review: seq<S> -> Option<seq<D>>, key: D -> string): Option<seq<D>>
  {
    match Answers(Batches(items), review)
    case None => None
    case Some(all) => Some(FirstOccurrences(all, key))
  }

  function Prepend<D>(done: seq<D>, rest: Option<seq<D>>): Option<seq<D>> {
    match rest
    case None => None
    case Some(r) => Some(done + r)
  }

  /** The batches of a suffix: the next batch, then the batches after it. */
  lemma BatchesAt<S>(items: seq<S>, idx: nat)
    requires idx < |items|
    ensures var next := Min(idx + BatchSize, |items|);
            Batches(items[idx..]) == [items[idx..next]] + Batches(items[next..])
  {
    var rest := items[idx..];
    var next := Min(idx + BatchSize, |items|);
    assert items[idx..next] == rest[..Min(BatchSize, |rest|)];
    assert items[next..] == rest[Min(BatchSize, |rest|)..];
  }

  /** The answers to one more batch in front of others. */
  lemma AnswersCons<S, D>(b: seq<S>, bs: seq<seq<S>>, review: seq<S> -> Option<seq<D>>)
    ensures review(b).None? ==> Answers([b] + bs, review) == None
    ensures review(b).Some? ==> Answers([b] + bs, review) == Prepend(review(b).value, Answers(bs, review))
  {
    assert ([b] + bs)[0] == b && ([b] + bs)[1..] == bs;
  }

  lemma PrependPrepend<D>(a: seq<D>, b: seq<D>, x: Option<seq<D>>)
    ensures Prepend(a, Prepend(b, x)) == Prepend(a + b, x)
  {
    match x {
      case None =>
      case Some(z) => assert a + (b + z) == (a + b) + z;
    }
  }

  /** The batch loop shared by `triage_tags` and `audit_tags`: empty input
      returns at once without a review; otherwise each batch is reviewed in
      turn and its answers merged first-wins, and a failed review ends the
      call with the failure. `reviews` counts the oracle calls. */
  method ReviewInBatches<S, D>(items: seq<S>, review: seq<S> -> Option<seq<D>>, key: D -> string)
    returns (r: Option<seq<D>>, reviews: nat)
    ensures r == Reviewed(items, review, key)
    ensures items == [] ==> r == Some([]) && reviews == 0
    ensures reviews <= |Batches(items)|
    ensures r.Some? ==> reviews == |Batches(items)|
  {
    if |items| == 0 {
      return Some([]), 0;
    }
    var results: seq<D> := [];
    ghost var answered: seq<D> := [];
    var idx := 0;
    reviews := 0;
    assert items[idx..] == items;
    match Answers(Batches(items), review) {
      case None =>
      case Some(z) => assert answered + z == z;
    }
    while idx < |items|
      invariant 0 <= idx <= |items|
      invariant Answers(Batches(items), review) == Prepend(answered, Answers(Batches(items[idx..]), review))
      invariant |Batches(items)| == reviews + |Batches(items[idx..])|
      invariant results == Merge([], answered, key)
      decreases |items| - idx
    {
      var next := Min(idx + BatchSize, |items|);
      var batch := items[idx..next];
      BatchesAt(items, idx);
      var outcome := review(batch);
      reviews := reviews + 1;
      AnswersCons(batch, Batches(items[next..]), review);
      if outcome.None? {
        return None, reviews;
      }
      var batchAnswers := outcome.value;
      ghost var before := results;
      for j := 0 to |batchAnswers|
        invariant results == Merge(before, batchAnswers[..j], key)
      {
        var answer := batchAnswers[j];
        assert batchAnswers[..j + 1][..j] == batchAnswers[..j];
        if !HasKey(results, key, key(answer)) {
          results := results + [answer];
        }
      }
      assert batchAnswers[..|batchAnswers|] == batchAnswers;
      MergeAppend([], answered, batchAnswers, key);
      PrependPrepend(answered, batchAnswers, Answers(Batches(items[next..]), review));
      answered := answered + batchAnswers;
      idx := next;
    }
    assert Answers(Batches(items[idx..]), review) == Some([]);
    assert answered + [] == answered;
    MergeIsFirstOccurrences(answered, key);
    r := Some(results);
  }

  /** `triage_tags`. */
  method TriageTags(tags: seq<TagSample>, review: seq<TagSample> -> Option<seq<TagDecision>>)
    returns (r: Option<seq<TagDecision>>, reviews: nat)
    ensures r == Reviewed(tags, review, DecisionTag)
    ensures tags == [] ==> r == Some([]) && reviews == 0
    ensures r.Some? ==> reviews == |Batches(tags)|
  {
    r, reviews := ReviewInBatches(tags, review, DecisionTag);
  }

  /** `audit_tags`. */
  method AuditTags(tags: seq<string>, review: seq<string> -> Option<seq<TagAuditResult>>)
    returns (r: Option<seq<TagAuditResult>>, reviews: nat)
    ensures r == Reviewed(tags, review, AuditTag)
    ensures tags == [] ==> r == Some([]) && reviews == 0
    ensures r.Some? ==> reviews == |Batches(tags)|
  {
    r, reviews := ReviewInBatches(tags, review, AuditTag);
  }

  /** A reviewed result has distinct tags, takes every element from the
      reviewer's answers, keeps the first answer per tag, and is absent
      exactly when some batch's review failed. */
  lemma ReviewedProperties<S, D>(items: seq<S>, review: seq<S> -> Option<seq<D>>, key: D -> string)
    ensures var r := Reviewed(items, review, key);
            && (r.None? <==> Answers(Batches(items), review).None?)
            && (r.Some? ==>
                  var all := Answers(Batches(items), review).value;
                  && (forall i, j | 0 <= i < j < |r.value| :: key(r.value[i]) != key(r.value[j]))
                  && (forall x | x in r.value :: x in all)
                  && (forall x | x in all :: HasKey(r.value, key, key(x))))
  {
    var r := Reviewed(items, review, key);
    if r.Some? {
      var all := Answers(Batches(items), review).value;
      FirstOccurrencesDistinct(all, key);
      forall x | x in all
        ensures HasKey(r.value, key, key(x))
      {
        FirstOccurrencesKeys(all, key, key(x));
      }
    }
  }

  /** A batch whose review fails makes the whole call fail. */
  lemma {:induction false} FailedBatchFails<S, D>(bs: seq<seq<S>>, review: seq<S> -> Option<seq<D>>, k: nat)
    requires k < |bs| && review(bs[k]).None?
    ensures Answers(bs, review).None?
  {
    if k > 0 {
      FailedBatchFails(bs[1..], review, k - 1);
    }
  }
}
