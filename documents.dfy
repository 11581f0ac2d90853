/** The document-store primitives the user and session methods rely on, over a
    collection held as a sequence in its natural order: `find(filter).first()`,
    `deleteOne(filter)`, and the matching documents of a filter. */
module Documents {
  import opened DaoBase

  /** `find(filter).first()`: the position of the first document the filter matches. */
  function FirstMatch<T>(docs: seq<T>, matches: T -> bool): (r: Option<nat>)
    ensures r.Some? ==> r.value < |docs| && matches(docs[r.value])
    ensures r.Some? ==> forall j | 0 <= j < r.value :: !matches(docs[j])
    ensures r.None? <==> forall j | 0 <= j < |docs| :: !matches(docs[j])
  {
    if docs == [] then None
    else if matches(docs[0]) then Some(0)
    else match FirstMatch(docs[1..], matches)
      case None => None
      case Some(i) => Some(i + 1)
  }

  /** `deleteOne(filter)`: removes the first document the filter matches, if any. */
  function DeleteOne<T>(docs: seq<T>, matches: T -> bool): (r: seq<T>)
    ensures FirstMatch(docs, matches).None? ==> r == docs
    ensures FirstMatch(docs, matches).Some? ==>
      var i := FirstMatch(docs, matches).value; r == docs[..i] + docs[i + 1..]
  {
    if docs == [] then []
    else if matches(docs[0]) then docs[1..]
    else
      var tail := docs[1..];
      var rest := DeleteOne(tail, matches);
      match FirstMatch(tail, matches)
      case None =>
        assert docs == [docs[0]] + tail;
        [docs[0]] + rest
      case Some(i) =>
        assert FirstMatch(docs, matches) == Some(i + 1);
        SplitAfterHead(docs, i);
        [docs[0]] + rest
  }

  /** Cutting out position `i + 1` of a sequence is keeping its head and
      cutting out position `i` of its tail. */
  lemma SplitAfterHead<T>(docs: seq<T>, i: nat)
    requires i + 1 < |docs|
    ensures docs[..i + 1] + docs[i + 2..] == [docs[0]] + (docs[1..][..i] + docs[1..][i + 1..])
  {
    assert docs[..i + 1] == [docs[0]] + docs[1..][..i];
    assert docs[i + 2..] == docs[1..][i + 1..];
  }

  /** After `deleteOne` removed the document at `k`, position `j` holds the
      document that was at `j` before `k` and at `j + 1` from `k` on. */
  lemma DeleteOneAt<T>(docs: seq<T>, matches: T -> bool, k: nat, j: nat)
    requires FirstMatch(docs, matches) == Some(k)
    requires j < |DeleteOne(docs, matches)|
    ensures DeleteOne(docs, matches)[j] == docs[if j < k then j else j + 1]
  {
    var before, after := docs[..k], docs[k + 1..];
    assert DeleteOne(docs, matches) == before + after;
    if j < k {
      assert (before + after)[j] == before[j];
    } else {
      assert (before + after)[j] == after[j - k];
    }
  }

  /** Replacing the first matching document by another matching one keeps it first. */
  lemma FirstMatchReplaced<T>(docs: seq<T>, i: nat, d: T, matches: T -> bool)
    requires FirstMatch(docs, matches) == Some(i) && matches(d)
    ensures FirstMatch(docs[i := d], matches) == Some(i)
  {
    var docs' := docs[i := d];
    assert matches(docs'[i]);
    var j := FirstMatch(docs', matches).value;
    assert j <= i;
    assert forall k | 0 <= k < i :: docs'[k] == docs[k];
  }

  /** The documents a filter matches, in collection order. */
  function Filter<T>(docs: seq<T>, matches: T -> bool): seq<T>
  {
    if docs == [] then []
    else (if matches(docs[0]) then [docs[0]] else []) + Filter(docs[1..], matches)
  }

  function Not<T>(matches: T -> bool): T -> bool
  {
    d => !matches(d)
  }

  lemma {:induction false} FilterConcat<T>(a: seq<T>, b: seq<T>, matches: T -> bool)
    ensures Filter(a + b, matches) == Filter(a, matches) + Filter(b, matches)
  {
    if a == [] {
      assert a + b == b;
    } else {
      var head := if matches(a[0]) then [a[0]] else [];
      assert (a + b)[0] == a[0] && (a + b)[1..] == a[1..] + b;
      assert Filter(a + b, matches) == head + Filter(a[1..] + b, matches);
      FilterConcat(a[1..], b, matches);
      assert Filter(a, matches) == head + Filter(a[1..], matches);
    }
  }

  lemma {:induction false} FilterNothing<T>(docs: seq<T>, matches: T -> bool)
    requires forall j | 0 <= j < |docs| :: !matches(docs[j])
    ensures Filter(docs, matches) == []
  {
    if docs != [] {
      FilterNothing(docs[1..], matches);
    }
  }

  /** Replacing the document at `i` by one that matches the same filters as
      before leaves what the other filters see in place, with `d` at `i`'s spot. */
  lemma FilterReplace<T>(docs: seq<T>, i: nat, d: T, matches: T -> bool)
    requires i < |docs|
    ensures Filter(docs[i := d], matches) ==
      Filter(docs[..i], matches) + Filter([d], matches) + Filter(docs[i + 1..], matches)
  {
    assert docs[i := d] == docs[..i] + [d] + docs[i + 1..];
    FilterConcat(docs[..i] + [d], docs[i + 1..], matches);
    FilterConcat(docs[..i], [d], matches);
  }

  /** `deleteOne` removes one matching document when some document matches,
      none otherwise, and every document the filter does not match stays, in
      its order. */
  lemma DeleteOneRemovesOneMatch<T>(docs: seq<T>, matches: T -> bool)
    ensures |DeleteOne(docs, matches)| ==
      if FirstMatch(docs, matches).Some? then |docs| - 1 else |docs|
    ensures Filter(DeleteOne(docs, matches), Not(matches)) == Filter(docs, Not(matches))
    ensures FirstMatch(docs, matches).Some? ==>
      |Filter(DeleteOne(docs, matches), matches)| == |Filter(docs, matches)| - 1
  {
    match FirstMatch(docs, matches)
    case None =>
    case Some(i) =>
      var before, after := docs[..i], docs[i + 1..];
      assert docs == before + [docs[i]] + after;
      FilterConcat(before, after, matches);
      FilterConcat(before, after, Not(matches));
      FilterConcat(before + [docs[i]], after, matches);
      FilterConcat(before, [docs[i]], matches);
      FilterConcat(before + [docs[i]], after, Not(matches));
      FilterConcat(before, [docs[i]], Not(matches));
      assert Filter([docs[i]], Not(matches)) == [];
      assert Filter([docs[i]], matches) == [docs[i]];
  }
}
