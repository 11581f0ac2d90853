/** The commenter report of `mostActiveCommenters`: the aggregation pipeline
    group-by-email / sum / sort by descending count / limit, specified on the
    per-author counts that the group stage produces. */
module Ranking {

  /** One row of the report: an author email and the number of comments it wrote. */
  datatype Critic = Critic(email: string, count: nat)

  /** The `limit` stage of the report pipeline keeps this many rows. */
  const ReportLimit: nat := 20

  function Min(a: nat, b: nat): nat
  {
    if a < b then a else b
  }

  /** The emails named in a report. */
  function EmailSet(r: seq<Critic>): set<string>
  {
    set i | 0 <= i < |r| :: r[i].email
  }

  ghost predicate DistinctEmails(r: seq<Critic>)
  {
    forall i, j | 0 <= i < j < |r| :: r[i].email != r[j].email
  }

  ghost predicate NonIncreasing(r: seq<Critic>)
  {
    forall i, j | 0 <= i < j < |r| :: r[i].count >= r[j].count
  }

  /** `r` is a report that the pipeline may return when the group stage has
      produced `counts` (author email to number of comments): as many rows as
      the limit allows, one per author, each with that author's count, sorted
      by descending count, and no author left out counts more than the last
      row kept. The order among equal counts is left open. */
  ghost predicate IsRanking(counts: map<string, nat>, r: seq<Critic>, limit: nat)
  {
    && |r| == Min(limit, |counts|)
    && (forall i | 0 <= i < |r| :: r[i].email in counts && r[i].count == counts[r[i].email])
    && DistinctEmails(r)
    && NonIncreasing(r)
    && (forall e | e in counts && e !in EmailSet(r) :: |r| > 0 ==> counts[e] <= r[|r| - 1].count)
  }

  lemma EmailSetSnoc(r: seq<Critic>, c: Critic)
    ensures EmailSet(r + [c]) == EmailSet(r) + {c.email}
  {
    var r' := r + [c];
    forall e | e in EmailSet(r)
      ensures e in EmailSet(r')
    {
      var i :| 0 <= i < |r| && r[i].email == e;
      assert r'[i].email == e;
    }
    assert r'[|r|].email == c.email;
  }

  lemma {:induction false} EmailSetSize(r: seq<Critic>)
    ensures |EmailSet(r)| <= |r|
    ensures DistinctEmails(r) ==> |EmailSet(r)| == |r|
  {
    if r != [] {
      var init := r[..|r| - 1];
      EmailSetSize(init);
      assert init + [r[|r| - 1]] == r;
      EmailSetSnoc(init, r[|r| - 1]);
      if DistinctEmails(r) {
        assert DistinctEmails(init);
        assert r[|r| - 1].email !in EmailSet(init);
      }
    }
  }

  lemma {:induction false} SubsetSize<T>(a: set<T>, b: set<T>)
    requires a <= b
    ensures |a| <= |b|
  {
    if a != {} {
      var x :| x in a;
      SubsetSize(a - {x}, b - {x});
    }
  }

  /** Among a non-empty set of authors of a table of counts, one has the largest count. */
  lemma {:induction false} LargestCountExists(m: map<string, nat>, ks: set<string>)
    requires ks != {} && ks <= m.Keys
    ensures exists k :: k in ks && forall o | o in ks :: m[o] <= m[k]
    decreases ks
  {
    var k0 :| k0 in ks;
    var others := ks - {k0};
    if others == {} {
      forall o | o in ks
        ensures m[o] <= m[k0]
      {
        assert o !in others;
      }
      assert k0 in ks && forall o | o in ks :: m[o] <= m[k0];
    } else {
      LargestCountExists(m, others);
      var k1 :| k1 in others && forall o | o in others :: m[o] <= m[k1];
      var k := if m[k0] <= m[k1] then k1 else k0;
      forall o | o in ks
        ensures m[o] <= m[k]
      {
        if o != k0 {
          assert o in others;
        }
      }
      assert k in ks && forall o | o in ks :: m[o] <= m[k];
    }
  }

  /** What the sort and limit stages have established after taking the rows
      `r`: `rest` holds the authors not yet taken, with their counts, and none
      of them counts more than the last row taken. */
  ghost predicate PartialRanking(counts: map<string, nat>, rest: map<string, nat>, r: seq<Critic>)
  {
    && rest.Keys <= counts.Keys
    && (forall e | e in counts :: e in rest <==> e !in EmailSet(r))
    && (forall e | e in rest :: rest[e] == counts[e])
    && |r| + |rest| == |counts|
    && (forall i | 0 <= i < |r| :: r[i].email in counts && r[i].count == counts[r[i].email])
    && DistinctEmails(r)
    && NonIncreasing(r)
    && (forall e | e in rest :: |r| > 0 ==> rest[e] <= r[|r| - 1].count)
  }

  /** Taking an author with the largest remaining count extends a partial report. */
  lemma TakeLargest(counts: map<string, nat>, rest: map<string, nat>, r: seq<Critic>, top: string)
    requires PartialRanking(counts, rest, r)
    requires top in rest && forall o | o in rest :: rest[o] <= rest[top]
    ensures PartialRanking(counts, rest - {top}, r + [Critic(top, rest[top])])
  {
    TakeLargestRemaining(counts, rest, r, top);
    TakeLargestRows(counts, rest, r, top);
  }

  lemma TakeLargestRemaining(counts: map<string, nat>, rest: map<string, nat>, r: seq<Critic>, top: string)
    requires PartialRanking(counts, rest, r)
    requires top in rest
    ensures var r', rest' := r + [Critic(top, rest[top])], rest - {top};
      && rest'.Keys <= counts.Keys
      && (forall e | e in counts :: e in rest' <==> e !in EmailSet(r'))
      && (forall e | e in rest' :: rest'[e] == counts[e])
      && |r'| + |rest'| == |counts|
  {
    EmailSetSnoc(r, Critic(top, rest[top]));
    assert (rest - {top}).Keys == rest.Keys - {top};
  }

  lemma TakeLargestRows(counts: map<string, nat>, rest: map<string, nat>, r: seq<Critic>, top: string)
    requires PartialRanking(counts, rest, r)
    requires top in rest && forall o | o in rest :: rest[o] <= rest[top]
    ensures var r', rest' := r + [Critic(top, rest[top])], rest - {top};
      && (forall i | 0 <= i < |r'| :: r'[i].email in counts && r'[i].count == counts[r'[i].email])
      && DistinctEmails(r')
      && NonIncreasing(r')
      && (forall e | e in rest' :: |r'| > 0 ==> rest'[e] <= r'[|r'| - 1].count)
  {
    assert top !in EmailSet(r);
  }

  /** The sort and limit stages: repeatedly takes an author with the largest
      remaining count, until `limit` rows are taken or no author is left. Which
      of several authors with the same count comes first is not fixed. */
  method SortAndLimit(counts: map<string, nat>, limit: nat) returns (r: seq<Critic>)
    ensures IsRanking(counts, r, limit)
  {
    var rest := counts;
    r := [];
    while |r| < limit && |rest| > 0
      invariant |r| <= limit
      invariant PartialRanking(counts, rest, r)
      decreases |rest|
    {
      assert rest.Keys != {};
      LargestCountExists(rest, rest.Keys);
      var top :| top in rest && forall o | o in rest :: rest[o] <= rest[top];
      TakeLargest(counts, rest, r, top);
      r := r + [Critic(top, rest[top])];
      rest := rest - {top};
    }
  }

  /** Two reports for the same counts agree on every row's count: only the
      authors sharing a count may appear in another order. */
  lemma CountsDetermined(counts: map<string, nat>, r1: seq<Critic>, r2: seq<Critic>, limit: nat)
    requires IsRanking(counts, r1, limit) && IsRanking(counts, r2, limit)
    ensures |r1| == |r2|
    ensures forall i | 0 <= i < |r1| :: r1[i].count == r2[i].count
  {
    forall i | 0 <= i < |r1|
      ensures r1[i].count == r2[i].count
    {
      NoLargerAt(counts, r1, r2, limit, i);
      NoLargerAt(counts, r2, r1, limit, i);
    }
  }

  /** An author who counts more than row `i` of a report is among the rows before `i`. */
  lemma AboveIsAmongFirst(counts: map<string, nat>, r: seq<Critic>, limit: nat, i: nat, e: string)
    requires IsRanking(counts, r, limit)
    requires i < |r| && e in counts && counts[e] > r[i].count
    ensures e in EmailSet(r[..i])
  {
    assert r[i].count >= r[|r| - 1].count;
    assert e in EmailSet(r);
    var m :| 0 <= m < |r| && r[m].email == e;
    assert m < i;
    assert r[..i][m].email == e;
  }

  /** A step of `NoLargerAt`: each of the first `i + 1` authors of one report
      who counts more than row `i` of another report is among the first `i`
      rows of that other report. */
  lemma HigherAmongFirst(counts: map<string, nat>, r1: seq<Critic>, r2: seq<Critic>, limit: nat, i: nat)
    requires IsRanking(counts, r1, limit) && IsRanking(counts, r2, limit)
    requires i < |r1|
    ensures forall e | e in EmailSet(r1[..i + 1]) && e in counts && counts[e] > r2[i].count ::
      e in EmailSet(r2[..i])
  {
    forall e | e in EmailSet(r1[..i + 1]) && e in counts && counts[e] > r2[i].count
      ensures e in EmailSet(r2[..i])
    {
      AboveIsAmongFirst(counts, r2, limit, i, e);
    }
  }

  lemma NoLargerAt(counts: map<string, nat>, r1: seq<Critic>, r2: seq<Critic>, limit: nat, i: nat)
    requires IsRanking(counts, r1, limit) && IsRanking(counts, r2, limit)
    requires i < |r1|
    ensures r1[i].count <= r2[i].count
  {
    if r1[i].count > r2[i].count {
      var top1, top2 := r1[..i + 1], r2[..i];
      HigherAmongFirst(counts, r1, r2, limit, i);
      forall e | e in EmailSet(top1)
        ensures e in EmailSet(top2)
      {
        var j :| 0 <= j < |top1| && top1[j].email == e;
        assert counts[e] == r1[j].count >= r1[i].count;
      }
      assert DistinctEmails(top1);
      EmailSetSize(top1);
      EmailSetSize(top2);
      SubsetSize(EmailSet(top1), EmailSet(top2));
      assert false;
    }
  }

  /** An author who wrote strictly more comments than every other author heads
      every report with a non-zero limit. */
  lemma LeaderFirst(counts: map<string, nat>, r: seq<Critic>, limit: nat, e: string)
    requires IsRanking(counts, r, limit) && limit > 0
    requires e in counts
    requires forall o | o in counts && o != e :: counts[o] < counts[e]
    ensures |r| > 0 && r[0] == Critic(e, counts[e])
  {
    assert counts.Keys != {};
    assert |r| > 0;
    if r[0].email != e {
      AboveIsAmongFirst(counts, r, limit, 0, e);
      assert false;
    }
  }
}
