/**
 * The visit queries behind GET /stats/{code} (src/handlers.rs):
 * `SELECT ... FROM visits WHERE url_id = ? ORDER BY visited_at DESC LIMIT n`
 * and `SELECT COUNT(*) FROM visits WHERE url_id = ?`, over the visit log.
 */
module Stats {

  import opened Models

  /** Every visit precedes only visits that are not newer. */
  predicate NewestFirst(s: seq<Visit>)
  {
    forall i, j :: 0 <= i < j < |s| ==> s[j].visitedAt <= s[i].visitedAt
  }

  /** The same order on reported visits. */
  predicate StatsNewestFirst(s: seq<VisitStats>)
  {
    forall i, j :: 0 <= i < j < |s| ==> s[j].visitedAt <= s[i].visitedAt
  }

  /** `WHERE url_id = code`: the visits of one short code, in log order. */
  function VisitsFor(log: seq<Visit>, code: string): (r: seq<Visit>)
    ensures |r| <= |log|
  {
    if log == [] then []
    else if log[0].urlId == code then [log[0]] + VisitsFor(log[1..], code)
    else VisitsFor(log[1..], code)
  }

  /** The selection holds each visit of `code` as often as the log does, and
      nothing else. */
  lemma {:induction false} VisitsForSelects(log: seq<Visit>, code: string)
    ensures forall v :: multiset(VisitsFor(log, code))[v] == if v.urlId == code then multiset(log)[v] else 0
  {
    if log != [] {
      VisitsForSelects(log[1..], code);
      assert log == [log[0]] + log[1..];
    }
  }

  /** Filtering distributes over appending to the log. */
  lemma {:induction false} VisitsForAppend(a: seq<Visit>, b: seq<Visit>, code: string)
    ensures VisitsFor(a + b, code) == VisitsFor(a, code) + VisitsFor(b, code)
  {
    if a == [] {
      assert a + b == b;
    } else {
      assert (a + b)[1..] == a[1..] + b;
      VisitsForAppend(a[1..], b, code);
    }
  }

  /** Places `v` into a newest-first sequence, before every visit that is not newer. */
  function Insert(v: Visit, s: seq<Visit>): (r: seq<Visit>)
    requires NewestFirst(s)
    ensures NewestFirst(r)
    ensures multiset(r) == multiset(s) + multiset{v}
  {
    if s == [] || s[0].visitedAt <= v.visitedAt then
      PrependNewest(v, s);
      [v] + s
    else
      TailNewestFirst(s);
      var tail := Insert(v, s[1..]);
      assert s == [s[0]] + s[1..];
      NoneNewerThanHead(s[0], tail, multiset(s[1..]) + multiset{v});
      PrependNewest(s[0], tail);
      [s[0]] + tail
  }

  /** The tail of a newest-first sequence is newest-first and no newer than its head. */
  lemma TailNewestFirst(s: seq<Visit>)
    requires NewestFirst(s) && s != []
    ensures NewestFirst(s[1..])
    ensures forall y :: y in multiset(s[1..]) ==> y.visitedAt <= s[0].visitedAt
  {
    forall y | y in multiset(s[1..]) ensures y.visitedAt <= s[0].visitedAt {
      var k :| 0 <= k < |s[1..]| && s[1..][k] == y;
      assert s[k + 1] == y;
    }
  }

  /** A visit at least as new as every element of a newest-first sequence may precede it. */
  lemma PrependNewest(x: Visit, s: seq<Visit>)
    requires NewestFirst(s)
    requires forall k :: 0 <= k < |s| ==> s[k].visitedAt <= x.visitedAt
    ensures NewestFirst([x] + s)
  {
    var r := [x] + s;
    forall i, j | 0 <= i < j < |r| ensures r[j].visitedAt <= r[i].visitedAt {
      assert r[j] == s[j - 1];
      if i > 0 {
        assert r[i] == s[i - 1];
      }
    }
  }

  /** If every element of a bag is no newer than `x`, so is every element of
      a sequence holding that bag. */
  lemma NoneNewerThanHead(x: Visit, t: seq<Visit>, bag: multiset<Visit>)
    requires multiset(t) == bag
    requires forall y :: y in bag ==> y.visitedAt <= x.visitedAt
    ensures forall k :: 0 <= k < |t| ==> t[k].visitedAt <= x.visitedAt
  {
    forall k | 0 <= k < |t| ensures t[k].visitedAt <= x.visitedAt {
      assert t[k] in multiset(t);
    }
  }

  /** `ORDER BY visited_at DESC`: a newest-first arrangement of the visits
      (visits with equal timestamps keep their log order). */
  function SortNewestFirst(s: seq<Visit>): (r: seq<Visit>)
    ensures NewestFirst(r)
    ensures multiset(r) == multiset(s)
  {
    if s == [] then []
    else
      assert s == [s[0]] + s[1..];
      Insert(s[0], SortNewestFirst(s[1..]))
  }

  lemma SortedLength(s: seq<Visit>)
    ensures |SortNewestFirst(s)| == |s|
  {
    calc {
      |SortNewestFirst(s)|;
      |multiset(SortNewestFirst(s))|;
      |multiset(s)|;
      |s|;
    }
  }

  /** The `limit` newest visits of `code`, newest first. */
  function Recent(log: seq<Visit>, code: string, limit: nat): (r: seq<Visit>)
    ensures |r| <= limit
  {
    var sorted := SortNewestFirst(VisitsFor(log, code));
    sorted[..if |sorted| <= limit then |sorted| else limit]
  }

  /** The reported window: the columns of `Recent`. */
  function Window(log: seq<Visit>, code: string, limit: nat): (r: seq<VisitStats>)
    ensures |r| == |Recent(log, code, limit)|
    ensures forall i :: 0 <= i < |r| ==> r[i] == ToVisitStats(Recent(log, code, limit)[i])
  {
    var w := Recent(log, code, limit);
    seq(|w|, i requires 0 <= i < |w| => ToVisitStats(w[i]))
  }

  /** `COUNT(*) ... WHERE url_id = code`. */
  function CountFor(log: seq<Visit>, code: string): (n: nat)
    ensures n <= |log|
  {
    |VisitsFor(log, code)|
  }

  /** The window holds min(limit, count) visits, all of `code`, newest first. */
  lemma RecentWindowShape(log: seq<Visit>, code: string, limit: nat)
    ensures |Recent(log, code, limit)| == if CountFor(log, code) <= limit then CountFor(log, code) else limit
    ensures NewestFirst(Recent(log, code, limit))
    ensures forall i :: 0 <= i < |Recent(log, code, limit)| ==> Recent(log, code, limit)[i].urlId == code
  {
    RecentLength(log, code, limit);
    RecentOrdered(log, code, limit);
    RecentOnlyOfCode(log, code, limit);
  }

  lemma RecentLength(log: seq<Visit>, code: string, limit: nat)
    ensures |Recent(log, code, limit)| == if CountFor(log, code) <= limit then CountFor(log, code) else limit
  {
    SortedLength(VisitsFor(log, code));
  }

  lemma RecentOrdered(log: seq<Visit>, code: string, limit: nat)
    ensures NewestFirst(Recent(log, code, limit))
  {
    var sorted := SortNewestFirst(VisitsFor(log, code));
    var k := if |sorted| <= limit then |sorted| else limit;
    PrefixIsNewest(sorted, k);
  }

  lemma RecentOnlyOfCode(log: seq<Visit>, code: string, limit: nat)
    ensures forall i :: 0 <= i < |Recent(log, code, limit)| ==> Recent(log, code, limit)[i].urlId == code
  {
    var sorted := SortNewestFirst(VisitsFor(log, code));
    var w := Recent(log, code, limit);
    OnlyVisitsOfCode(log, code);
    forall i | 0 <= i < |w| ensures w[i].urlId == code {
      assert w[i] == sorted[i];
    }
  }

  /** The window is taken from the visits of `code`, and every visit of
      `code` it leaves out is no newer than any visit it shows. */
  lemma RecentHoldsNewest(log: seq<Visit>, code: string, limit: nat)
    ensures multiset(Recent(log, code, limit)) <= multiset(VisitsFor(log, code))
    ensures forall v, i ::
              (v in multiset(VisitsFor(log, code)) - multiset(Recent(log, code, limit)) &&
               0 <= i < |Recent(log, code, limit)|) ==> v.visitedAt <= Recent(log, code, limit)[i].visitedAt
  {
    var sorted := SortNewestFirst(VisitsFor(log, code));
    var k := if |sorted| <= limit then |sorted| else limit;
    assert Recent(log, code, limit) == sorted[..k];
    PrefixIsNewest(sorted, k);
  }

  /** Every visit in the sorted selection belongs to `code`. */
  lemma OnlyVisitsOfCode(log: seq<Visit>, code: string)
    ensures forall i :: 0 <= i < |SortNewestFirst(VisitsFor(log, code))| ==> SortNewestFirst(VisitsFor(log, code))[i].urlId == code
  {
    var all := VisitsFor(log, code);
    var sorted := SortNewestFirst(all);
    VisitsForSelects(log, code);
    forall i | 0 <= i < |sorted| ensures sorted[i].urlId == code {
      assert multiset(all)[sorted[i]] > 0;
    }
  }

  /** A prefix of a newest-first sequence holds its newest elements. */
  lemma PrefixIsNewest(sorted: seq<Visit>, k: nat)
    requires NewestFirst(sorted) && k <= |sorted|
    ensures |sorted[..k]| == k
    ensures NewestFirst(sorted[..k])
    ensures multiset(sorted[..k]) <= multiset(sorted)
    ensures forall v, i :: (v in multiset(sorted) - multiset(sorted[..k]) && 0 <= i < k) ==> v.visitedAt <= sorted[..k][i].visitedAt
  {
    var w, rest := sorted[..k], sorted[k..];
    assert sorted == w + rest;
    assert multiset(sorted) - multiset(w) == multiset(rest);
    forall v: Visit, i: nat | v in multiset(rest) && i < k
      ensures v.visitedAt <= w[i].visitedAt
    {
      RestNoNewer(sorted, k, v, i);
    }
  }

  /** An element after position `k` of a newest-first sequence is no newer
      than one before it. */
  lemma RestNoNewer(sorted: seq<Visit>, k: nat, v: Visit, i: nat)
    requires NewestFirst(sorted) && i < k <= |sorted| && v in multiset(sorted[k..])
    ensures v.visitedAt <= sorted[..k][i].visitedAt
  {
    var j :| 0 <= j < |sorted[k..]| && sorted[k..][j] == v;
    assert sorted[k + j] == v;
  }

  /** The reported window, in the response's own terms. */
  lemma WindowIsBoundedAndOrdered(log: seq<Visit>, code: string, limit: nat)
    ensures |Window(log, code, limit)| <= limit
    ensures |Window(log, code, limit)| <= CountFor(log, code)
    ensures CountFor(log, code) <= limit ==> |Window(log, code, limit)| == CountFor(log, code)
    ensures StatsNewestFirst(Window(log, code, limit))
  {
    RecentWindowShape(log, code, limit);
  }

  /** Appending a visit of `code` adds one to its count and leaves other
      codes' counts alone. */
  lemma CountAfterAppend(log: seq<Visit>, v: Visit, code: string)
    ensures CountFor(log + [v], code) == CountFor(log, code) + (if v.urlId == code then 1 else 0)
  {
    VisitsForAppend(log, [v], code);
    assert VisitsFor([v], code) == (if v.urlId == code then [v] else []) by {
      assert [v][1..] == [];
    }
  }
}
