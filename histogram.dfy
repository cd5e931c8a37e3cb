/**
 * The century histogram `kb["percentury"]`: a dictionary from century
 * number to the number of times that century was returned. A missing key
 * counts as zero, as the source's "create with 0, then add 1" does.
 */
module Histogram {

  function Count(h: map<int, int>, c: int): int
  {
    if c in h then h[c] else 0
  }

  /** `kb["percentury"][c] += 1`, creating the entry when it is missing. */
  function Inc(h: map<int, int>, c: int): (r: map<int, int>)
    ensures r.Keys == h.Keys + {c}
    ensures Count(r, c) == Count(h, c) + 1
    ensures forall d :: d != c ==> Count(r, d) == Count(h, d)
  {
    h[c := Count(h, c) + 1]
  }

  /** Every century of `cs` counted once more, in order. */
  function TallyAll(h: map<int, int>, cs: seq<int>): map<int, int>
  {
    if cs == [] then h else Inc(TallyAll(h, cs[..|cs| - 1]), cs[|cs| - 1])
  }

  /** Each century's count grows by the number of times it occurs in `cs`. */
  lemma {:induction false} TallyAllCount(h: map<int, int>, cs: seq<int>, c: int)
    ensures Count(TallyAll(h, cs), c) == Count(h, c) + multiset(cs)[c]
  {
    if cs != [] {
      var n := |cs| - 1;
      TallyAllCount(h, cs[..n], c);
      assert cs == cs[..n] + [cs[n]];
      assert multiset(cs) == multiset(cs[..n]) + multiset{cs[n]};
    }
  }

  /** Tallying two lists one after the other is tallying their concatenation. */
  lemma {:induction false} TallyAllAppend(h: map<int, int>, a: seq<int>, b: seq<int>)
    ensures TallyAll(h, a + b) == TallyAll(TallyAll(h, a), b)
  {
    if b == [] {
      assert a + b == a;
    } else {
      var n := |b| - 1;
      TallyAllAppend(h, a, b[..n]);
      assert (a + b)[..|a + b| - 1] == a + b[..n];
    }
  }

  /** The sum of all counts. */
  ghost function Total(h: map<int, int>): int
    decreases |h|
  {
    if exists k :: k in h then
      var k :| k in h;
      h[k] + Total(h - {k})
    else 0
  }

  /** Any key can be taken out first. */
  lemma {:induction false} TotalRemove(h: map<int, int>, k: int)
    requires k in h
    ensures Total(h) == h[k] + Total(h - {k})
    decreases |h|
  {
    var j :| j in h && Total(h) == h[j] + Total(h - {j});
    if j != k {
      var hj, hk := h - {j}, h - {k};
      TotalRemove(hj, k);
      TotalRemove(hk, j);
      assert hj - {k} == hk - {j};
    }
  }

  /** One increment adds one to the total. */
  lemma TotalInc(h: map<int, int>, c: int)
    ensures Total(Inc(h, c)) == Total(h) + 1
  {
    var r := Inc(h, c);
    TotalRemove(r, c);
    if c in h {
      TotalRemove(h, c);
      assert r - {c} == h - {c};
    } else {
      assert r - {c} == h;
    }
  }

  /** Tallying a list adds its length to the total. */
  lemma {:induction false} TotalTallyAll(h: map<int, int>, cs: seq<int>)
    ensures Total(TallyAll(h, cs)) == Total(h) + |cs|
  {
    if cs != [] {
      TotalTallyAll(h, cs[..|cs| - 1]);
      TotalInc(TallyAll(h, cs[..|cs| - 1]), cs[|cs| - 1]);
    }
  }
}
