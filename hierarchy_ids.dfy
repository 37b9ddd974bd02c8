/** Hierarchy ids: every runtime numbers the views that share a hierarchy-id
    prefix with a per-prefix counter and names them "<prefix>--<k>". */
module HierarchyIds {
  import opened Strings

  function MakeId(prefix: string, k: nat): string
  {
    prefix + "--" + Decimal(k)
  }

  /** The stored counter for `prefix`, 0 when there is none. */
  function Counter(indexMap: map<string, nat>, prefix: string): nat
  {
    if prefix in indexMap then indexMap[prefix] else 0
  }

  /** The shared index manager: one counter per prefix. */
  class IndexManager {
    var indexMap: map<string, nat>

    constructor ()
      ensures indexMap == map[]
    {
      indexMap := map[];
    }

    /** Issue the next id for `prefix` and bump its counter. */
    method UpdateHierarchyId(prefix: string) returns (hierarchyId: string)
      modifies this
      ensures hierarchyId == MakeId(prefix, Counter(old(indexMap), prefix))
      ensures indexMap == old(indexMap)[prefix := Counter(old(indexMap), prefix) + 1]
    {
      if prefix in indexMap {
        var indexValue := indexMap[prefix];
        hierarchyId := prefix + "--" + Decimal(indexValue);
        indexMap := indexMap[prefix := indexValue + 1];
      } else {
        hierarchyId := prefix + "--" + Decimal(0);
        indexMap := indexMap[prefix := 1];
      }
    }
  }

  /** The ids issued by successive calls for the prefixes `prefixes`,
      starting from the counters `indexMap`. */
  function Issue(indexMap: map<string, nat>, prefixes: seq<string>): (ids: seq<string>)
    ensures |ids| == |prefixes|
    decreases |prefixes|
  {
    if prefixes == [] then []
    else
      var p := prefixes[0];
      [MakeId(p, Counter(indexMap, p))] + Issue(indexMap[p := Counter(indexMap, p) + 1], prefixes[1..])
  }

  function Repeat(p: string, n: nat): (r: seq<string>)
    ensures |r| == n && forall i :: 0 <= i < n ==> r[i] == p
  {
    if n == 0 then [] else [p] + Repeat(p, n - 1)
  }

  /** Successive calls with one prefix count up from its stored counter:
      0, 1, 2, ... for a fresh prefix. */
  lemma {:induction false} IssueCountsUp(indexMap: map<string, nat>, p: string, n: nat, i: nat)
    requires i < n
    ensures Issue(indexMap, Repeat(p, n))[i] == MakeId(p, Counter(indexMap, p) + i)
    decreases n
  {
    var next := indexMap[p := Counter(indexMap, p) + 1];
    assert Repeat(p, n)[1..] == Repeat(p, n - 1);
    if i > 0 {
      IssueCountsUp(next, p, n - 1, i - 1);
    }
  }

  /** An id determines both its prefix and its counter. */
  lemma MakeIdInjective(p: string, k: nat, q: string, j: nat)
    requires MakeId(p, k) == MakeId(q, j)
    ensures p == q && k == j
  {
    var s := MakeId(p, k);
    var dk, dj := Decimal(k), Decimal(j);
    CounterSuffixNotLonger(p, dk, q, dj);
    CounterSuffixNotLonger(q, dj, p, dk);
    assert dk == s[|s| - |dk|..] == dj;
    DecimalInjective(k, j);
    assert p == s[..|s| - |dk| - 2] == q;
  }

  /** In "<p>--<dk>" == "<q>--<dj>" with digit runs `dk`, `dj`, the run
      `dj` cannot be the longer one: it would have to contain the '-'. */
  lemma CounterSuffixNotLonger(p: string, dk: string, q: string, dj: string)
    requires AllDigits(dk) && AllDigits(dj)
    requires p + "--" + dk == q + "--" + dj
    ensures |dj| <= |dk|
  {
    var s := p + "--" + dk;
    var i := |s| - |dk| - 1;
    assert s[i] == '-' && !IsDigit(s[i]);
  }

  /** Every id issued later for a prefix carries a counter at least the
      current one. */
  lemma {:induction false} IssueAbove(indexMap: map<string, nat>, prefixes: seq<string>, i: nat)
    requires i < |prefixes|
    ensures exists k: nat :: k >= Counter(indexMap, prefixes[i]) &&
                             Issue(indexMap, prefixes)[i] == MakeId(prefixes[i], k)
    decreases |prefixes|
  {
    var p := prefixes[0];
    var next := indexMap[p := Counter(indexMap, p) + 1];
    if i == 0 {
      assert Issue(indexMap, prefixes)[0] == MakeId(p, Counter(indexMap, p));
    } else {
      IssueAbove(next, prefixes[1..], i - 1);
      var k: nat :| k >= Counter(next, prefixes[i]) &&
                   Issue(next, prefixes[1..])[i - 1] == MakeId(prefixes[i], k);
      assert Issue(indexMap, prefixes)[i] == Issue(next, prefixes[1..])[i - 1];
    }
  }

  /** No two calls ever issue the same id, whatever the prefixes. */
  lemma {:induction false} IssuedIdsDistinct(indexMap: map<string, nat>, prefixes: seq<string>, i: nat, j: nat)
    requires i < j < |prefixes|
    ensures Issue(indexMap, prefixes)[i] != Issue(indexMap, prefixes)[j]
    decreases |prefixes|
  {
    var p := prefixes[0];
    var next := indexMap[p := Counter(indexMap, p) + 1];
    var ids := Issue(indexMap, prefixes);
    assert ids[j] == Issue(next, prefixes[1..])[j - 1];
    if i == 0 {
      IssueAbove(next, prefixes[1..], j - 1);
      var k: nat :| k >= Counter(next, prefixes[j]) &&
                   Issue(next, prefixes[1..])[j - 1] == MakeId(prefixes[j], k);
      if ids[0] == ids[j] {
        MakeIdInjective(p, Counter(indexMap, p), prefixes[j], k);
        assert false;
      }
    } else {
      IssuedIdsDistinct(next, prefixes[1..], i - 1, j - 1);
    }
  }
}
