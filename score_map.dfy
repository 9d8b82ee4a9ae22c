/**
  A JavaScript object used as a table from names to integer scores, such as
  `tasteProfile.genres`. Own properties keep their insertion order, so the
  table is an association list: `Object.entries` is the list itself.
 */
module ScoreMap {
  import opened Sorting

  datatype Entry = Entry(key: string, score: int)

  type Scores = seq<Entry>

  predicate Has(s: Scores, k: string)
  {
    exists i :: 0 <= i < |s| && s[i].key == k
  }

  ghost predicate DistinctKeys(s: Scores)
  {
    forall i, j :: 0 <= i < j < |s| ==> s[i].key != s[j].key
  }

  /** `obj[k] || 0`: the score stored under `k`, or 0 when there is none. */
  function Get(s: Scores, k: string): int
  {
    if s == [] then 0
    else if s[0].key == k then s[0].score
    else Get(s[1..], k)
  }

  function Keys(s: Scores): (r: seq<string>)
    ensures |r| == |s| && forall i :: 0 <= i < |s| ==> r[i] == s[i].key
  {
    if s == [] then [] else [s[0].key] + Keys(s[1..])
  }

  function Score(e: Entry): int { e.score }

  /** `Has` on a non-empty table: the first key or one of the rest. */
  lemma HasCons(s: Scores)
    requires s != []
    ensures forall j :: Has(s, j) <==> s[0].key == j || Has(s[1..], j)
  {
    forall j ensures Has(s, j) <==> s[0].key == j || Has(s[1..], j) {
      if Has(s, j) && s[0].key != j {
        var i :| 0 <= i < |s| && s[i].key == j;
        assert s[1..][i - 1].key == j;
      }
      if Has(s[1..], j) {
        var i :| 0 <= i < |s[1..]| && s[1..][i].key == j;
        assert s[i + 1].key == j;
      }
    }
  }

  /**
    `obj[k] = (obj[k] || 0) + d`: an existing property is updated where it
    stands, a new one is appended at the end.
   */
  function Bump(s: Scores, k: string, d: int): (r: Scores)
    ensures Get(r, k) == Get(s, k) + d
    ensures forall j :: j != k ==> Get(r, j) == Get(s, j)
  {
    if s == [] then [Entry(k, d)]
    else if s[0].key == k then [Entry(k, s[0].score + d)] + s[1..]
    else
      var r := [s[0]] + Bump(s[1..], k, d);
      assert r[1..] == Bump(s[1..], k, d);
      r
  }

  /** Bumping adds `k` to the keys and keeps the others. */
  lemma {:induction false} BumpHas(s: Scores, k: string, d: int)
    ensures forall j :: Has(Bump(s, k, d), j) <==> Has(s, j) || j == k
  {
    var r := Bump(s, k, d);
    HasCons(r);
    if s != [] {
      HasCons(s);
      if s[0].key == k {
        assert r[1..] == s[1..];
      } else {
        BumpHas(s[1..], k, d);
        assert r[1..] == Bump(s[1..], k, d);
      }
    }
  }

  /** An existing key keeps its position, a new key is appended. */
  lemma {:induction false} BumpShape(s: Scores, k: string, d: int)
    ensures Has(s, k) ==> |Bump(s, k, d)| == |s| && forall i :: 0 <= i < |s| ==> Bump(s, k, d)[i].key == s[i].key
    ensures !Has(s, k) ==> Bump(s, k, d) == s + [Entry(k, d)]
  {
    if s != [] {
      HasCons(s);
      if s[0].key != k {
        BumpShape(s[1..], k, d);
        assert Bump(s, k, d) == [s[0]] + Bump(s[1..], k, d);
      }
    }
  }

  /** Bumping keeps the keys distinct. */
  lemma {:induction false} BumpDistinct(s: Scores, k: string, d: int)
    requires DistinctKeys(s)
    ensures DistinctKeys(Bump(s, k, d))
  {
    BumpShape(s, k, d);
    if !Has(s, k) {
      assert forall i :: 0 <= i < |s| ==> s[i].key != k;
    }
  }

  /** The entries whose score satisfies `keep`, in their original order. */
  function Filter(s: Scores, keep: int -> bool): (r: Scores)
    ensures forall e :: e in r <==> e in s && keep(e.score)
    ensures DistinctKeys(s) ==> DistinctKeys(r)
    ensures Distinct(s) ==> Distinct(r)
  {
    if s == [] then []
    else
      var tail := Filter(s[1..], keep);
      assert forall e :: e in s <==> e == s[0] || e in s[1..];
      if keep(s[0].score) then
        assert DistinctKeys(s) ==> forall i :: 0 <= i < |s[1..]| ==> s[1..][i].key != s[0].key;
        [s[0]] + tail
      else tail
  }

  /** With distinct keys, an entry is present exactly when its key maps to its score. */
  lemma {:induction false} EntryIn(s: Scores, k: string, v: int)
    requires DistinctKeys(s)
    ensures Entry(k, v) in s <==> Has(s, k) && Get(s, k) == v
  {
    if s != [] {
      assert DistinctKeys(s[1..]);
      EntryIn(s[1..], k, v);
      HasCons(s);
      assert forall e :: e in s <==> e == s[0] || e in s[1..];
      if s[0].key == k {
        assert forall i :: 0 <= i < |s[1..]| ==> s[1..][i].key != k;
        assert forall e :: e in s[1..] ==> e.key != k;
      }
    }
  }

  /** Distinct keys make entries distinct. */
  lemma DistinctKeysDistinct(s: Scores)
    requires DistinctKeys(s)
    ensures Distinct(s)
  {
  }
}
