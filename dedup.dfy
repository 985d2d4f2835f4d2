/**
 * De-duplication by `id` as lib/categories-supabase.ts writes it (lines 53-55 and 208-210):
 * `categories.filter((c, index, self) => index === self.findIndex(t => t.id === c.id))`.
 */
module Dedup {
  import opened Records

  /** `self.findIndex(t => t.id === id)`: the first index holding `id`, or -1. */
  function FindIndex(s: seq<Category>, id: Id): (r: int)
    ensures -1 <= r < |s|
    ensures 0 <= r ==> s[r].id == id
    ensures forall j :: 0 <= j < |s| && s[j].id == id ==> 0 <= r <= j
  {
    if s == [] then -1
    else if s[0].id == id then 0
    else
      var k := FindIndex(s[1..], id);
      if k < 0 then -1 else k + 1
  }

  /** The filter's predicate at position `i`. */
  predicate IsFirstOccurrence(s: seq<Category>, i: int)
    requires 0 <= i < |s|
  {
    FindIndex(s, s[i].id) == i
  }

  /** `filter` over the first `n` positions of `self == s`. */
  function FilterFirst(s: seq<Category>, n: nat): seq<Category>
    requires n <= |s|
  {
    if n == 0 then []
    else FilterFirst(s, n - 1) + (if IsFirstOccurrence(s, n - 1) then [s[n - 1]] else [])
  }

  /** The whole de-duplication filter. */
  function UniqueById(s: seq<Category>): seq<Category> {
    FilterFirst(s, |s|)
  }

  /** The positions among the first `n` that the filter keeps, in increasing order. */
  function KeptIndices(s: seq<Category>, n: nat): seq<nat>
    requires n <= |s|
  {
    if n == 0 then []
    else KeptIndices(s, n - 1) + (if IsFirstOccurrence(s, n - 1) then [n - 1] else [])
  }

  function Ids(s: seq<Category>): set<Id> {
    set i | 0 <= i < |s| :: s[i].id
  }

  predicate DistinctIds(s: seq<Category>) {
    forall i, j :: 0 <= i < j < |s| ==> s[i].id != s[j].id
  }

  /** Independent reference: walk left to right, keep a record unless its id was already seen. */
  function KeepFirst(s: seq<Category>, seen: set<Id>): seq<Category> {
    if s == [] then []
    else if s[0].id in seen then KeepFirst(s[1..], seen)
    else [s[0]] + KeepFirst(s[1..], seen + {s[0].id})
  }

  lemma IdsAppend(a: seq<Category>, b: seq<Category>)
    ensures Ids(a + b) == Ids(a) + Ids(b)
  {
    forall id | id in Ids(a + b) ensures id in Ids(a) + Ids(b) {
      var i :| 0 <= i < |a + b| && (a + b)[i].id == id;
      if i < |a| { assert a[i] == (a + b)[i]; } else { assert b[i - |a|] == (a + b)[i]; }
    }
    forall id | id in Ids(a) + Ids(b) ensures id in Ids(a + b) {
      if id in Ids(a) {
        var i :| 0 <= i < |a| && a[i].id == id;
        assert (a + b)[i] == a[i];
      } else {
        var i :| 0 <= i < |b| && b[i].id == id;
        assert (a + b)[|a| + i] == b[i];
      }
    }
  }

  /** Position `i` is kept exactly when its id does not occur earlier. */
  lemma FirstOccurrenceIff(s: seq<Category>, i: nat)
    requires i < |s|
    ensures IsFirstOccurrence(s, i) <==> s[i].id !in Ids(s[..i])
  {
  }

  /** The kept records have exactly the input's ids, each once. */
  lemma {:induction false} FilterFirstIds(s: seq<Category>, n: nat)
    requires n <= |s|
    ensures Ids(FilterFirst(s, n)) == Ids(s[..n])
    ensures DistinctIds(FilterFirst(s, n))
  {
    if n > 0 {
      FilterFirstIds(s, n - 1);
      var prev, x := FilterFirst(s, n - 1), s[n - 1];
      assert s[..n] == s[..n - 1] + [x];
      IdsAppend(s[..n - 1], [x]);
      assert Ids([x]) == {x.id};
      FirstOccurrenceIff(s, n - 1);
      if IsFirstOccurrence(s, n - 1) {
        IdsAppend(prev, [x]);
        var r := prev + [x];
        forall i, j | 0 <= i < j < |r| ensures r[i].id != r[j].id {
          if j == |prev| {
            assert r[i] == prev[i];
            assert r[i].id in Ids(prev);
          }
        }
      } else {
        assert prev + [] == prev;
        assert FilterFirst(s, n) == prev;
        assert Ids(s[..n]) == Ids(s[..n - 1]);
      }
    }
  }

  /** KeptIndices lists positions below `n` in strictly increasing order. */
  lemma {:induction false} KeptIndicesIncreasing(s: seq<Category>, n: nat)
    requires n <= |s|
    ensures forall p :: 0 <= p < |KeptIndices(s, n)| ==> KeptIndices(s, n)[p] < n
    ensures forall p, q :: 0 <= p < q < |KeptIndices(s, n)| ==> KeptIndices(s, n)[p] < KeptIndices(s, n)[q]
  {
    if n > 0 {
      KeptIndicesIncreasing(s, n - 1);
    }
  }

  /** KeptIndices holds exactly the first occurrences. */
  lemma {:induction false} KeptIndicesAreFirstOccurrences(s: seq<Category>, n: nat)
    requires n <= |s|
    ensures forall i :: 0 <= i < n ==> (i in KeptIndices(s, n) <==> IsFirstOccurrence(s, i))
  {
    if n > 0 {
      KeptIndicesAreFirstOccurrences(s, n - 1);
      KeptIndicesIncreasing(s, n - 1);
      var prev, last := KeptIndices(s, n - 1), if IsFirstOccurrence(s, n - 1) then [n - 1] else [];
      assert KeptIndices(s, n) == prev + last;
      assert n - 1 !in prev;
      forall i | 0 <= i < n ensures i in KeptIndices(s, n) <==> IsFirstOccurrence(s, i) {
        assert i in prev + last <==> i in prev || i in last;
      }
    }
  }

  /** The filter's output is the input at KeptIndices. */
  lemma {:induction false} FilterFirstSelects(s: seq<Category>, n: nat)
    requires n <= |s|
    ensures |KeptIndices(s, n)| == |FilterFirst(s, n)|
    ensures forall p :: 0 <= p < |KeptIndices(s, n)| ==>
      KeptIndices(s, n)[p] < n && FilterFirst(s, n)[p] == s[KeptIndices(s, n)[p]]
  {
    KeptIndicesIncreasing(s, n);
    if n > 0 {
      FilterFirstSelects(s, n - 1);
    }
  }

  /**
   * The output is the input's records at the first occurrence of each id and nowhere
   * else, in input order; it has pairwise-distinct ids and every id of the input.
   */
  lemma UniqueByIdSpec(s: seq<Category>)
    ensures var idx := KeptIndices(s, |s|);
      && |idx| == |UniqueById(s)|
      && (forall p :: 0 <= p < |idx| ==> idx[p] < |s| && UniqueById(s)[p] == s[idx[p]])
      && (forall p, q :: 0 <= p < q < |idx| ==> idx[p] < idx[q])
      && (forall i :: 0 <= i < |s| ==> (i in idx <==> forall j :: 0 <= j < i ==> s[j].id != s[i].id))
    ensures DistinctIds(UniqueById(s))
    ensures Ids(UniqueById(s)) == Ids(s)
  {
    FilterFirstSelects(s, |s|);
    KeptIndicesIncreasing(s, |s|);
    KeptIndicesAreFirstOccurrences(s, |s|);
    FilterFirstIds(s, |s|);
    assert s[..|s|] == s;
  }

  /** On input whose ids are already distinct the filter keeps everything. */
  lemma {:induction false} FilterFirstOfDistinct(s: seq<Category>, n: nat)
    requires n <= |s|
    requires DistinctIds(s)
    ensures FilterFirst(s, n) == s[..n]
  {
    if n > 0 {
      FilterFirstOfDistinct(s, n - 1);
      assert s[..n] == s[..n - 1] + [s[n - 1]];
    }
  }

  lemma UniqueByIdOfDistinct(s: seq<Category>)
    requires DistinctIds(s)
    ensures UniqueById(s) == s
  {
    FilterFirstOfDistinct(s, |s|);
    assert s[..|s|] == s;
  }

  lemma UniqueByIdIdempotent(s: seq<Category>)
    ensures UniqueById(UniqueById(s)) == UniqueById(s)
  {
    FilterFirstIds(s, |s|);
    UniqueByIdOfDistinct(UniqueById(s));
  }

  lemma {:induction false} KeepFirstSnoc(t: seq<Category>, x: Category, seen: set<Id>)
    ensures KeepFirst(t + [x], seen)
         == KeepFirst(t, seen) + (if x.id in seen + Ids(t) then [] else [x])
  {
    if t == [] {
      assert [] + [x] == [x];
    } else {
      assert (t + [x])[0] == t[0];
      assert (t + [x])[1..] == t[1..] + [x];
      assert t == [t[0]] + t[1..];
      IdsAppend([t[0]], t[1..]);
      assert Ids([t[0]]) == {t[0].id};
      if t[0].id in seen {
        KeepFirstSnoc(t[1..], x, seen);
      } else {
        KeepFirstSnoc(t[1..], x, seen + {t[0].id});
      }
    }
  }

  lemma {:induction false} FilterFirstIsKeepFirst(s: seq<Category>, n: nat)
    requires n <= |s|
    ensures FilterFirst(s, n) == KeepFirst(s[..n], {})
  {
    if n > 0 {
      FilterFirstIsKeepFirst(s, n - 1);
      assert s[..n] == s[..n - 1] + [s[n - 1]];
      KeepFirstSnoc(s[..n - 1], s[n - 1], {});
      FirstOccurrenceIff(s, n - 1);
      assert {} + Ids(s[..n - 1]) == Ids(s[..n - 1]);
    }
  }

  /** The index-based filter agrees with the seen-set reference on every input. */
  lemma UniqueByIdIsKeepFirst(s: seq<Category>)
    ensures UniqueById(s) == KeepFirst(s, {})
  {
    FilterFirstIsKeepFirst(s, |s|);
    assert s[..|s|] == s;
  }
}
