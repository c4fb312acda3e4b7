/**
 Sequences of decimal keys: duplicate-free enumerations, and the sorted set
 of keys a tree set yields when it is built from such an enumeration.
 */
module SortedKeys {

  /** No key occurs twice. */
  ghost predicate Distinct(s: seq<real>)
  {
    forall i, j :: 0 <= i < j < |s| ==> s[i] != s[j]
  }

  /** Each key is smaller than the next one. */
  ghost predicate StrictlyIncreasing(s: seq<real>)
  {
    forall i, j :: 0 <= i < j < |s| ==> s[i] < s[j]
  }

  /** The keys a sequence holds. */
  function Elements(s: seq<real>): set<real>
  {
    set x | x in s
  }

  /** A duplicate-free sequence has as many entries as it holds keys. */
  lemma {:induction false} DistinctCardinality(s: seq<real>)
    requires Distinct(s)
    ensures |Elements(s)| == |s|
  {
    if s != [] {
      DistinctCardinality(s[1..]);
      assert Elements(s) == {s[0]} + Elements(s[1..]);
      assert s[0] !in Elements(s[1..]) by {
        forall k | 1 <= k < |s| ensures s[k] != s[0] {
        }
      }
    }
  }

  /** Two duplicate-free sequences holding the same keys have the same length. */
  lemma SameElementsSameLength(a: seq<real>, b: seq<real>)
    requires Distinct(a) && Distinct(b)
    requires Elements(a) == Elements(b)
    ensures |a| == |b|
  {
    DistinctCardinality(a);
    DistinctCardinality(b);
  }

  /** Adds `x` to a strictly increasing sequence at its place; a key already
      present is not added again, as in a tree set. */
  function Insert(x: real, s: seq<real>): (r: seq<real>)
    requires StrictlyIncreasing(s)
    ensures StrictlyIncreasing(r)
    ensures Elements(r) == Elements(s) + {x}
    decreases |s|
  {
    if s == [] then [x]
    else if x < s[0] then
      PrependStep(x, s);
      [x] + s
    else if x == s[0] then s
    else
      var rest := Insert(x, s[1..]);
      InsertStep(x, s, rest);
      [s[0]] + rest
  }

  /** The first case of `Insert`: a key below the head goes in front. */
  lemma PrependStep(x: real, s: seq<real>)
    requires StrictlyIncreasing(s) && s != [] && x < s[0]
    ensures StrictlyIncreasing([x] + s)
    ensures Elements([x] + s) == Elements(s) + {x}
  {
    HeadBelowTail(s);
    PrependSmaller(x, s);
  }

  /** The last case of `Insert`: a key above the head goes into the tail. */
  lemma InsertStep(x: real, s: seq<real>, rest: seq<real>)
    requires StrictlyIncreasing(s) && s != [] && s[0] < x
    requires StrictlyIncreasing(rest)
    requires Elements(rest) == Elements(s[1..]) + {x}
    ensures StrictlyIncreasing([s[0]] + rest)
    ensures Elements([s[0]] + rest) == Elements(s) + {x}
  {
    assert s == [s[0]] + s[1..];
    assert Elements(s) == {s[0]} + Elements(s[1..]);
    assert Elements([s[0]] + rest) == {s[0]} + Elements(rest);
    HeadBelowTail(s);
    assert forall y :: y in rest ==> y in Elements(rest);
    PrependSmaller(s[0], rest);
  }

  /** The first key of an increasing sequence is below all the others. */
  lemma HeadBelowTail(s: seq<real>)
    requires StrictlyIncreasing(s) && s != []
    ensures forall y :: y in s[1..] ==> s[0] < y
  {
    forall y | y in s[1..] ensures s[0] < y {
      var k :| 0 <= k < |s[1..]| && s[1..][k] == y;
      assert s[k + 1] == y;
    }
  }

  /** A key below every key of an increasing sequence can be put in front. */
  lemma PrependSmaller(h: real, t: seq<real>)
    requires StrictlyIncreasing(t)
    requires forall y :: y in t ==> h < y
    ensures StrictlyIncreasing([h] + t)
  {
    forall i, j | 0 <= i < j < |[h] + t| ensures ([h] + t)[i] < ([h] + t)[j] {
      if i > 0 {
        assert ([h] + t)[i] == t[i - 1];
      }
      assert ([h] + t)[j] == t[j - 1] && t[j - 1] in t;
    }
  }

  /** The keys of `keys` in increasing order, each once: the iteration order
      of a tree set filled with `keys`. */
  function Sort(keys: seq<real>): (r: seq<real>)
    ensures StrictlyIncreasing(r)
    ensures Elements(r) == Elements(keys)
    decreases |keys|
  {
    if keys == [] then []
    else
      var rest := Sort(keys[..|keys| - 1]);
      assert keys == keys[..|keys| - 1] + [keys[|keys| - 1]];
      assert Elements(keys) == Elements(keys[..|keys| - 1]) + {keys[|keys| - 1]};
      Insert(keys[|keys| - 1], rest)
  }

  /** Sorting keeps every key of a duplicate-free enumeration, so it keeps
      its length. */
  lemma SortKeepsDistinctKeys(keys: seq<real>)
    requires Distinct(keys)
    ensures |Sort(keys)| == |keys|
    ensures Distinct(Sort(keys))
  {
    SameElementsSameLength(Sort(keys), keys);
  }
}
