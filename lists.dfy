/** The two list updates every view of the dashboard uses on its state arrays:
    `array.filter(p)` and `array.map(x => sel(x) ? f(x) : x)`. */
module Lists {

  import opened Wrappers

  /** `a` is `b` with some elements left out, the rest in their original order. */
  predicate IsSubsequence<T(==)>(a: seq<T>, b: seq<T>)
    decreases |b|
  {
    a == [] || (b != [] && ((a[0] == b[0] && IsSubsequence(a[1..], b[1..])) || IsSubsequence(a, b[1..])))
  }

  /** A subsequence is no longer than the sequence it is taken from. */
  lemma {:induction false} SubsequenceLength<T>(a: seq<T>, b: seq<T>)
    requires IsSubsequence(a, b)
    ensures |a| <= |b|
    decreases |b|
  {
    if a != [] {
      if a[0] == b[0] && IsSubsequence(a[1..], b[1..]) {
        SubsequenceLength(a[1..], b[1..]);
      } else {
        SubsequenceLength(a, b[1..]);
      }
    }
  }

  /** Every element of a subsequence is an element of the sequence. */
  lemma {:induction false} SubsequenceMembers<T>(a: seq<T>, b: seq<T>)
    requires IsSubsequence(a, b)
    ensures forall x :: x in a ==> x in b
    decreases |b|
  {
    if a != [] {
      if a[0] == b[0] && IsSubsequence(a[1..], b[1..]) {
        SubsequenceMembers(a[1..], b[1..]);
        assert forall x :: x in a ==> x == a[0] || x in a[1..];
      } else {
        SubsequenceMembers(a, b[1..]);
      }
    }
  }

  /** Every sequence is a subsequence of itself. */
  lemma {:induction false} SubsequenceSelf<T>(s: seq<T>)
    ensures IsSubsequence(s, s)
  {
    if s != [] {
      SubsequenceSelf(s[1..]);
    }
  }

  /** `s.filter(p)`. */
  function Filter<T(==)>(s: seq<T>, p: T -> bool): (r: seq<T>)
    ensures IsSubsequence(r, s)
    ensures forall i :: 0 <= i < |r| ==> r[i] in s && p(r[i])
    ensures forall i :: 0 <= i < |s| && p(s[i]) ==> s[i] in r
  {
    if s == [] then []
    else if p(s[0]) then [s[0]] + Filter(s[1..], p)
    else Filter(s[1..], p)
  }

  /** The filter adds nothing: no element occurs more often in the result than in the list. */
  lemma {:induction false} FilterSubMultiset<T>(s: seq<T>, p: T -> bool)
    ensures multiset(Filter(s, p)) <= multiset(s)
  {
    if s != [] {
      var tail := s[1..];
      FilterSubMultiset(tail, p);
      assert s == [s[0]] + tail;
      if p(s[0]) {
        assert Filter(s, p) == [s[0]] + Filter(tail, p);
      }
    }
  }

  /** The filter keeps every passing element as often as it occurs in the list. */
  lemma {:induction false} FilterKeepsCounts<T>(s: seq<T>, p: T -> bool)
    ensures forall i :: 0 <= i < |s| && p(s[i]) ==> multiset(Filter(s, p))[s[i]] == multiset(s)[s[i]]
  {
    if s != [] {
      var tail := s[1..];
      FilterKeepsCounts(tail, p);
      var rest := Filter(tail, p);
      var r := Filter(s, p);
      assert multiset(s) == multiset{s[0]} + multiset(tail) by {
        assert s == [s[0]] + tail;
      }
      assert multiset(r) == (if p(s[0]) then multiset{s[0]} else multiset{}) + multiset(rest) by {
        if p(s[0]) {
          assert r == [s[0]] + rest;
        }
      }
      forall i | 0 <= i < |s| && p(s[i])
        ensures multiset(r)[s[i]] == multiset(s)[s[i]]
      {
        if i > 0 {
          assert s[i] == tail[i - 1];
        }
      }
    }
  }

  /** The filtered list is never longer than the list. */
  lemma FilterLength<T>(s: seq<T>, p: T -> bool)
    ensures |Filter(s, p)| <= |s|
  {
    SubsequenceLength(Filter(s, p), s);
  }

  /** A filter that every element passes keeps the whole list. */
  lemma {:induction false} FilterAll<T>(s: seq<T>, p: T -> bool)
    requires forall i :: 0 <= i < |s| ==> p(s[i])
    ensures Filter(s, p) == s
  {
    if s != [] {
      FilterAll(s[1..], p);
    }
  }

  /** The filtered list is empty exactly when no element passes. */
  lemma FilterEmpty<T>(s: seq<T>, p: T -> bool)
    ensures Filter(s, p) == [] <==> forall i :: 0 <= i < |s| ==> !p(s[i])
  {
    if Filter(s, p) == [] {
      forall i | 0 <= i < |s| ensures !p(s[i]) {
        assert s[i] in s;
      }
    } else {
      assert Filter(s, p)[0] in Filter(s, p);
    }
  }

  /** Two filters whose predicates agree on the list give the same result. */
  lemma {:induction false} FilterCongruent<T>(s: seq<T>, p: T -> bool, q: T -> bool)
    requires forall i :: 0 <= i < |s| ==> p(s[i]) == q(s[i])
    ensures Filter(s, p) == Filter(s, q)
  {
    if s != [] {
      FilterCongruent(s[1..], p, q);
    }
  }

  /** `s.find(p)`: the first element that passes, if any. */
  function Find<T>(s: seq<T>, p: T -> bool): (r: Option<T>)
    ensures r.None? <==> forall i :: 0 <= i < |s| ==> !p(s[i])
    ensures r.Some? ==> exists i :: 0 <= i < |s| && s[i] == r.value && p(r.value)
                                    && forall j :: 0 <= j < i ==> !p(s[j])
  {
    if s == [] then None
    else if p(s[0]) then Some(s[0])
    else
      var r := Find(s[1..], p);
      assert r.Some? ==> exists i :: 0 <= i < |s| && s[i] == r.value && p(r.value) && forall j :: 0 <= j < i ==> !p(s[j]) by {
        if r.Some? {
          var i :| 0 <= i < |s[1..]| && s[1..][i] == r.value && p(r.value) && forall j :: 0 <= j < i ==> !p(s[1..][j]);
          assert s[i + 1] == r.value && forall j :: 0 <= j < i + 1 ==> !p(s[j]);
        }
      }
      r
  }

  /** `s.map(x => sel(x) ? f(x) : x)`: replace the selected elements by their image under `f`. */
  function UpdateWhere<T>(s: seq<T>, sel: T -> bool, f: T -> T): (r: seq<T>)
    ensures |r| == |s|
    ensures forall i :: 0 <= i < |s| ==> r[i] == if sel(s[i]) then f(s[i]) else s[i]
  {
    if s == [] then [] else [if sel(s[0]) then f(s[0]) else s[0]] + UpdateWhere(s[1..], sel, f)
  }

  /** When nothing is selected, the update changes nothing. */
  lemma UpdateWhereNone<T>(s: seq<T>, sel: T -> bool, f: T -> T)
    requires forall i :: 0 <= i < |s| ==> !sel(s[i])
    ensures UpdateWhere(s, sel, f) == s
  {
    assert forall i :: 0 <= i < |s| ==> UpdateWhere(s, sel, f)[i] == s[i];
  }

  /** An update whose image stays selected and is a fixed point of `f` is idempotent. */
  lemma UpdateWhereIdempotent<T>(s: seq<T>, sel: T -> bool, f: T -> T)
    requires forall x :: sel(x) ==> sel(f(x)) && f(f(x)) == f(x)
    ensures UpdateWhere(UpdateWhere(s, sel, f), sel, f) == UpdateWhere(s, sel, f)
  {
    var once := UpdateWhere(s, sel, f);
    assert forall i :: 0 <= i < |s| ==> UpdateWhere(once, sel, f)[i] == once[i];
  }

  /** An update whose image stays selected and whose `f` undoes itself, applied twice, restores the list. */
  lemma UpdateWhereInvolution<T>(s: seq<T>, sel: T -> bool, f: T -> T)
    requires forall x :: sel(x) ==> sel(f(x)) && f(f(x)) == x
    ensures UpdateWhere(UpdateWhere(s, sel, f), sel, f) == s
  {
    assert forall i :: 0 <= i < |s| ==> UpdateWhere(UpdateWhere(s, sel, f), sel, f)[i] == s[i];
  }
}
