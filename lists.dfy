/**
 * The array operations the core leans on: `Array.prototype.find` (the
 * first element that satisfies a test), `Array.prototype.filter` (every
 * element that does, in order) and `Array.prototype.map` with a callback
 * that may throw.
 */
module Lists {
  import opened Json

  /** The position `find` stops at: the first element satisfying `p`, if any. */
  function FirstWhere<T>(s: seq<T>, p: T -> bool): (r: Option<nat>)
    ensures r.Some? ==> r.value < |s| && p(s[r.value])
    ensures r.Some? ==> forall j :: 0 <= j < r.value ==> !p(s[j])
    ensures r.None? ==> forall j :: 0 <= j < |s| ==> !p(s[j])
  {
    if s == [] then None
    else if p(s[0]) then Some(0)
    else match FirstWhere(s[1..], p)
      case None => None
      case Some(k) => Some(k + 1)
  }

  /** `s.filter(p)`. */
  function Filter<T>(s: seq<T>, p: T -> bool): (r: seq<T>)
    ensures |r| <= |s|
    ensures forall i :: 0 <= i < |r| ==> r[i] in s && p(r[i])
    ensures forall i :: 0 <= i < |s| && p(s[i]) ==> s[i] in r
  {
    if s == [] then []
    else (if p(s[0]) then [s[0]] else []) + Filter(s[1..], p)
  }

  /** Filtering distributes over concatenation, so the kept elements stay in their original order. */
  lemma {:induction false} FilterConcat<T>(a: seq<T>, b: seq<T>, p: T -> bool)
    ensures Filter(a + b, p) == Filter(a, p) + Filter(b, p)
  {
    if a == [] {
      assert a + b == b;
    } else {
      assert (a + b)[1..] == a[1..] + b;
      FilterConcat(a[1..], b, p);
    }
  }

  /** The filter is empty exactly when no element passes. */
  lemma {:induction false} FilterEmptyIffNone<T>(s: seq<T>, p: T -> bool)
    ensures Filter(s, p) == [] <==> forall j :: 0 <= j < |s| ==> !p(s[j])
  {
    if s != [] {
      FilterEmptyIffNone(s[1..], p);
      if forall j :: 0 <= j < |s| ==> !p(s[j]) {
        assert forall j :: 0 <= j < |s| - 1 ==> !p(s[1..][j]) by {
          forall j | 0 <= j < |s| - 1 ensures !p(s[1..][j]) {
            assert s[1..][j] == s[j + 1];
          }
        }
      } else {
        var j :| 0 <= j < |s| && p(s[j]);
        if j > 0 {
          assert s[1..][j - 1] == s[j];
        }
      }
    }
  }

  /** `find` answers with something exactly when `filter` keeps something, and the answer is the first kept element. */
  lemma {:induction false} FirstWhereIsFirstOfFilter<T>(s: seq<T>, p: T -> bool)
    ensures FirstWhere(s, p).Some? <==> Filter(s, p) != []
    ensures FirstWhere(s, p).Some? ==> Filter(s, p)[0] == s[FirstWhere(s, p).value]
  {
    if s != [] && !p(s[0]) {
      FirstWhereIsFirstOfFilter(s[1..], p);
    }
  }

  /** `sub` is `s` with some elements left out and the rest in their original order. */
  ghost predicate IsSubsequence<T>(sub: seq<T>, s: seq<T>)
    decreases |s|
  {
    if sub == [] then true
    else if s == [] then false
    else if sub[0] == s[0] then IsSubsequence(sub[1..], s[1..])
    else IsSubsequence(sub, s[1..])
  }

  /** What `filter` keeps is a subsequence of its input: nothing is reordered. */
  lemma {:induction false} FilterIsSubsequence<T>(s: seq<T>, p: T -> bool)
    ensures IsSubsequence(Filter(s, p), s)
  {
    if s != [] {
      FilterIsSubsequence(s[1..], p);
      if p(s[0]) {
        assert Filter(s, p) == [s[0]] + Filter(s[1..], p);
        assert Filter(s, p)[1..] == Filter(s[1..], p);
      } else {
        assert Filter(s, p) == Filter(s[1..], p);
        SubsequenceOfTail(Filter(s[1..], p), s);
      }
    }
  }

  /** `filter` keeps every passing element as often as the input holds it, and no other. */
  lemma {:induction false} FilterMultiplicity<T>(s: seq<T>, p: T -> bool)
    ensures forall x :: multiset(Filter(s, p))[x] == if p(x) then multiset(s)[x] else 0
  {
    if s != [] {
      FilterMultiplicity(s[1..], p);
      assert s == [s[0]] + s[1..];
      assert Filter(s, p) == (if p(s[0]) then [s[0]] else []) + Filter(s[1..], p);
    }
  }

  /** A subsequence of the tail is a subsequence of the whole. */
  lemma {:induction false} SubsequenceOfTail<T>(sub: seq<T>, s: seq<T>)
    requires s != [] && IsSubsequence(sub, s[1..])
    ensures IsSubsequence(sub, s)
    decreases |s|, 0
  {
    if sub != [] && sub[0] == s[0] {
      SubsequenceDropHead(sub, s[1..]);
    }
  }

  /** Leaving out the first element of a subsequence keeps it a subsequence. */
  lemma {:induction false} SubsequenceDropHead<T>(sub: seq<T>, t: seq<T>)
    requires sub != [] && IsSubsequence(sub, t)
    ensures IsSubsequence(sub[1..], t)
    decreases |t|, 1
  {
    if sub[0] == t[0] {
      SubsequenceOfTail(sub[1..], t);
    } else {
      SubsequenceDropHead(sub, t[1..]);
      SubsequenceOfTail(sub[1..], t);
    }
  }

  /**
   * `s.map(f)` where `f` may throw: the elements are mapped front to back
   * and the first throw ends the map, so a single bad element rejects the
   * whole array.
   */
  function MapOrThrow<T, U>(s: seq<T>, f: T -> Outcome<U>): (r: Outcome<seq<U>>)
    ensures r.Return? <==> forall i :: 0 <= i < |s| ==> f(s[i]).Return?
    ensures r.Return? ==> |r.value| == |s| && forall i :: 0 <= i < |s| ==> r.value[i] == f(s[i]).value
    ensures r.Throw? ==>
      exists i :: 0 <= i < |s| && f(s[i]) == Throw(r.message) && forall j :: 0 <= j < i ==> f(s[j]).Return?
  {
    if s == [] then Return([])
    else match f(s[0])
      case Throw(m) => Throw(m)
      case Return(x) =>
        match MapOrThrow(s[1..], f)
        case Throw(m) =>
          assert exists i :: 0 <= i < |s[1..]| && f(s[1..][i]) == Throw(m) && forall j :: 0 <= j < i ==> f(s[1..][j]).Return?;
          var i :| 0 <= i < |s[1..]| && f(s[1..][i]) == Throw(m) && forall j :: 0 <= j < i ==> f(s[1..][j]).Return?;
          assert forall j :: 1 <= j < i + 1 ==> s[j] == s[1..][j - 1];
          Throw(m)
        case Return(rest) =>
          assert forall i :: 1 <= i < |s| ==> s[i] == s[1..][i - 1];
          Return([x] + rest)
  }
}
