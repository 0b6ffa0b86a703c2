/** The JavaScript array operations the dashboard's logic is written with:
    `filter`, `some` and `find`, over immutable sequences. */
module Lists {
  import opened Common

  /** `s.filter(p)`: the elements satisfying `p`, in their original order. */
  function Filter<T>(s: seq<T>, p: T -> bool): (r: seq<T>)
    ensures |r| <= |s|
  {
    if s == [] then []
    else Filter(s[..|s| - 1], p) + (if p(s[|s| - 1]) then [s[|s| - 1]] else [])
  }

  /** `s.some(p)`. */
  predicate Any<T>(s: seq<T>, p: T -> bool) {
    exists i :: 0 <= i < |s| && p(s[i])
  }

  /** `s.find(p)`: the first element satisfying `p`, if any. */
  function Find<T>(s: seq<T>, p: T -> bool): Option<T> {
    if s == [] then None
    else if p(s[0]) then Some(s[0])
    else Find(s[1..], p)
  }

  /** `s.filter((_, i) => i !== idx)`, the What-If simulator's `removeRow`:
      the element at `idx` removed; an index out of range removes nothing. */
  function RemoveAt<T>(s: seq<T>, idx: int): (r: seq<T>)
    ensures 0 <= idx < |s| ==> |r| == |s| - 1
    ensures 0 <= idx < |s| ==> forall i | 0 <= i < |r| :: r[i] == if i < idx then s[i] else s[i + 1]
    ensures !(0 <= idx < |s|) ==> r == s
  {
    if 0 <= idx < |s| then s[..idx] + s[idx + 1..] else s
  }

  // ---------------------------------------------------------------------
  // Filter
  // ---------------------------------------------------------------------

  /** Filtering a concatenation filters each part. */
  lemma {:induction false} FilterConcat<T>(a: seq<T>, b: seq<T>, p: T -> bool)
    ensures Filter(a + b, p) == Filter(a, p) + Filter(b, p)
    decreases |b|
  {
    if b == [] {
      assert a + b == a;
    } else {
      var b' := b[..|b| - 1];
      assert (a + b)[..|a + b| - 1] == a + b';
      assert (a + b)[|a + b| - 1] == b[|b| - 1];
      FilterConcat(a, b', p);
    }
  }

  /** Filtering a sequence extended by one element. */
  lemma FilterSnoc<T>(s: seq<T>, x: T, p: T -> bool)
    ensures Filter(s + [x], p) == Filter(s, p) + (if p(x) then [x] else [])
  {
    assert (s + [x])[..|s|] == s;
  }

  /** Exactly the elements of `s` that satisfy `p` survive. */
  lemma {:induction false} FilterMember<T>(s: seq<T>, p: T -> bool, x: T)
    ensures x in Filter(s, p) <==> x in s && p(x)
  {
    if s != [] {
      var init := s[..|s| - 1];
      FilterMember(init, p, x);
      assert s == init + [s[|s| - 1]];
    }
  }

  /** Every element that survives satisfies `p`. */
  lemma FilterSatisfies<T>(s: seq<T>, p: T -> bool)
    ensures forall x | x in Filter(s, p) :: x in s && p(x)
  {
    forall x | x in Filter(s, p)
      ensures x in s && p(x)
    {
      FilterMember(s, p, x);
    }
  }

  /** Filtering by a predicate every element meets changes nothing. */
  lemma {:induction false} FilterAll<T>(s: seq<T>, p: T -> bool)
    requires forall i :: 0 <= i < |s| ==> p(s[i])
    ensures Filter(s, p) == s
  {
    if s != [] {
      FilterAll(s[..|s| - 1], p);
    }
  }

  /** Filtering by a predicate no element meets leaves nothing. */
  lemma {:induction false} FilterNone<T>(s: seq<T>, p: T -> bool)
    requires forall i :: 0 <= i < |s| ==> !p(s[i])
    ensures Filter(s, p) == []
  {
    if s != [] {
      FilterNone(s[..|s| - 1], p);
    }
  }

  /** A predicate and its negation split a sequence: every element lands
      in exactly one of the two filters, as often as it occurs in `s`. */
  lemma {:induction false} FilterSplit<T>(s: seq<T>, p: T -> bool, q: T -> bool)
    requires forall x :: q(x) == !p(x)
    ensures multiset(Filter(s, p)) + multiset(Filter(s, q)) == multiset(s)
  {
    if s != [] {
      var init := s[..|s| - 1];
      FilterSplit(init, p, q);
      assert s == init + [s[|s| - 1]];
    }
  }

  /** Three predicates of which each element meets exactly one split a
      sequence three ways. */
  lemma {:induction false} FilterSplit3<T>(s: seq<T>, p: T -> bool, q: T -> bool, r: T -> bool)
    requires forall x :: (p(x) && !q(x) && !r(x)) || (!p(x) && q(x) && !r(x)) || (!p(x) && !q(x) && r(x))
    ensures multiset(Filter(s, p)) + multiset(Filter(s, q)) + multiset(Filter(s, r)) == multiset(s)
  {
    if s != [] {
      var init := s[..|s| - 1];
      FilterSplit3(init, p, q, r);
      assert s == init + [s[|s| - 1]];
    }
  }

  /** Filtering a part that passes followed by a part that fails keeps
      exactly the first part, and the opposite filter the second. */
  lemma FilterPassThenFail<T>(a: seq<T>, b: seq<T>, p: T -> bool, q: T -> bool)
    requires forall i :: 0 <= i < |a| ==> p(a[i]) && !q(a[i])
    requires forall i :: 0 <= i < |b| ==> !p(b[i]) && q(b[i])
    ensures Filter(a + b, p) == a
    ensures Filter(a + b, q) == b
  {
    FilterAll(a, p);
    FilterNone(b, p);
    FilterConcat(a, b, p);
    FilterNone(a, q);
    FilterAll(b, q);
    FilterConcat(a, b, q);
  }

  /** Two filters commute. */
  lemma {:induction false} FilterCommute<T>(s: seq<T>, p: T -> bool, c: T -> bool)
    ensures Filter(Filter(s, p), c) == Filter(Filter(s, c), p)
  {
    if s != [] {
      var init := s[..|s| - 1];
      var x := s[|s| - 1];
      FilterCommute(init, p, c);
      var px := if p(x) then [x] else [];
      var cx := if c(x) then [x] else [];
      FilterConcat(Filter(init, p), px, c);
      FilterConcat(Filter(init, c), cx, p);
      assert Filter([x], c) == cx && Filter([x], p) == px by {
        assert [x][..0] == [];
      }
    }
  }

  /** Filtering the two halves of a split and joining the results gives,
      up to order, the whole sequence filtered. */
  lemma FilterOfSplit<T>(s: seq<T>, p: T -> bool, q: T -> bool, c: T -> bool)
    requires forall x :: q(x) == !p(x)
    ensures multiset(Filter(Filter(s, p), c)) + multiset(Filter(Filter(s, q), c)) == multiset(Filter(s, c))
  {
    FilterCommute(s, p, c);
    FilterCommute(s, q, c);
    FilterSplit(Filter(s, c), p, q);
  }

  /** When two predicates agree on `s`, they filter it the same way. */
  lemma {:induction false} FilterCongruent<T>(s: seq<T>, p: T -> bool, q: T -> bool)
    requires forall i :: 0 <= i < |s| ==> p(s[i]) == q(s[i])
    ensures Filter(s, p) == Filter(s, q)
  {
    if s != [] {
      FilterCongruent(s[..|s| - 1], p, q);
    }
  }

  // ---------------------------------------------------------------------
  // Find
  // ---------------------------------------------------------------------

  /** `find` returns the first element that satisfies `p`, and returns
      nothing exactly when no element does. */
  lemma {:induction false} FindFirst<T>(s: seq<T>, p: T -> bool)
    ensures Find(s, p).None? <==> !Any(s, p)
    ensures Find(s, p).Some? ==>
      exists i :: 0 <= i < |s| && s[i] == Find(s, p).value && p(s[i])
                  && forall j :: 0 <= j < i ==> !p(s[j])
  {
    if s != [] {
      FindFirst(s[1..], p);
      if !p(s[0]) {
        if Any(s[1..], p) {
          var i :| 0 <= i < |s[1..]| && s[1..][i] == Find(s, p).value && p(s[1..][i])
                   && forall j :: 0 <= j < i ==> !p(s[1..][j]);
          assert s[i + 1] == s[1..][i];
          assert forall j :: 1 <= j < i + 1 ==> s[j] == s[1..][j - 1];
        } else {
          assert forall i :: 1 <= i < |s| ==> s[i] == s[1..][i - 1];
        }
      }
    }
  }
}
