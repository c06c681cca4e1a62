/** Order-preserving filters over sequences, as the provider's loops build their lists. */
module Seqs {
  import opened Wrappers

  /** The elements of `s` that `keep` accepts, in order. */
  function Filter<T>(s: seq<T>, keep: T -> bool): (r: seq<T>)
    ensures |r| <= |s|
  {
    if s == [] then []
    else
      var last := |s| - 1;
      Filter(s[..last], keep) + (if keep(s[last]) then [s[last]] else [])
  }

  /** The values `f` yields for the elements of `s`, in order, skipping `None`. */
  function FilterMap<T, U>(s: seq<T>, f: T -> Option<U>): (r: seq<U>)
    ensures |r| <= |s|
  {
    if s == [] then []
    else
      var last := |s| - 1;
      FilterMap(s[..last], f) + f(s[last]).ToSeq()
  }

  /** Filtering a concatenation filters each part. */
  lemma {:induction false} FilterAppend<T>(a: seq<T>, b: seq<T>, keep: T -> bool)
    ensures Filter(a + b, keep) == Filter(a, keep) + Filter(b, keep)
    decreases |b|
  {
    if b == [] {
      assert a + b == a;
    } else {
      var init, x := b[..|b| - 1], b[|b| - 1];
      var last := if keep(x) then [x] else [];
      calc {
        Filter(a + b, keep);
        { assert a + b == (a + init) + [x]; }
        Filter((a + init) + [x], keep);
        { FilterSnoc(a + init, x, keep); }
        Filter(a + init, keep) + last;
        { FilterAppend(a, init, keep); }
        (Filter(a, keep) + Filter(init, keep)) + last;
        Filter(a, keep) + (Filter(init, keep) + last);
        { FilterSnoc(init, x, keep); assert b == init + [x]; }
        Filter(a, keep) + Filter(b, keep);
      }
    }
  }

  /** Filtering a list with one more element at the end adds that element when it is kept. */
  lemma FilterSnoc<T>(s: seq<T>, x: T, keep: T -> bool)
    ensures Filter(s + [x], keep) == Filter(s, keep) + (if keep(x) then [x] else [])
  {
    assert (s + [x])[..|s|] == s;
  }

  /** An element is kept exactly when it occurs in the input and is accepted. */
  lemma {:induction false} FilterMembers<T>(s: seq<T>, keep: T -> bool, x: T)
    ensures x in Filter(s, keep) <==> x in s && keep(x)
    decreases |s|
  {
    if s != [] {
      var last := |s| - 1;
      FilterMembers(s[..last], keep, x);
      assert s == s[..last] + [s[last]];
    }
  }

  /** Mapping a concatenation maps each part. */
  lemma {:induction false} FilterMapAppend<T, U>(a: seq<T>, b: seq<T>, f: T -> Option<U>)
    ensures FilterMap(a + b, f) == FilterMap(a, f) + FilterMap(b, f)
    decreases |b|
  {
    if b == [] {
      assert a + b == a;
    } else {
      var init, x := b[..|b| - 1], b[|b| - 1];
      calc {
        FilterMap(a + b, f);
        { assert a + b == (a + init) + [x]; }
        FilterMap((a + init) + [x], f);
        { FilterMapSnoc(a + init, x, f); }
        FilterMap(a + init, f) + f(x).ToSeq();
        { FilterMapAppend(a, init, f); }
        (FilterMap(a, f) + FilterMap(init, f)) + f(x).ToSeq();
        FilterMap(a, f) + (FilterMap(init, f) + f(x).ToSeq());
        { FilterMapSnoc(init, x, f); assert b == init + [x]; }
        FilterMap(a, f) + FilterMap(b, f);
      }
    }
  }

  /** Mapping a list with one more element at the end adds that element's value, if any. */
  lemma FilterMapSnoc<T, U>(s: seq<T>, x: T, f: T -> Option<U>)
    ensures FilterMap(s + [x], f) == FilterMap(s, f) + f(x).ToSeq()
  {
    assert (s + [x])[..|s|] == s;
  }

  /** Nothing comes out exactly when every element yields `None`. */
  lemma {:induction false} FilterMapEmpty<T, U>(s: seq<T>, f: T -> Option<U>)
    ensures FilterMap(s, f) == [] <==> forall i :: 0 <= i < |s| ==> f(s[i]).None?
    decreases |s|
  {
    if s != [] {
      var last := |s| - 1;
      var init := s[..last];
      FilterMapEmpty(init, f);
      assert FilterMap(s, f) == FilterMap(init, f) + f(s[last]).ToSeq();
      if FilterMap(s, f) == [] {
        assert FilterMap(init, f) == [] && f(s[last]).None?;
        forall i | 0 <= i < |s| ensures f(s[i]).None? {
          if i < last {
            assert s[i] == init[i];
          }
        }
      }
      if forall i :: 0 <= i < |s| ==> f(s[i]).None? {
        forall i | 0 <= i < |init| ensures f(init[i]).None? {
          assert init[i] == s[i];
        }
      }
    }
  }

  /** A value comes out exactly when some element yields it. */
  lemma {:induction false} FilterMapMembers<T, U>(s: seq<T>, f: T -> Option<U>, y: U)
    ensures y in FilterMap(s, f) <==> exists i :: 0 <= i < |s| && f(s[i]) == Some(y)
    decreases |s|
  {
    if s != [] {
      var last := |s| - 1;
      var init := s[..last];
      FilterMapMembers(init, f, y);
      assert FilterMap(s, f) == FilterMap(init, f) + f(s[last]).ToSeq();
      if y in FilterMap(s, f) {
        if y in FilterMap(init, f) {
          var i :| 0 <= i < |init| && f(init[i]) == Some(y);
          assert s[i] == init[i];
        } else {
          assert f(s[last]) == Some(y);
        }
      }
      if exists i :: 0 <= i < |s| && f(s[i]) == Some(y) {
        var i :| 0 <= i < |s| && f(s[i]) == Some(y);
        if i < last {
          assert init[i] == s[i];
        }
      }
    }
  }

  /** No element of `s` satisfies `bad`. */
  predicate NoneSatisfy<T>(s: seq<T>, bad: T -> bool) {
    forall i :: 0 <= i < |s| ==> !bad(s[i])
  }

  /** Checking one more element at the end checks that element alone. */
  lemma NoneSatisfySnoc<T>(s: seq<T>, x: T, bad: T -> bool)
    ensures NoneSatisfy(s + [x], bad) <==> NoneSatisfy(s, bad) && !bad(x)
  {
    if NoneSatisfy(s, bad) && !bad(x) {
      forall i | 0 <= i < |s + [x]| ensures !bad((s + [x])[i]) {
        if i < |s| {
          assert (s + [x])[i] == s[i];
        }
      }
    }
    if NoneSatisfy(s + [x], bad) {
      assert (s + [x])[|s|] == x;
      forall i | 0 <= i < |s| ensures !bad(s[i]) {
        assert (s + [x])[i] == s[i];
      }
    }
  }
}
