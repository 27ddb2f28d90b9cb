/** Order-preserving filtering of sequences and the subsequence relation. */
module Seqs {
  import opened Wrappers

  /** `a` can be obtained from `b` by deleting elements (greedy matching from the end). */
  ghost predicate IsSubsequence<T>(a: seq<T>, b: seq<T>)
    decreases |b|
  {
    if a == [] then true
    else if b == [] then false
    else if a[|a| - 1] == b[|b| - 1] then IsSubsequence(a[..|a| - 1], b[..|b| - 1])
    else IsSubsequence(a, b[..|b| - 1])
  }

  /** No element occurs twice. */
  ghost predicate Distinct<T>(s: seq<T>) {
    forall i, j :: 0 <= i < j < |s| ==> s[i] != s[j]
  }

  /** The elements of `s` that satisfy `p`, in their original order
      (a Python list comprehension with an `if` clause). */
  function Filter<T>(s: seq<T>, p: T -> bool): (r: seq<T>)
    ensures |r| <= |s|
    ensures forall i :: 0 <= i < |r| ==> r[i] in s && p(r[i])
    ensures forall i :: 0 <= i < |s| && p(s[i]) ==> s[i] in r
    ensures IsSubsequence(r, s)
    decreases |s|
  {
    if s == [] then []
    else
      var init := Filter(s[..|s| - 1], p);
      var last := s[|s| - 1];
      assert s == s[..|s| - 1] + [last];
      if p(last) then
        assert (init + [last])[..|init|] == init;
        init + [last]
      else
        SubsequenceExtend(init, s[..|s| - 1], last);
        init
  }

  /** `Filter` of a longer prefix: one step of a filtering loop. */
  lemma FilterStep<T>(s: seq<T>, p: T -> bool, i: nat)
    requires i < |s|
    ensures Filter(s[..i + 1], p) == if p(s[i]) then Filter(s[..i], p) + [s[i]] else Filter(s[..i], p)
  {
    PrefixSnoc(s, i);
  }

  /** Appending an element to the longer sequence preserves the relation. */
  lemma {:induction false} SubsequenceExtend<T>(a: seq<T>, b: seq<T>, x: T)
    requires IsSubsequence(a, b)
    ensures IsSubsequence(a, b + [x])
    decreases |b|, 1
  {
    if a == [] {
    } else if a[|a| - 1] == x {
      assert (b + [x])[..|b|] == b;
      SubsequenceDropLast(a, b);
    } else {
      assert (b + [x])[..|b|] == b;
    }
  }

  /** Dropping the last element of the shorter sequence preserves the relation. */
  lemma {:induction false} SubsequenceDropLast<T>(a: seq<T>, b: seq<T>)
    requires a != [] && IsSubsequence(a, b)
    ensures IsSubsequence(a[..|a| - 1], b)
    decreases |b|, 0
  {
    var a' := a[..|a| - 1];
    if a' == [] {
    } else if a[|a| - 1] == b[|b| - 1] {
      // IsSubsequence(a', b[..|b|-1]) holds; extend by the last element of b
      SubsequenceExtend(a', b[..|b| - 1], b[|b| - 1]);
      assert b[..|b| - 1] + [b[|b| - 1]] == b;
    } else {
      SubsequenceDropLast(a, b[..|b| - 1]);
      SubsequenceExtend(a', b[..|b| - 1], b[|b| - 1]);
      assert b[..|b| - 1] + [b[|b| - 1]] == b;
    }
  }

  /** The present values of `s`, in order (building a list by appending
      only where a per-element step produced something). */
  function Somes<T>(s: seq<Option<T>>): (r: seq<T>)
    ensures |r| <= |s|
    decreases |s|
  {
    if s == [] then []
    else
      var init := Somes(s[..|s| - 1]);
      match s[|s| - 1]
      case None => init
      case Some(x) => init + [x]
  }

  /** A value is collected exactly when some position holds it. */
  lemma {:induction false} SomesMembership<T>(s: seq<Option<T>>, x: T)
    ensures x in Somes(s) <==> exists j :: 0 <= j < |s| && s[j] == Some(x)
    decreases |s|
  {
    if s != [] {
      var n := |s| - 1;
      SomesMembership(s[..n], x);
      forall j | 0 <= j < n ensures s[..n][j] == s[j] { }
      if s[n] == Some(x) {
        assert x in Somes(s);
      }
    }
  }

  /** `Somes` of a longer prefix: one step of the building loop. */
  lemma SomesStep<T>(s: seq<Option<T>>, i: nat)
    requires i < |s|
    ensures Somes(s[..i + 1]) == Somes(s[..i]) + (if s[i].Some? then [s[i].value] else [])
  {
    assert s[..i + 1][..i] == s[..i];
  }

  /** The concatenation of `ss`, in order. */
  function Concat<T>(ss: seq<seq<T>>): (r: seq<T>)
    decreases |ss|
  {
    if ss == [] then [] else Concat(ss[..|ss| - 1]) + ss[|ss| - 1]
  }

  /** An element of the concatenation comes from one of the parts, and back. */
  lemma {:induction false} ConcatMembership<T>(ss: seq<seq<T>>, x: T)
    ensures x in Concat(ss) <==> exists i :: 0 <= i < |ss| && x in ss[i]
    decreases |ss|
  {
    if ss != [] {
      var n := |ss| - 1;
      ConcatMembership(ss[..n], x);
      forall i | 0 <= i < n ensures ss[..n][i] == ss[i] { }
    }
  }

  /** `Concat` of a longer prefix: one step of the extending loop. */
  lemma ConcatStep<T>(ss: seq<seq<T>>, i: nat)
    requires i < |ss|
    ensures Concat(ss[..i + 1]) == Concat(ss[..i]) + ss[i]
  {
    assert ss[..i + 1][..i] == ss[..i];
  }

  /** The subsequence relation is transitive. */
  lemma {:induction false} SubsequenceTrans<T>(a: seq<T>, b: seq<T>, c: seq<T>)
    requires IsSubsequence(a, b) && IsSubsequence(b, c)
    ensures IsSubsequence(a, c)
    decreases |c|
  {
    if a == [] || b == [] || c == [] {
    } else {
      var c' := c[..|c| - 1];
      assert c' + [c[|c| - 1]] == c;
      if b[|b| - 1] == c[|c| - 1] {
        var b' := b[..|b| - 1];
        if a[|a| - 1] == b[|b| - 1] {
          SubsequenceTrans(a[..|a| - 1], b', c');
        } else {
          SubsequenceTrans(a, b', c');
          SubsequenceExtend(a, c', c[|c| - 1]);
        }
      } else {
        SubsequenceTrans(a, b, c');
        SubsequenceExtend(a, c', c[|c| - 1]);
      }
    }
  }

  /** Every sequence is a subsequence of itself. */
  lemma {:induction false} SubsequenceRefl<T>(a: seq<T>)
    ensures IsSubsequence(a, a)
    decreases |a|
  {
    if a != [] {
      SubsequenceRefl(a[..|a| - 1]);
    }
  }

  /** The values of `rs` when every element is `Ok`, otherwise the first
      error (evaluating a list comprehension that may raise). */
  function AllOk<T, E>(rs: seq<Result<T, E>>): (r: Result<seq<T>, E>)
    ensures r.Ok? ==> |r.value| == |rs|
    decreases |rs|
  {
    if rs == [] then Ok([])
    else
      var n := |rs| - 1;
      match AllOk(rs[..n])
      case Err(e) => Err(e)
      case Ok(init) =>
        match rs[n]
        case Err(e) => Err(e)
        case Ok(v) => Ok(init + [v])
  }

  /** `AllOk` fails exactly when some element is an error, and otherwise
      holds every element's value. */
  lemma {:induction false} AllOkSpec<T, E>(rs: seq<Result<T, E>>)
    ensures AllOk(rs).Err? <==> exists i :: 0 <= i < |rs| && rs[i].Err?
    ensures AllOk(rs).Ok? ==> forall i :: 0 <= i < |rs| ==> rs[i] == Ok(AllOk(rs).value[i])
    decreases |rs|
  {
    if rs != [] {
      var n := |rs| - 1;
      var init := rs[..n];
      AllOkSpec(init);
      if AllOk(init).Err? {
        var i :| 0 <= i < |init| && init[i].Err?;
        assert rs[i].Err?;
      } else if rs[n].Ok? {
        var vs := AllOk(init).value;
        assert AllOk(rs).value == vs + [rs[n].value];
        forall i | 0 <= i < |rs|
          ensures rs[i] == Ok(AllOk(rs).value[i])
        {
          if i < n {
            assert init[i] == rs[i];
          }
        }
      }
    }
  }

  /** The prefix one longer than `s[..i]` ends with `s[i]`. */
  lemma PrefixSnoc<T>(s: seq<T>, i: nat)
    requires i < |s|
    ensures |s[..i + 1]| == i + 1
    ensures s[..i + 1][..i] == s[..i] && s[..i + 1][i] == s[i]
  {
  }

  /** Dropping the last element of a sequence without repeats leaves one
      without repeats that lacks that element. */
  lemma DistinctSnoc<T>(s: seq<T>)
    requires Distinct(s) && s != []
    ensures Distinct(s[..|s| - 1]) && s[|s| - 1] !in s[..|s| - 1]
  {
  }

  /** The full prefix is the sequence itself. */
  lemma PrefixFull<T>(s: seq<T>)
    ensures s[..|s|] == s
  {
  }

  /** Appending one element keeps the old sequence as a prefix. */
  lemma AppendOne<T>(s: seq<T>, x: T)
    ensures (s + [x])[..|s|] == s && (s + [x])[|s|] == x
  {
  }

  /** The head and tail of a concatenation with a non-empty front. */
  lemma ConsAppend<T>(a: seq<T>, b: seq<T>)
    requires a != []
    ensures (a + b)[0] == a[0] && (a + b)[1..] == a[1..] + b
  {
  }

  lemma ConsTail<T>(x: T, s: seq<T>)
    ensures ([x] + s)[0] == x && ([x] + s)[1..] == s
  {
  }

  lemma InitLast<T>(s: seq<T>)
    requires s != []
    ensures s == s[..|s| - 1] + [s[|s| - 1]]
  {
  }

  lemma HeadTail<T>(s: seq<T>)
    requires s != []
    ensures s == [s[0]] + s[1..]
  {
  }

  lemma AppendAssoc<T>(a: seq<T>, b: seq<T>, c: seq<T>)
    ensures a + (b + c) == (a + b) + c
  {
  }

  lemma EmptyAppend<T>(b: seq<T>)
    ensures [] + b == b
  {
  }

  /** The front and last element of a concatenation with a non-empty back. */
  lemma SnocAppend<T>(a: seq<T>, b: seq<T>)
    requires b != []
    ensures (a + b)[..|a + b| - 1] == a + b[..|b| - 1] && (a + b)[|a + b| - 1] == b[|b| - 1]
  {
  }

  lemma AppendEmpty<T>(a: seq<T>)
    ensures a + [] == a
  {
  }

  lemma AppendTwo<T>(s: seq<T>, a: T, b: T)
    ensures s + [a] + [b] == s + [a, b]
  {
  }

  lemma AppendThree<T>(s: seq<T>, a: T, b: T, c: T)
    ensures s + [a, b] + [c] == s + [a, b, c]
  {
  }

  /** An element of a non-empty sequence is in its front or is its last. */
  lemma InSnoc<T>(s: seq<T>, x: T)
    requires s != []
    ensures x in s <==> x in s[..|s| - 1] || x == s[|s| - 1]
  {
    assert s == s[..|s| - 1] + [s[|s| - 1]];
  }

  /** The number of occurrences of `x` in `s`. */
  function Count<T(==)>(s: seq<T>, x: T): nat
    decreases |s|
  {
    if s == [] then 0
    else Count(s[..|s| - 1], x) + (if s[|s| - 1] == x then 1 else 0)
  }

  /** `x` occurs nowhere exactly when its count is zero. */
  lemma {:induction false} CountZero<T>(s: seq<T>, x: T)
    ensures Count(s, x) == 0 <==> x !in s
    decreases |s|
  {
    if s != [] {
      var init := s[..|s| - 1];
      CountZero(init, x);
      assert s == init + [s[|s| - 1]];
    }
  }

  /** `[f(x) for x in xs]` */
  function MapSeq<T, U>(xs: seq<T>, f: T -> U): (r: seq<U>)
    ensures |r| == |xs|
    decreases |xs|
  {
    if xs == [] then []
    else
      var n := |xs| - 1;
      MapSeq(xs[..n], f) + [f(xs[n])]
  }

  /** Each element of `MapSeq` is `f` of the matching input. */
  lemma {:induction false} MapSeqAt<T, U>(xs: seq<T>, f: T -> U, i: nat)
    requires i < |xs|
    ensures MapSeq(xs, f)[i] == f(xs[i])
    decreases |xs|
  {
    var n := |xs| - 1;
    if i < n {
      MapSeqAt(xs[..n], f, i);
    }
  }

  /** A sequence of successes yields their values. */
  lemma {:induction false} AllOkOfOks<T, E>(rs: seq<Result<T, E>>, vs: seq<T>)
    requires |rs| == |vs| && forall i :: 0 <= i < |rs| ==> rs[i] == Ok(vs[i])
    ensures AllOk(rs) == Ok(vs)
    decreases |rs|
  {
    if rs != [] {
      var n := |rs| - 1;
      AllOkOfOks(rs[..n], vs[..n]);
      assert vs == vs[..n] + [vs[n]];
    }
  }

  /** `AllOk` of a longer prefix: one step of a loop that stops at the first
      error. */
  lemma AllOkStep<T, E>(rs: seq<Result<T, E>>, i: nat, vs: seq<T>)
    requires i < |rs| && AllOk(rs[..i]) == Ok(vs)
    ensures AllOk(rs[..i + 1]) == if rs[i].Ok? then Ok(vs + [rs[i].value]) else Err(rs[i].error)
  {
    assert rs[..i + 1][..i] == rs[..i];
  }

  /** Appending the next element of `s` to a prefix of it: one step of a
      copying loop. */
  lemma AppendStep<T>(a: seq<T>, s: seq<T>, k: nat)
    requires k < |s|
    ensures a + s[..k] + [s[k]] == a + s[..k + 1]
  {
    assert s[..k + 1] == s[..k] + [s[k]];
  }

  /** Filtering keeps distinct elements distinct. */
  lemma FilterDistinct<T>(s: seq<T>, p: T -> bool)
    requires Distinct(s)
    ensures Distinct(Filter(s, p))
  {
    var r := Filter(s, p);
    forall i, j | 0 <= i < j < |r|
      ensures r[i] != r[j]
    {
      SubsequenceDistinct(r, s, i, j);
    }
  }

  /** Two positions of a subsequence of a distinct sequence hold different
      elements. */
  lemma {:induction false} SubsequenceDistinct<T>(a: seq<T>, b: seq<T>, i: int, j: int)
    requires IsSubsequence(a, b) && Distinct(b) && 0 <= i < j < |a|
    ensures a[i] != a[j]
    decreases |b|
  {
    if a[|a| - 1] == b[|b| - 1] {
      if j == |a| - 1 {
        SubsequenceMembership(a[..|a| - 1], b[..|b| - 1], i);
        assert a[i] in b[..|b| - 1];
      } else {
        SubsequenceDistinct(a[..|a| - 1], b[..|b| - 1], i, j);
      }
    } else {
      SubsequenceDistinct(a, b[..|b| - 1], i, j);
    }
  }

  /** Every element of a subsequence is an element of the whole. */
  lemma {:induction false} SubsequenceMembership<T>(a: seq<T>, b: seq<T>, i: int)
    requires IsSubsequence(a, b) && 0 <= i < |a|
    ensures a[i] in b
    decreases |b|
  {
    if a[|a| - 1] == b[|b| - 1] {
      if i < |a| - 1 {
        SubsequenceMembership(a[..|a| - 1], b[..|b| - 1], i);
      }
    } else {
      SubsequenceMembership(a, b[..|b| - 1], i);
    }
  }
}
