/** Generic operations on sequences that stand for the JavaScript array methods the
    source relies on (`filter`, `find`, `map`, `reverse`, `slice`), with their meaning
    stated as contracts. */
module Lists {
  import opened Wrappers

  /** `r` can be obtained from `s` by deleting elements: an order-preserving subsequence. */
  ghost predicate IsSubsequence<T>(r: seq<T>, s: seq<T>)
    decreases |s|
  {
    if s == [] then r == []
    else IsSubsequence(r, s[1..]) || (r != [] && r[0] == s[0] && IsSubsequence(r[1..], s[1..]))
  }

  lemma {:induction false} SubsequenceReflexive<T>(s: seq<T>)
    ensures IsSubsequence(s, s)
    decreases |s|
  {
    if s != [] {
      SubsequenceReflexive(s[1..]);
    }
  }

  lemma {:induction false} SubsequenceTransitive<T>(a: seq<T>, b: seq<T>, c: seq<T>)
    requires IsSubsequence(a, b) && IsSubsequence(b, c)
    ensures IsSubsequence(a, c)
    decreases |c|
  {
    if c == [] {
    } else if IsSubsequence(b, c[1..]) {
      SubsequenceTransitive(a, b, c[1..]);
    } else {
      assert b != [] && b[0] == c[0] && IsSubsequence(b[1..], c[1..]);
      if IsSubsequence(a, b[1..]) {
        SubsequenceTransitive(a, b[1..], c[1..]);
      } else {
        assert a != [] && a[0] == b[0] && IsSubsequence(a[1..], b[1..]);
        SubsequenceTransitive(a[1..], b[1..], c[1..]);
      }
    }
  }

  /** Array.prototype.filter: the elements of `s` that `keep` accepts, in their order. */
  function Filter<T>(s: seq<T>, keep: T -> bool): (r: seq<T>)
    ensures |r| <= |s|
    ensures forall k :: 0 <= k < |r| ==> r[k] in s && keep(r[k])
    ensures forall k :: 0 <= k < |s| && keep(s[k]) ==> s[k] in r
    decreases |s|
  {
    if s == [] then []
    else if keep(s[0]) then [s[0]] + Filter(s[1..], keep)
    else Filter(s[1..], keep)
  }

  lemma {:induction false} FilterIsSubsequence<T>(s: seq<T>, keep: T -> bool)
    ensures IsSubsequence(Filter(s, keep), s)
    decreases |s|
  {
    if s != [] {
      FilterIsSubsequence(s[1..], keep);
      if keep(s[0]) {
        assert ([s[0]] + Filter(s[1..], keep))[1..] == Filter(s[1..], keep);
      }
    }
  }

  /** Filtering keeps everything exactly when every element is accepted. */
  lemma {:induction false} FilterKeepsAll<T>(s: seq<T>, keep: T -> bool)
    ensures (forall k :: 0 <= k < |s| ==> keep(s[k])) ==> Filter(s, keep) == s
    decreases |s|
  {
    if s != [] && forall k :: 0 <= k < |s| ==> keep(s[k]) {
      assert keep(s[0]);
      assert forall k :: 0 <= k < |s[1..]| ==> keep(s[1..][k]) by {
        forall k | 0 <= k < |s[1..]| ensures keep(s[1..][k]) { assert s[1..][k] == s[k + 1]; }
      }
      FilterKeepsAll(s[1..], keep);
      assert s == [s[0]] + s[1..];
    }
  }

  lemma {:induction false} FilterConcat<T>(a: seq<T>, b: seq<T>, keep: T -> bool)
    ensures Filter(a + b, keep) == Filter(a, keep) + Filter(b, keep)
    decreases |a|
  {
    if a == [] {
      assert a + b == b;
    } else {
      assert (a + b)[1..] == a[1..] + b;
      FilterConcat(a[1..], b, keep);
    }
  }

  /** Filters accepting the same elements agree. */
  lemma {:induction false} FilterExt<T>(s: seq<T>, p: T -> bool, q: T -> bool)
    requires forall x :: p(x) == q(x)
    ensures Filter(s, p) == Filter(s, q)
    decreases |s|
  {
    if s != [] {
      FilterExt(s[1..], p, q);
    }
  }

  /** Filtering by `p` and then by `q` is filtering by their conjunction `pq`. */
  lemma {:induction false} FilterFilter<T>(s: seq<T>, p: T -> bool, q: T -> bool, pq: T -> bool)
    requires forall x :: pq(x) == (p(x) && q(x))
    ensures Filter(Filter(s, p), q) == Filter(s, pq)
    decreases |s|
  {
    if s != [] {
      FilterFilter(s[1..], p, q, pq);
      if p(s[0]) {
        assert ([s[0]] + Filter(s[1..], p))[1..] == Filter(s[1..], p);
      }
    }
  }

  /** The positions of `s` whose element `p` accepts. */
  ghost function Positions<T>(s: seq<T>, p: T -> bool): set<int> {
    set i | 0 <= i < |s| && p(s[i])
  }

  /** `s.filter(p).length` counts the positions whose element `p` accepts. */
  lemma {:induction false} FilterLengthCounts<T>(s: seq<T>, p: T -> bool)
    ensures |Filter(s, p)| == |Positions(s, p)|
    decreases |s|
  {
    if s == [] {
      assert Positions(s, p) == {};
    } else {
      var n := |s| - 1;
      var init := s[..n];
      assert s == init + [s[n]];
      FilterConcat(init, [s[n]], p);
      FilterLengthCounts(init, p);
      assert [s[n]][1..] == [];
      assert |Filter([s[n]], p)| == if p(s[n]) then 1 else 0;
      PositionsSnoc(s, p);
    }
  }

  lemma PositionsSnoc<T>(s: seq<T>, p: T -> bool)
    requires s != []
    ensures |Positions(s, p)| == |Positions(s[..|s| - 1], p)| + if p(s[|s| - 1]) then 1 else 0
  {
    var n := |s| - 1;
    var before := Positions(s[..n], p);
    assert forall i :: i in before <==> 0 <= i < n && p(s[i]);
    assert n !in before;
    if p(s[n]) {
      assert Positions(s, p) == before + {n};
    } else {
      assert Positions(s, p) == before;
    }
  }

  /** Array.prototype.findIndex: the position of the first element that `p` accepts. */
  function FirstIndex<T>(s: seq<T>, p: T -> bool): (r: Option<nat>)
    ensures r.Some? ==> r.value < |s| && p(s[r.value]) && forall j :: 0 <= j < r.value ==> !p(s[j])
    ensures r.None? <==> forall j :: 0 <= j < |s| ==> !p(s[j])
    decreases |s|
  {
    if s == [] then None
    else if p(s[0]) then Some(0)
    else match FirstIndex(s[1..], p)
      case None => None
      case Some(i) => Some(i + 1)
  }

  /** `i` is the position of the first element of `s` that `p` accepts. */
  ghost predicate IsFirst<T>(s: seq<T>, p: T -> bool, i: nat) {
    i < |s| && p(s[i]) && forall j :: 0 <= j < i ==> !p(s[j])
  }

  /** Array.prototype.find followed by an in-place change of the found element:
      the first element that `p` accepts is replaced by `f` of it. */
  function UpdateFirst<T>(s: seq<T>, p: T -> bool, f: T -> T): (r: seq<T>)
    ensures |r| == |s|
    ensures (forall j :: 0 <= j < |s| ==> !p(s[j])) ==> r == s
    ensures forall i: nat :: IsFirst(s, p, i) ==> r == s[i := f(s[i])]
  {
    match FirstIndex(s, p)
    case None => s
    case Some(i) =>
      assert forall i': nat :: IsFirst(s, p, i') ==> i' == i;
      s[i := f(s[i])]
  }

  /** Array.prototype.map. */
  function Map<T, U>(s: seq<T>, f: T -> U): (r: seq<U>)
    ensures |r| == |s|
    ensures forall k :: 0 <= k < |s| ==> r[k] == f(s[k])
    decreases |s|
  {
    if s == [] then [] else [f(s[0])] + Map(s[1..], f)
  }

  /** A subsequence stays a subsequence after mapping both sides. */
  lemma {:induction false} MapSubsequence<T, U>(r: seq<T>, s: seq<T>, f: T -> U)
    requires IsSubsequence(r, s)
    ensures IsSubsequence(Map(r, f), Map(s, f))
    decreases |s|
  {
    if s != [] {
      assert Map(s, f)[1..] == Map(s[1..], f);
      if IsSubsequence(r, s[1..]) {
        MapSubsequence(r, s[1..], f);
      } else {
        assert Map(r, f)[1..] == Map(r[1..], f);
        MapSubsequence(r[1..], s[1..], f);
      }
    }
  }

  /** The elements of `s.filter(keep).map(f)` are the images under `f` of the accepted
      elements of `s`, and each accepted element's image occurs. */
  lemma MapOfFilter<T, U>(s: seq<T>, keep: T -> bool, f: T -> U)
    ensures forall k :: 0 <= k < |Map(Filter(s, keep), f)| ==>
              exists j :: 0 <= j < |s| && keep(s[j]) && Map(Filter(s, keep), f)[k] == f(s[j])
    ensures forall j :: 0 <= j < |s| && keep(s[j]) ==> f(s[j]) in Map(Filter(s, keep), f)
  {
    var kept := Filter(s, keep);
    var r := Map(kept, f);
    forall k | 0 <= k < |r| ensures exists j :: 0 <= j < |s| && keep(s[j]) && r[k] == f(s[j]) {
      var j :| 0 <= j < |s| && s[j] == kept[k];
      assert r[k] == f(s[j]);
    }
    forall j | 0 <= j < |s| && keep(s[j]) ensures f(s[j]) in r {
      var k :| 0 <= k < |kept| && kept[k] == s[j];
      assert r[k] == f(s[j]);
    }
  }

  /** Array.prototype.reverse: the elements of `s` last to first. */
  function Reverse<T>(s: seq<T>): (r: seq<T>)
    ensures |r| == |s|
    ensures forall k :: 0 <= k < |s| ==> r[k] == s[|s| - 1 - k]
    decreases |s|
  {
    if s == [] then [] else Reverse(s[1..]) + [s[0]]
  }

  /** Reversal keeps the elements. */
  lemma ReverseMembers<T>(s: seq<T>)
    ensures forall k :: 0 <= k < |s| ==> Reverse(s)[k] in s && s[k] in Reverse(s)
  {
    var r := Reverse(s);
    forall k | 0 <= k < |s| ensures r[k] in s && s[k] in r {
      assert r[k] == s[|s| - 1 - k];
      assert r[|s| - 1 - k] == s[k];
    }
  }

  /** Array.prototype.slice(-n) for n > 0: the last min(n, |s|) elements. */
  function TakeLast<T>(s: seq<T>, n: nat): (r: seq<T>)
    ensures |r| == if |s| < n then |s| else n
    ensures forall k :: 0 <= k < |r| ==> r[k] == s[|s| - |r| + k]
  {
    if |s| < n then s else s[|s| - n..]
  }
}
