/** List idioms shared by the server and the client: Python `list(dict.fromkeys(xs))` and
    JavaScript `[...new Set(xs)]` (deduplicate, keeping each value's first occurrence), and
    slicing to a prefix. */
module Lists {
  import opened Wrappers

  predicate Distinct<T(==)>(xs: seq<T>) {
    forall i, j :: 0 <= i < j < |xs| ==> xs[i] != xs[j]
  }

  /** Index of the first occurrence of `x` in `xs`. */
  function FirstIndex<T(==)>(xs: seq<T>, x: T): (k: nat)
    requires x in xs
    ensures k < |xs| && xs[k] == x && x !in xs[..k]
  {
    if xs[0] == x then 0 else 1 + FirstIndex(xs[1..], x)
  }

  /** Insertion-ordered deduplication: each distinct value once, at its first occurrence. */
  function Dedup<T(==)>(xs: seq<T>): (r: seq<T>)
    ensures Distinct(r)
    ensures forall i :: 0 <= i < |r| ==> r[i] in xs
    ensures forall i :: 0 <= i < |xs| ==> xs[i] in r
    ensures |r| <= |xs|
    decreases |xs|
  {
    if |xs| == 0 then []
    else
      var init := Dedup(xs[..|xs| - 1]);
      var last := xs[|xs| - 1];
      assert xs == xs[..|xs| - 1] + [last];
      if last in init then init else init + [last]
  }

  /** The values of `Dedup(xs)` appear in the order of their first occurrences in `xs`. */
  lemma {:induction false} DedupKeepsFirstOccurrenceOrder<T>(xs: seq<T>)
    ensures forall i, j :: 0 <= i < j < |Dedup(xs)| ==>
      FirstIndex(xs, Dedup(xs)[i]) < FirstIndex(xs, Dedup(xs)[j])
    decreases |xs|
  {
    if |xs| > 0 {
      var pre := xs[..|xs| - 1];
      var init := Dedup(pre);
      var last := xs[|xs| - 1];
      DedupKeepsFirstOccurrenceOrder(pre);
      forall x | x in pre ensures FirstIndex(xs, x) == FirstIndex(pre, x) {
        FirstIndexOfPrefix(xs, pre, x);
      }
      if last !in init {
        assert last !in pre;
        forall x | x in pre ensures FirstIndex(xs, x) < |xs| - 1 {
        }
        assert FirstIndex(xs, last) == |xs| - 1 by {
          assert xs[..|xs| - 1] == pre;
        }
      }
    }
  }

  lemma FirstIndexOfPrefix<T>(xs: seq<T>, pre: seq<T>, x: T)
    requires |pre| <= |xs| && pre == xs[..|pre|] && x in pre
    ensures FirstIndex(xs, x) == FirstIndex(pre, x)
  {
    var k := FirstIndex(pre, x);
    var m := FirstIndex(xs, x);
    assert xs[k] == x;
    assert m <= k;
    assert pre[m] == x;
  }

  /** A value is dropped by `Dedup` only when an equal value was kept before it. */
  lemma {:induction false} DedupOfDistinct<T>(xs: seq<T>)
    requires Distinct(xs)
    ensures Dedup(xs) == xs
    decreases |xs|
  {
    if |xs| > 0 {
      var pre := xs[..|xs| - 1];
      var last := xs[|xs| - 1];
      assert Distinct(pre) by {
        forall i, j | 0 <= i < j < |pre| ensures pre[i] != pre[j] {
          assert pre[i] == xs[i] && pre[j] == xs[j];
        }
      }
      DedupOfDistinct(pre);
      assert last !in pre by {
        forall i | 0 <= i < |pre| ensures pre[i] != last {
          assert pre[i] == xs[i];
        }
      }
      assert pre + [last] == xs;
    }
  }

  /** Indexing into a concatenation. */
  lemma AppendIndex<T>(a: seq<T>, b: seq<T>, i: int)
    requires 0 <= i < |a| + |b|
    ensures (a + b)[i] == if i < |a| then a[i] else b[i - |a|]
  {
  }

  /** Python `xs[:n]` and JavaScript `xs.slice(0, n)` for `n >= 0`. */
  function Take<T>(xs: seq<T>, n: nat): (r: seq<T>)
    ensures |r| == if |xs| <= n then |xs| else n
    ensures r == xs[..|r|]
  {
    if |xs| <= n then xs else xs[..n]
  }

  /** The first `n` values of a deduplication are distinct values of `xs`, and they are all of
      them when there are at most `n`. */
  lemma TakeOfDedup<T>(xs: seq<T>, n: nat)
    ensures var r := Take(Dedup(xs), n);
      && Distinct(r)
      && (forall i :: 0 <= i < |r| ==> r[i] in xs)
      && (|Dedup(xs)| <= n ==> forall j :: 0 <= j < |xs| ==> xs[j] in r)
  {
    var d := Dedup(xs);
    var r := Take(d, n);
    assert forall i :: 0 <= i < |r| ==> r[i] == d[i];
  }

  /** A loop that appends `f(x)` for each `x` whose `f(x)` is present: the kept values, in order. */
  function FilterMap<A, B>(xs: seq<A>, f: A -> Option<B>): (r: seq<B>)
    ensures |r| <= |xs|
    ensures forall i :: 0 <= i < |r| ==> exists j :: 0 <= j < |xs| && f(xs[j]) == Some(r[i])
    ensures forall j :: 0 <= j < |xs| && f(xs[j]).Some? ==> f(xs[j]).value in r
  {
    if xs == [] then []
    else
      var rest := FilterMap(xs[1..], f);
      assert forall j :: 1 <= j < |xs| ==> xs[j] == xs[1..][j - 1];
      assert forall i :: 0 <= i < |rest| ==> exists j :: 0 <= j < |xs| && f(xs[j]) == Some(rest[i]) by {
        forall i | 0 <= i < |rest| ensures exists j :: 0 <= j < |xs| && f(xs[j]) == Some(rest[i]) {
          var j :| 0 <= j < |xs[1..]| && f(xs[1..][j]) == Some(rest[i]);
          assert xs[j + 1] == xs[1..][j];
        }
      }
      match f(xs[0])
      case Some(v) => [v] + rest
      case None => rest
  }

  /** Filtering distributes over concatenation. */
  lemma {:induction false} FilterMapConcat<A, B>(xs: seq<A>, ys: seq<A>, f: A -> Option<B>)
    ensures FilterMap(xs + ys, f) == FilterMap(xs, f) + FilterMap(ys, f)
    decreases |xs|
  {
    if xs == [] {
      assert xs + ys == ys;
    } else {
      assert (xs + ys)[1..] == xs[1..] + ys;
      FilterMapConcat(xs[1..], ys, f);
    }
  }

  /** A filter that keeps every element unchanged is the identity. */
  lemma {:induction false} FilterMapKeepsAll<A>(xs: seq<A>, f: A -> Option<A>)
    requires forall i :: 0 <= i < |xs| ==> f(xs[i]) == Some(xs[i])
    ensures FilterMap(xs, f) == xs
    decreases |xs|
  {
    if xs != [] {
      var x, t := xs[0], xs[1..];
      assert xs == [x] + t;
      assert f(x) == Some(x);
      assert forall i :: 0 <= i < |t| ==> t[i] == xs[i + 1];
      FilterMapKeepsAll(t, f);
      FilterMapSingle(x, f);
      FilterMapConcat([x], t, f);
    }
  }

  /** A filter that keeps nothing yields nothing. */
  lemma {:induction false} FilterMapKeepsNone<A, B>(xs: seq<A>, f: A -> Option<B>)
    requires forall i :: 0 <= i < |xs| ==> f(xs[i]) == None
    ensures FilterMap(xs, f) == []
    decreases |xs|
  {
    if xs != [] {
      assert forall i :: 0 <= i < |xs[1..]| ==> xs[1..][i] == xs[i + 1];
      FilterMapKeepsNone(xs[1..], f);
      FilterMapHead(xs, f);
    }
  }

  /** One step of the loop: the first element's value, if kept, before the rest's. */
  lemma FilterMapHead<A, B>(xs: seq<A>, f: A -> Option<B>)
    requires xs != []
    ensures FilterMap(xs, f) == (if f(xs[0]).Some? then [f(xs[0]).value] else []) + FilterMap(xs[1..], f)
  {
  }

  /** Filtering a one-element sequence. */
  lemma FilterMapSingle<A, B>(x: A, f: A -> Option<B>)
    ensures FilterMap([x], f) == (if f(x).Some? then [f(x).value] else [])
  {
    assert [x][1..] == [];
  }

  /** An element kept by `f` and repeated is kept twice. */
  lemma FilterMapRepeat<A, B>(x: A, f: A -> Option<B>)
    requires f(x).Some?
    ensures FilterMap([x, x], f) == [f(x).value, f(x).value]
  {
    FilterMapSingle(x, f);
    FilterMapConcat([x], [x], f);
    assert [x, x] == [x] + [x];
  }
}
