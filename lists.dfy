/**
 * Array.prototype.filter, which the app uses for deletion, the completion
 * and priority filters, the active count and the load step; the map over
 * the decoded records, and a run of calls that stops at the first throw.
 */
module Lists {
  import opened Wrappers

  /** `s.filter(keep)`: the elements that pass, in their order. */
  function Filter<T(==,!new)>(s: seq<T>, keep: T -> bool): (r: seq<T>)
    ensures |r| <= |s|
    ensures forall x :: x in r <==> x in s && keep(x)
  {
    if s == [] then [] else (if keep(s[0]) then [s[0]] else []) + Filter(s[1..], keep)
  }

  /** Filtering distributes over concatenation: relative order is kept. */
  lemma {:induction false} FilterAppend<T(!new)>(a: seq<T>, b: seq<T>, keep: T -> bool)
    ensures Filter(a + b, keep) == Filter(a, keep) + Filter(b, keep)
  {
    if a == [] {
      assert a + b == b;
    } else {
      assert (a + b)[1..] == a[1..] + b;
      FilterAppend(a[1..], b, keep);
    }
  }

  /** Filtering a list with a first element. */
  lemma FilterCons<T(!new)>(x: T, s: seq<T>, keep: T -> bool)
    ensures Filter([x] + s, keep) == (if keep(x) then [x] else []) + Filter(s, keep)
  {
    assert ([x] + s)[1..] == s;
  }

  /** Two neighbours that do not both pass can swap places without changing
      the filtered list. */
  lemma FilterSwap<T(!new)>(a: T, b: T, s: seq<T>, keep: T -> bool)
    requires !(keep(a) && keep(b))
    ensures Filter([a] + ([b] + s), keep) == Filter([b] + ([a] + s), keep)
  {
    FilterCons(a, [b] + s, keep);
    FilterCons(b, s, keep);
    FilterCons(b, [a] + s, keep);
    FilterCons(a, s, keep);
  }

  /** Each element occurs as often as in s if it passes, never otherwise. */
  lemma {:induction false} FilterMultiset<T(!new)>(s: seq<T>, keep: T -> bool)
    ensures forall x :: multiset(Filter(s, keep))[x] == if keep(x) then multiset(s)[x] else 0
  {
    if s != [] {
      FilterMultiset(s[1..], keep);
      assert s == [s[0]] + s[1..];
      assert multiset(s) == multiset{s[0]} + multiset(s[1..]);
    }
  }

  lemma {:induction false} FilterAll<T(!new)>(s: seq<T>, keep: T -> bool)
    requires forall i :: 0 <= i < |s| ==> keep(s[i])
    ensures Filter(s, keep) == s
  {
    if s != [] {
      FilterAll(s[1..], keep);
    }
  }

  lemma {:induction false} FilterIdempotent<T(!new)>(s: seq<T>, keep: T -> bool)
    ensures Filter(Filter(s, keep), keep) == Filter(s, keep)
  {
    var r := Filter(s, keep);
    forall i | 0 <= i < |r| ensures keep(r[i]) {
      assert r[i] in r;
    }
    FilterAll(r, keep);
  }

  /** Two filters in a row are one filter on the conjunction. */
  lemma {:induction false} FilterFilter<T(!new)>(s: seq<T>, p: T -> bool, q: T -> bool, both: T -> bool)
    requires forall x :: both(x) == (p(x) && q(x))
    ensures Filter(Filter(s, p), q) == Filter(s, both)
  {
    if s != [] {
      FilterFilter(s[1..], p, q, both);
      if p(s[0]) {
        assert Filter(s, p) == [s[0]] + Filter(s[1..], p);
        FilterAppend([s[0]], Filter(s[1..], p), q);
        assert Filter([s[0]], q) == if q(s[0]) then [s[0]] else [];
      } else {
        assert Filter(s, p) == Filter(s[1..], p);
      }
    }
  }

  /** Filters that agree on the elements of s give the same result. */
  lemma {:induction false} FilterCongruent<T(!new)>(s: seq<T>, p: T -> bool, q: T -> bool)
    requires forall i :: 0 <= i < |s| ==> p(s[i]) == q(s[i])
    ensures Filter(s, p) == Filter(s, q)
  {
    if s != [] {
      FilterCongruent(s[1..], p, q);
    }
  }

  /** `opts.filter(Boolean)` over a sequence of optional values: the present
      values, in their order. */
  function Compact<T(==,!new)>(s: seq<Option<T>>): (r: seq<T>)
    ensures |r| <= |s|
    ensures forall x :: x in r <==> Some(x) in s
  {
    if s == [] then [] else (if s[0].Some? then [s[0].value] else []) + Compact(s[1..])
  }

  lemma {:induction false} CompactAppend<T(!new)>(a: seq<Option<T>>, b: seq<Option<T>>)
    ensures Compact(a + b) == Compact(a) + Compact(b)
  {
    if a == [] {
      assert a + b == b;
    } else {
      assert (a + b)[1..] == a[1..] + b;
      CompactAppend(a[1..], b);
    }
  }

  /** With no value missing, nothing is dropped. */
  lemma {:induction false} CompactAllPresent<T(!new)>(s: seq<Option<T>>)
    requires forall i :: 0 <= i < |s| ==> s[i].Some?
    ensures |Compact(s)| == |s|
    ensures forall i :: 0 <= i < |s| ==> Compact(s)[i] == s[i].value
  {
    if s != [] {
      CompactAllPresent(s[1..]);
    }
  }

  /** `s.map(f)` where f also receives each element's index. */
  function MapIndexed<A, B>(s: seq<A>, f: (A, nat) -> B): (r: seq<B>)
    ensures |r| == |s|
    ensures forall i :: 0 <= i < |s| ==> r[i] == f(s[i], i)
  {
    seq(|s|, i requires 0 <= i < |s| => f(s[i], i))
  }

  /** Mapping a + b maps a, then b with the indices shifted past a. */
  lemma MapIndexedAppend<A, B>(a: seq<A>, b: seq<A>, f: (A, nat) -> B, g: (A, nat) -> B)
    requires forall x, i: nat :: g(x, i) == f(x, |a| + i)
    ensures MapIndexed(a + b, f) == MapIndexed(a, f) + MapIndexed(b, g)
  {
    var all, front, back := MapIndexed(a + b, f), MapIndexed(a, f), MapIndexed(b, g);
    forall i | 0 <= i < |all| ensures all[i] == (front + back)[i] {
      if i < |a| {
        assert (a + b)[i] == a[i];
      } else {
        assert (a + b)[i] == b[i - |a|];
        assert back[i - |a|] == f(b[i - |a|], |a| + (i - |a|));
      }
    }
  }

  /** The results of calls made one after another: they all return, or the
      first one that throws ends the run and the whole run throws. */
  function Collect<T>(s: seq<Outcome<T>>): (r: Outcome<seq<T>>)
    ensures r.Threw? <==> exists i :: 0 <= i < |s| && s[i].Threw?
    ensures r.Returned? ==> |r.value| == |s| && forall i :: 0 <= i < |s| ==> s[i] == Returned(r.value[i])
  {
    if s == [] then Returned([])
    else match s[0]
      case Threw => Threw
      case Returned(x) =>
        match Collect(s[1..])
        case Threw => (assert s[1..][0] == s[1]; Threw)
        case Returned(xs) => Returned([x] + xs)
  }

  /** A run over a + b throws when either part does, and otherwise returns
      a's results followed by b's. */
  lemma {:induction false} CollectAppend<T>(a: seq<Outcome<T>>, b: seq<Outcome<T>>)
    ensures Collect(a + b) ==
      if Collect(a).Threw? || Collect(b).Threw? then Threw
      else Returned(Collect(a).value + Collect(b).value)
  {
    if a == [] {
      assert a + b == b;
      assert Collect(a) == Returned([]);
      if Collect(b).Returned? {
        assert [] + Collect(b).value == Collect(b).value;
      }
    } else {
      assert (a + b)[0] == a[0];
      assert (a + b)[1..] == a[1..] + b;
      CollectAppend(a[1..], b);
      if a[0].Returned? && Collect(a[1..]).Returned? && Collect(b).Returned? {
        assert [a[0].value] + (Collect(a[1..]).value + Collect(b).value)
          == ([a[0].value] + Collect(a[1..]).value) + Collect(b).value;
      }
    }
  }
}
