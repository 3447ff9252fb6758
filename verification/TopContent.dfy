/** The top posts of a media list: an in-place exchange sort by interactions, then a cut. */
module TopContent {
  datatype Content = Content(id: string, interactions: int)

  predicate Descending(s: seq<Content>) {
    forall i, j | 0 <= i < j < |s| :: s[i].interactions >= s[j].interactions
  }

  predicate Permutation(s: seq<Content>, t: seq<Content>) {
    multiset(s) == multiset(t)
  }

  /** The first `i` places are final: none of them is below a later one. */
  predicate Placed(s: seq<Content>, i: nat) {
    forall k, l | 0 <= k < i && k < l < |s| :: s[k].interactions >= s[l].interactions
  }

  /** Place `i` holds the best of the places `i..j`. */
  predicate Best(s: seq<Content>, i: nat, j: nat) {
    i < j <= |s| && forall l | i < l < j :: s[i].interactions >= s[l].interactions
  }

  function Swap(s: seq<Content>, i: nat, j: nat): seq<Content>
    requires i < j < |s|
  {
    s[i := s[j]][j := s[i]]
  }

  lemma SwapKeeps(s: seq<Content>, i: nat, j: nat, t: seq<Content>)
    requires j < |s| && Placed(s, i) && Best(s, i, j) && Permutation(s, t)
    ensures Permutation(Swap(s, i, j), t) && Placed(Swap(s, i, j), i)
    ensures s[i].interactions < s[j].interactions ==> Best(Swap(s, i, j), i, j + 1)
    ensures s[i].interactions >= s[j].interactions ==> Best(s, i, j + 1)
  {
    assert multiset(Swap(s, i, j)) == multiset(s);
  }

  lemma Start(s: seq<Content>)
    ensures Permutation(s, s) && Placed(s, 0)
  {
  }

  lemma RowStart(s: seq<Content>, i: nat)
    requires i < |s|
    ensures Best(s, i, i + 1)
  {
  }

  lemma RowDone(s: seq<Content>, i: nat)
    requires Placed(s, i) && Best(s, i, |s|)
    ensures Placed(s, i + 1)
  {
  }

  lemma AllPlaced(s: seq<Content>, i: nat)
    requires Placed(s, i) && |s| <= i + 1
    ensures Descending(s)
  {
  }

  /** The double loop leaves a permutation of the list, most interactions first. */
  method SortByInteractions(a: array<Content>)
    modifies a
    ensures Permutation(a[..], old(a[..])) && Descending(a[..])
  {
    hide Permutation, Placed, Best, Descending;
    Start(a[..]);
    var i := 0;
    while i < a.Length - 1
      invariant 0 <= i && (a.Length > 0 ==> i < a.Length)
      invariant Permutation(a[..], old(a[..])) && Placed(a[..], i)
    {
      RowStart(a[..], i);
      var j := i + 1;
      while j < a.Length
        invariant i < j <= a.Length
        invariant Permutation(a[..], old(a[..])) && Placed(a[..], i) && Best(a[..], i, j)
      {
        SwapKeeps(a[..], i, j, old(a[..]));
        ghost var swapped := Swap(a[..], i, j);
        if a[i].interactions < a[j].interactions {
          a[i], a[j] := a[j], a[i];
          assert a[..] == swapped;
        }
        j := j + 1;
      }
      RowDone(a[..], i);
      i := i + 1;
    }
    AllPlaced(a[..], i);
  }

  /** The stored slice: `min(5, n)` items, and with the items left out it makes up the whole list,
      each of them with at most as many interactions. */
  method TopFive(a: array<Content>) returns (top: seq<Content>, ghost rest: seq<Content>)
    modifies a
    ensures |top| == if a.Length < 5 then a.Length else 5
    ensures multiset(top) + multiset(rest) == multiset(old(a[..]))
    ensures Descending(top)
    ensures forall t, r | t in top && r in rest :: t.interactions >= r.interactions
  {
    SortByInteractions(a);
    var topN := 5;
    if a.Length < 5 {
      topN := a.Length;
    }
    top, rest := a[..topN], a[topN..];
    assert a[..] == top + rest;
  }

  lemma MoreThanFit(a: seq<Content>, b: seq<Content>, c: seq<Content>, m: multiset<Content>)
    requires multiset(a) <= m && m == multiset(b) + multiset(c) && forall x | x in a :: x !in c
    ensures |a| <= |b|
  {
    forall x ensures multiset(a)[x] <= multiset(b)[x] {
      if x in multiset(a) {
        assert x in a && x !in multiset(c);
      }
    }
    assert multiset(b) == multiset(a) + (multiset(b) - multiset(a));
    assert |multiset(a)| == |a| && |multiset(b)| == |b|;
  }

  /** If place `i` of `s` beats place `i` of `t`, then more elements beat it in `s` than in `t`. */
  lemma PrefixNoLarger(s: seq<Content>, t: seq<Content>, i: nat)
    requires Descending(s) && Descending(t) && i < |s| == |t|
    requires s[i].interactions > t[i].interactions
    ensures multiset(s) != multiset(t)
  {
    Split(s, i + 1);
    Split(t, i);
    forall k | 0 <= k < |t[i..]| ensures t[i..][k].interactions < s[i].interactions {
      assert t[i..][k] == t[i + k];
    }
    if multiset(s) == multiset(t) {
      MoreThanFit(s[..i + 1], t[..i], t[i..], multiset(s));
    }
  }

  lemma Split(s: seq<Content>, n: nat)
    requires n <= |s|
    ensures multiset(s) == multiset(s[..n]) + multiset(s[n..])
  {
    assert s == s[..n] + s[n..];
  }

  /** Which numbers end up on top does not depend on the sort: any two descending arrangements of the
      same posts show the same interaction counts, place by place. */
  lemma DescendingIsUnique(s: seq<Content>, t: seq<Content>)
    requires Descending(s) && Descending(t) && multiset(s) == multiset(t)
    ensures |s| == |t|
    ensures forall i | 0 <= i < |s| :: s[i].interactions == t[i].interactions
  {
    assert |multiset(s)| == |multiset(t)|;
    forall i | 0 <= i < |s| ensures s[i].interactions == t[i].interactions {
      if s[i].interactions > t[i].interactions {
        PrefixNoLarger(s, t, i);
      } else if s[i].interactions < t[i].interactions {
        PrefixNoLarger(t, s, i);
      }
    }
  }
}
