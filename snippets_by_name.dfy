/**
 * `snippetsByName` and the `sort.Stable` call that ListVCLSnippets makes with it:
 * snippets ordered by Name under Go's string `<`, snippets with equal names keeping
 * their relative order.
 *
 * Stability is stated as: for every name k, the subsequence of snippets named k is the
 * same before and after. A sorted sequence is determined by those subsequences
 * (StableSortUnique), so the in-place sort agrees with the reference StableSortByName.
 */
module SnippetsByName {
  import opened Snippets
  import opened GoStrings
  import Wrappers

  /**
   * snippetsByName.Less: x goes before y when x's name is smaller. Snippets with equal
   * names are never less than each other, which is what lets a stable sort keep their order.
   */
  predicate NameLess(x: VCLSnippet, y: VCLSnippet)
    ensures NameLess(x, y) ==> x.name != y.name
  {
    Less(x.name, y.name)
  }

  /** Non-decreasing by name. */
  ghost predicate SortedByName(s: seq<VCLSnippet>)
  {
    forall p, q :: 0 <= p < q < |s| ==> LessEq(s[p].name, s[q].name)
  }

  /** The snippets of s named k, in the order they appear in s. */
  function WithName(s: seq<VCLSnippet>, k: string): seq<VCLSnippet>
    decreases |s|
  {
    if s == [] then [] else (if s[0].name == k then [s[0]] else []) + WithName(s[1..], k)
  }

  /** The subsequence for k holds snippets of s, all named k. */
  lemma {:induction false} WithNameMember(s: seq<VCLSnippet>, k: string, x: VCLSnippet)
    requires x in WithName(s, k)
    ensures x in s && x.name == k
    decreases |s|
  {
    if !(s[0].name == k && x == s[0]) {
      WithNameMember(s[1..], k, x);
    }
  }

  lemma {:induction false} WithNameAppend(s: seq<VCLSnippet>, t: seq<VCLSnippet>, k: string)
    ensures WithName(s + t, k) == WithName(s, k) + WithName(t, k)
    decreases |s|
  {
    if s != [] {
      assert (s + t)[0] == s[0];
      assert (s + t)[1..] == s[1..] + t;
      WithNameAppend(s[1..], t, k);
    } else {
      assert s + t == t;
    }
  }

  /** Every snippet of s appears among the snippets of s that carry its name. */
  lemma {:induction false} WithNameContains(s: seq<VCLSnippet>, x: VCLSnippet)
    requires x in s
    ensures x in WithName(s, x.name)
    decreases |s|
  {
    if s[0] != x {
      WithNameContains(s[1..], x);
    }
  }

  /** snippetsByName.Swap: exchanges the snippets at i and j. */
  method Swap(a: array<VCLSnippet>, i: int, j: int)
    requires 0 <= i < a.Length && 0 <= j < a.Length
    modifies a
    ensures a[..] == old(a[..])[i := old(a[j])][j := old(a[i])]
  {
    a[i], a[j] := a[j], a[i];
  }

  /** Exchanging two neighbours with different names changes no name's subsequence. */
  lemma SwapNeighboursKeepsWithName(s: seq<VCLSnippet>, j: int, k: string)
    requires 0 < j < |s| && s[j - 1].name != s[j].name
    ensures WithName(s[j - 1 := s[j]][j := s[j - 1]], k) == WithName(s, k)
  {
    var front, back := s[..j - 1], s[j + 1..];
    var u, v := s[j - 1], s[j];
    assert s == front + ([u, v] + back);
    assert s[j - 1 := v][j := u] == front + ([v, u] + back);
    WithNameAppend(front, [u, v] + back, k);
    WithNameAppend(front, [v, u] + back, k);
    assert ([u, v] + back)[1..] == [v] + back;
    assert ([v, u] + back)[1..] == [u] + back;
    assert ([v] + back)[1..] == back;
    assert ([u] + back)[1..] == back;
  }

  /**
   * The state of one insertion pass over s[..i + 1]: the snippet being inserted sits at j,
   * the others are in order, and everything after j is strictly greater than it.
   */
  ghost predicate Inserting(s: seq<VCLSnippet>, i: int, j: int)
    requires 0 <= j <= i < |s|
  {
    && (forall p, q :: 0 <= p < q <= i && p != j && q != j ==> LessEq(s[p].name, s[q].name))
    && (forall q :: j < q <= i ==> Less(s[j].name, s[q].name))
  }

  /** Moving the inserted snippet one place left past a greater neighbour keeps the pass's state. */
  lemma InsertingStep(s: seq<VCLSnippet>, i: int, j: int)
    requires 0 < j <= i < |s| && Inserting(s, i, j)
    requires Less(s[j].name, s[j - 1].name)
    ensures Inserting(s[j - 1 := s[j]][j := s[j - 1]], i, j - 1)
  {
  }

  /** A pass stops once the inserted snippet is not smaller than its left neighbour. */
  lemma InsertingDone(s: seq<VCLSnippet>, i: int, j: int)
    requires 0 <= j <= i < |s| && Inserting(s, i, j)
    requires j > 0 ==> LessEq(s[j - 1].name, s[j].name)
    ensures SortedByName(s[..i + 1])
  {
    forall p, q | 0 <= p < q <= i
      ensures LessEq(s[p].name, s[q].name)
    {
      if q == j && p < j - 1 {
        LessEqTransitive(s[p].name, s[j - 1].name, s[j].name);
      } else if p == j {
        LessAsymmetric(s[j].name, s[q].name);
      }
    }
  }

  /**
   * Everything a pass over s[..i + 1] keeps while the inserted snippet sits at j: the order
   * described by Inserting, the snippets of the prefix, the suffix, and every name's
   * subsequence, all compared with the array the pass started from.
   */
  ghost predicate PassState(s: seq<VCLSnippet>, start: seq<VCLSnippet>, i: int, j: int)
    requires 0 <= j <= i < |s|
  {
    && |start| == |s|
    && Inserting(s, i, j)
    && multiset(s[..i + 1]) == multiset(start[..i + 1])
    && s[i + 1..] == start[i + 1..]
    && (forall k :: WithName(s, k) == WithName(start, k))
  }

  /** A pass starts with the inserted snippet at i, after a sorted prefix. */
  lemma PassStart(s: seq<VCLSnippet>, i: int)
    requires 0 <= i < |s| && SortedByName(s[..i])
    ensures PassState(s, s, i, i)
  {
  }

  /**
   * One step of a pass: exchanging the inserted snippet with a greater left neighbour keeps
   * the state, one place further left.
   */
  lemma PassStep(s: seq<VCLSnippet>, start: seq<VCLSnippet>, i: int, j: int)
    requires 0 < j <= i < |s| && PassState(s, start, i, j)
    requires Less(s[j].name, s[j - 1].name)
    ensures PassState(s[j - 1 := s[j]][j := s[j - 1]], start, i, j - 1)
  {
    var t := s[j - 1 := s[j]][j := s[j - 1]];
    InsertingStep(s, i, j);
    assert t[..i + 1] == s[..i + 1][j - 1 := s[j]][j := s[j - 1]];
    assert t[i + 1..] == s[i + 1..];
    LessIrreflexive(s[j].name);
    forall k
      ensures WithName(t, k) == WithName(start, k)
    {
      SwapNeighboursKeepsWithName(s, j, k);
    }
  }

  /** When a pass stops, the prefix is sorted and holds the snippets it started with. */
  lemma PassDone(s: seq<VCLSnippet>, start: seq<VCLSnippet>, i: int, j: int)
    requires 0 <= j <= i < |s| && PassState(s, start, i, j)
    requires j > 0 ==> LessEq(s[j - 1].name, s[j].name)
    ensures SortedByName(s[..i + 1])
    ensures multiset(s[..i + 1]) == multiset(start[..i + 1])
    ensures s[i + 1..] == start[i + 1..]
    ensures forall k :: WithName(s, k) == WithName(start, k)
  {
    InsertingDone(s, i, j);
  }

  /** The loop body of a pass: moves the inserted snippet past its greater left neighbour. */
  method PassSwap(a: array<VCLSnippet>, ghost s: seq<VCLSnippet>, ghost start: seq<VCLSnippet>, i: int, j: int)
    returns (ghost s': seq<VCLSnippet>)
    requires 0 < j <= i < a.Length && a[..] == s && PassState(s, start, i, j)
    requires Less(s[j].name, s[j - 1].name)
    modifies a
    ensures a[..] == s' && PassState(s', start, i, j - 1)
  {
    PassStep(s, start, i, j);
    assert a[j - 1] == s[j - 1] && a[j] == s[j];
    Swap(a, j - 1, j);
    s' := s[j - 1 := s[j]][j := s[j - 1]];
  }

  /**
   * One insertion pass: moves a[i] left past every greater name, so that a[..i + 1] is
   * sorted and holds the snippets it held before, and nothing after i moves.
   */
  method InsertPass(a: array<VCLSnippet>, i: int)
    requires 0 <= i < a.Length && SortedByName(a[..i])
    modifies a
    ensures SortedByName(a[..i + 1])
    ensures multiset(a[..i + 1]) == multiset(old(a[..i + 1]))
    ensures a[i + 1..] == old(a[i + 1..])
    ensures forall k :: WithName(a[..], k) == WithName(old(a[..]), k)
  {
    ghost var start := a[..];
    ghost var s := start;
    PassStart(s, i);
    var j := i;
    while j > 0 && NameLess(a[j], a[j - 1])
      invariant 0 <= j <= i < |s|
      invariant a[..] == s
      invariant PassState(s, start, i, j)
    {
      s := PassSwap(a, s, start, i, j);
      j := j - 1;
    }
    PassDone(s, start, i, j);
    assert a[..i + 1] == s[..i + 1];
    assert start[..i + 1] == old(a[..i + 1]);
  }

  /**
   * sort.Stable(snippetsByName(a)), as an insertion sort built on Less and Swap. Being
   * equal to the reference sort, the result is also a permutation of the input.
   */
  method SortStable(a: array<VCLSnippet>)
    modifies a
    ensures SortedByName(a[..])
    ensures forall k :: WithName(a[..], k) == WithName(old(a[..]), k)
    ensures a[..] == StableSortByName(old(a[..]))
    ensures multiset(a[..]) == multiset(old(a[..]))
  {
    var i := 0;
    while i < a.Length
      invariant 0 <= i <= a.Length
      invariant SortedByName(a[..i])
      invariant forall k :: WithName(a[..], k) == WithName(old(a[..]), k)
    {
      InsertPass(a, i);
      i := i + 1;
    }
    assert a[..a.Length] == a[..];
    StableSortByNameCorrect(old(a[..]));
    StableSortUnique(a[..], StableSortByName(old(a[..])));
  }

  /** Puts x after the last snippet of s whose name is not greater than x's. */
  function InsertByName(s: seq<VCLSnippet>, x: VCLSnippet): seq<VCLSnippet>
    decreases |s|
  {
    if s == [] || !NameLess(x, s[|s| - 1]) then s + [x]
    else InsertByName(s[..|s| - 1], x) + [s[|s| - 1]]
  }

  /** Reference stable sort by name: insert each snippet, in order, into the sorted prefix. */
  function StableSortByName(s: seq<VCLSnippet>): seq<VCLSnippet>
    decreases |s|
  {
    if s == [] then [] else InsertByName(StableSortByName(s[..|s| - 1]), s[|s| - 1])
  }

  lemma {:induction false} InsertByNameMultiset(s: seq<VCLSnippet>, x: VCLSnippet)
    ensures multiset(InsertByName(s, x)) == multiset(s) + multiset{x}
    decreases |s|
  {
    if s != [] && NameLess(x, s[|s| - 1]) {
      InsertByNameMultiset(s[..|s| - 1], x);
      assert s == s[..|s| - 1] + [s[|s| - 1]];
    }
  }

  lemma {:induction false} InsertByNameWithName(s: seq<VCLSnippet>, x: VCLSnippet, k: string)
    ensures WithName(InsertByName(s, x), k) == WithName(s, k) + WithName([x], k)
    decreases |s|
  {
    if s == [] || !NameLess(x, s[|s| - 1]) {
      WithNameAppend(s, [x], k);
    } else {
      var init, last := s[..|s| - 1], s[|s| - 1];
      LessIrreflexive(x.name);
      InsertByNameWithName(init, x, k);
      WithNameAppend(InsertByName(init, x), [last], k);
      WithNameAppend(init, [last], k);
      assert s == init + [last];
    }
  }

  /** Appending a snippet no smaller than the last one keeps a sequence sorted. */
  lemma AppendSorted(s: seq<VCLSnippet>, x: VCLSnippet)
    requires SortedByName(s)
    requires s != [] ==> LessEq(s[|s| - 1].name, x.name)
    ensures SortedByName(s + [x])
  {
    var t := s + [x];
    forall p, q | 0 <= p < q < |t|
      ensures LessEq(t[p].name, t[q].name)
    {
      if q == |s| && p < |s| - 1 {
        LessEqTransitive(s[p].name, s[|s| - 1].name, x.name);
      }
    }
  }

  lemma {:induction false} InsertByNameSorted(s: seq<VCLSnippet>, x: VCLSnippet)
    requires SortedByName(s)
    ensures SortedByName(InsertByName(s, x))
    decreases |s|
  {
    if s == [] || !NameLess(x, s[|s| - 1]) {
      AppendSorted(s, x);
    } else {
      var init, last := s[..|s| - 1], s[|s| - 1];
      var r := InsertByName(init, x);
      InsertByNameSorted(init, x);
      InsertByNameMultiset(init, x);
      if r != [] {
        var y := r[|r| - 1];
        assert y in multiset(r);
        if y == x {
          LessAsymmetric(x.name, last.name);
        } else {
          assert y in init;
        }
      }
      AppendSorted(r, last);
    }
  }

  /** The reference sort is sorted, a permutation, and stable. */
  lemma {:induction false} StableSortByNameCorrect(s: seq<VCLSnippet>)
    ensures SortedByName(StableSortByName(s))
    ensures multiset(StableSortByName(s)) == multiset(s)
    ensures forall k :: WithName(StableSortByName(s), k) == WithName(s, k)
    decreases |s|
  {
    if s != [] {
      var init, last := s[..|s| - 1], s[|s| - 1];
      StableSortByNameCorrect(init);
      InsertByNameSorted(StableSortByName(init), last);
      InsertByNameMultiset(StableSortByName(init), last);
      assert s == init + [last];
      forall k
        ensures WithName(StableSortByName(s), k) == WithName(s, k)
      {
        InsertByNameWithName(StableSortByName(init), last, k);
        WithNameAppend(init, [last], k);
      }
    }
  }

  /** The first snippet of a sorted sequence has the smallest name of all. */
  lemma SortedFirstIsLeast(s: seq<VCLSnippet>, x: VCLSnippet)
    requires SortedByName(s) && x in s
    ensures LessEq(s[0].name, x.name)
  {
    var q :| 0 <= q < |s| && s[q] == x;
    if q == 0 {
      LessIrreflexive(x.name);
    }
  }

  /** A non-empty sequence has a non-empty subsequence for its first name, so one with the same subsequences is non-empty too. */
  lemma SameSubsequencesNonEmpty(t: seq<VCLSnippet>, u: seq<VCLSnippet>)
    requires forall k :: WithName(t, k) == WithName(u, k)
    ensures t != [] ==> u != []
  {
    if t != [] {
      assert t[0] in WithName(t, t[0].name);
    }
  }

  /** Dropping the same first snippet from both sequences keeps their subsequences equal. */
  lemma SameSubsequencesOfTails(t: seq<VCLSnippet>, u: seq<VCLSnippet>)
    requires t != [] && u != [] && t[0] == u[0]
    requires forall k :: WithName(t, k) == WithName(u, k)
    ensures forall k :: WithName(t[1..], k) == WithName(u[1..], k)
  {
    forall k
      ensures WithName(t[1..], k) == WithName(u[1..], k)
    {
      var head := if t[0].name == k then [t[0]] else [];
      assert WithName(t, k) == head + WithName(t[1..], k);
      assert WithName(u, k) == head + WithName(u[1..], k);
      assert (head + WithName(t[1..], k))[|head|..] == WithName(t[1..], k);
      assert (head + WithName(u[1..], k))[|head|..] == WithName(u[1..], k);
    }
  }

  /**
   * Two sorted sequences with the same subsequence for every name are equal: the order
   * by name together with the order among equal names fixes every position.
   */
  lemma {:induction false} StableSortUnique(t: seq<VCLSnippet>, u: seq<VCLSnippet>)
    requires SortedByName(t) && SortedByName(u)
    requires forall k :: WithName(t, k) == WithName(u, k)
    ensures t == u
    decreases |t|
  {
    SameSubsequencesNonEmpty(t, u);
    SameSubsequencesNonEmpty(u, t);
    if t != [] {
      var x, y := t[0], u[0];
      assert x in WithName(t, x.name);
      WithNameMember(u, x.name, x);
      SortedFirstIsLeast(u, x);
      assert y in WithName(u, y.name);
      WithNameMember(t, y.name, y);
      SortedFirstIsLeast(t, y);
      LessEqAntisymmetric(x.name, y.name);
      assert x == y by {
        assert WithName(t, x.name)[0] == x;
        assert WithName(u, x.name)[0] == y;
      }
      SameSubsequencesOfTails(t, u);
      StableSortUnique(t[1..], u[1..]);
      assert t == [x] + t[1..] && u == [y] + u[1..];
    }
  }

  /** A snippet that differs from the others only in its name and id. */
  function Named(name: string, id: string): VCLSnippet
  {
    VCLSnippet("svc", 1, "", false, id, name, 0, TypeRecv, Wrappers.None, Wrappers.None, Wrappers.None)
  }

  /** Names "b", "a", "c" come out as "a", "b", "c". */
  lemma SortsByNameExample()
    ensures StableSortByName([Named("b", "1"), Named("a", "2"), Named("c", "3")])
         == [Named("a", "2"), Named("b", "1"), Named("c", "3")]
  {
    var b, a, c := Named("b", "1"), Named("a", "2"), Named("c", "3");
    assert Less("a", "b") && Less("b", "c") && !Less("c", "b");
    assert [b, a, c][..2] == [b, a] && [b, a][..1] == [b] && [b][..0] == [];
    assert StableSortByName([b]) == [b];
    assert InsertByName([], a) == [a];
    assert InsertByName([b], a) == [a, b];
    assert StableSortByName([b, a]) == [a, b];
    assert InsertByName([a, b], c) == [a, b, c];
  }

  /** Two snippets named "x" keep their order when a smaller name moves in front of them. */
  lemma KeepsOrderOfEqualNamesExample()
    ensures StableSortByName([Named("x", "1"), Named("a", "2"), Named("x", "3")])
         == [Named("a", "2"), Named("x", "1"), Named("x", "3")]
  {
    var x1, a, x3 := Named("x", "1"), Named("a", "2"), Named("x", "3");
    assert Less("a", "x") && !Less("x", "x") && !Less("x", "a");
    assert [x1, a, x3][..2] == [x1, a] && [x1, a][..1] == [x1] && [x1][..0] == [];
    assert StableSortByName([x1]) == [x1];
    assert InsertByName([], a) == [a];
    assert InsertByName([x1], a) == [a, x1];
    assert StableSortByName([x1, a]) == [a, x1];
    assert InsertByName([a, x1], x3) == [a, x1, x3];
  }
}
