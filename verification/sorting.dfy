/** `Array.prototype.sort` with a comparator: a stable sort, modelled as an
    insertion sort that places each element after the ones it does not
    precede. */
module Sorting {
  import Seqs

  /** Every two elements are comparable under `le`. */
  ghost predicate Total<T(!new)>(le: (T, T) -> bool) {
    forall a, b :: le(a, b) || le(b, a)
  }

  ghost predicate Transitive<T(!new)>(le: (T, T) -> bool) {
    forall a, b, c :: le(a, b) && le(b, c) ==> le(a, c)
  }

  /** Each element is `le` its successor. */
  predicate Sorted<T>(s: seq<T>, le: (T, T) -> bool) {
    forall i :: 0 <= i < |s| - 1 ==> le(s[i], s[i + 1])
  }

  /** Inserts `x` into sorted `s`, after every element that is `le` it. */
  function Insert<T(!new)>(x: T, s: seq<T>, le: (T, T) -> bool): (r: seq<T>)
    requires Total(le)
    requires Sorted(s, le)
    ensures Sorted(r, le)
    ensures multiset(r) == multiset(s) + multiset{x}
    ensures |r| == |s| + 1
    ensures r[0] == x || (|s| > 0 && r[0] == s[0])
  {
    if |s| == 0 then [x]
    else if le(s[0], x) then
      var rest := Insert(x, s[1..], le);
      assert s == [s[0]] + s[1..];
      [s[0]] + rest
    else
      [x] + s
  }

  /** The elements that tie with `y` under `le`. */
  function Ties<T>(le: (T, T) -> bool, y: T): T -> bool {
    (x: T) => le(x, y) && le(y, x)
  }

  /** The elements of `s` in `le` order; elements that tie keep their order. */
  function Sort<T(!new)>(s: seq<T>, le: (T, T) -> bool): (r: seq<T>)
    requires Total(le)
    ensures Sorted(r, le)
    ensures multiset(r) == multiset(s)
    ensures |r| == |s|
    ensures Transitive(le) ==> forall y :: Seqs.Filter(r, Ties(le, y)) == Seqs.Filter(s, Ties(le, y))
  {
    if |s| == 0 then []
    else
      var init := s[..|s| - 1];
      var x := s[|s| - 1];
      assert s == init + [x];
      var sorted := Sort(init, le);
      SortStep(init, x, sorted, le);
      Insert(x, sorted, le)
  }

  /** Inserting the last element into the stably sorted rest keeps every run
      of ties in input order. */
  lemma SortStep<T(!new)>(init: seq<T>, x: T, sorted: seq<T>, le: (T, T) -> bool)
    requires Total(le) && Sorted(sorted, le)
    requires Transitive(le) ==> forall y :: Seqs.Filter(sorted, Ties(le, y)) == Seqs.Filter(init, Ties(le, y))
    ensures Transitive(le) ==>
      forall y :: Seqs.Filter(Insert(x, sorted, le), Ties(le, y)) == Seqs.Filter(init + [x], Ties(le, y))
  {
    if Transitive(le) {
      forall y ensures Seqs.Filter(Insert(x, sorted, le), Ties(le, y)) == Seqs.Filter(init + [x], Ties(le, y)) {
        InsertTies(x, sorted, le, y);
        Seqs.FilterSnoc(init, x, Ties(le, y));
      }
    }
  }

  /** Inserting `x` puts it after every element it ties with: among the
      elements tying with any `y`, `x` comes last. */
  lemma {:induction false} InsertTies<T(!new)>(x: T, s: seq<T>, le: (T, T) -> bool, y: T)
    requires Total(le) && Transitive(le)
    requires Sorted(s, le)
    ensures Seqs.Filter(Insert(x, s, le), Ties(le, y))
            == Seqs.Filter(s, Ties(le, y)) + (if Ties(le, y)(x) then [x] else [])
  {
    if |s| == 0 {
      Seqs.FilterCons(x, [], Ties(le, y));
    } else if le(s[0], x) {
      SortedTail(s, le);
      InsertTies(x, s[1..], le, y);
      InsertTiesPast(x, s, le, y);
    } else {
      InsertTiesFront(x, s, le, y);
    }
  }

  /** The step of `InsertTies` when `x` goes past the first element. */
  lemma InsertTiesPast<T(!new)>(x: T, s: seq<T>, le: (T, T) -> bool, y: T)
    requires Total(le) && |s| > 0 && Sorted(s, le) && le(s[0], x)
    requires Sorted(s[1..], le)
    requires Seqs.Filter(Insert(x, s[1..], le), Ties(le, y))
             == Seqs.Filter(s[1..], Ties(le, y)) + (if Ties(le, y)(x) then [x] else [])
    ensures Seqs.Filter(Insert(x, s, le), Ties(le, y))
            == Seqs.Filter(s, Ties(le, y)) + (if Ties(le, y)(x) then [x] else [])
  {
    var q := Ties(le, y);
    var head: seq<T> := if q(s[0]) then [s[0]] else [];
    var last: seq<T> := if q(x) then [x] else [];
    InsertPast(x, s, le);
    Seqs.FilterCons(s[0], Insert(x, s[1..], le), q);
    assert Seqs.Filter(Insert(x, s, le), q) == head + (Seqs.Filter(s[1..], q) + last);
    Seqs.FilterHead(s, q);
    var rest := Seqs.Filter(s[1..], q);
    assert Seqs.Filter(s, q) == head + rest;
    Seqs.Reassociate(Seqs.Filter(Insert(x, s, le), q), Seqs.Filter(s, q), head, rest, last);
  }

  /** The step of `InsertTies` when `x` goes in front. */
  lemma InsertTiesFront<T(!new)>(x: T, s: seq<T>, le: (T, T) -> bool, y: T)
    requires Total(le) && Transitive(le) && |s| > 0 && Sorted(s, le) && !le(s[0], x)
    ensures Seqs.Filter(Insert(x, s, le), Ties(le, y))
            == Seqs.Filter(s, Ties(le, y)) + (if Ties(le, y)(x) then [x] else [])
  {
    assert Insert(x, s, le) == [x] + s;
    Seqs.FilterCons(x, s, Ties(le, y));
    if Ties(le, y)(x) {
      AboveTies(x, s, le, y);
    }
  }

  lemma SortedTail<T>(s: seq<T>, le: (T, T) -> bool)
    requires |s| > 0 && Sorted(s, le)
    ensures Sorted(s[1..], le)
  {
    forall i | 0 <= i < |s| - 2 ensures le(s[1..][i], s[1..][i + 1]) {
      assert s[1..][i] == s[i + 1];
    }
  }

  /** Inserting past the first element keeps it first. */
  lemma InsertPast<T(!new)>(x: T, s: seq<T>, le: (T, T) -> bool)
    requires Total(le) && |s| > 0 && Sorted(s, le) && le(s[0], x)
    ensures Sorted(s[1..], le)
    ensures Insert(x, s, le) == [s[0]] + Insert(x, s[1..], le)
  {
    SortedTail(s, le);
  }

  /** When `x` sorts strictly before a sorted `s`, nothing in `s` ties with
      anything `x` ties with. */
  lemma AboveTies<T(!new)>(x: T, s: seq<T>, le: (T, T) -> bool, y: T)
    requires Transitive(le) && Sorted(s, le)
    requires |s| > 0 && !le(s[0], x) && Ties(le, y)(x)
    ensures Seqs.Filter(s, Ties(le, y)) == []
  {
    forall j | 0 <= j < |s| ensures !Ties(le, y)(s[j]) {
      if j > 0 {
        SortedPairwise(s, le, 0, j);
      }
    }
    Seqs.FilterNone(s, Ties(le, y));
  }

  /** Under a transitive `le`, a sorted sequence is ordered pairwise, not just
      between neighbours. */
  lemma {:induction false} SortedPairwise<T(!new)>(s: seq<T>, le: (T, T) -> bool, i: int, j: int)
    requires Transitive(le)
    requires Sorted(s, le)
    requires 0 <= i < j < |s|
    ensures le(s[i], s[j])
    decreases j - i
  {
    if j > i + 1 {
      SortedPairwise(s, le, i, j - 1);
    }
  }

  /** A prefix of a sorted sequence is sorted. */
  lemma SortedPrefix<T>(s: seq<T>, le: (T, T) -> bool, n: nat)
    requires Sorted(s, le)
    requires n <= |s|
    ensures Sorted(s[..n], le)
  {
    forall i | 0 <= i < n - 1 ensures le(s[..n][i], s[..n][i + 1]) {
      assert s[..n][i] == s[i] && s[..n][i + 1] == s[i + 1];
    }
  }

  /** Sorting keeps every property its input's elements all have. */
  lemma SortPreserves<T(!new)>(s: seq<T>, le: (T, T) -> bool, p: T -> bool)
    requires Total(le)
    requires forall i :: 0 <= i < |s| ==> p(s[i])
    ensures forall i :: 0 <= i < |Sort(s, le)| ==> p(Sort(s, le)[i])
  {
    var r := Sort(s, le);
    forall i | 0 <= i < |r| ensures p(r[i]) {
      assert r[i] in multiset(s);
      var j :| 0 <= j < |s| && s[j] == r[i];
    }
  }
}
