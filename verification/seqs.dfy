/** The array methods the emulator uses: `find`/`findIndex`, `filter`,
    `some`, and counting. */
module Seqs {
  import opened Wrappers

  /** `findIndex`: the position of the first element satisfying `p`. */
  function FirstIndex<T>(s: seq<T>, p: T -> bool): (r: Option<nat>)
    ensures r.Some? ==> r.value < |s| && p(s[r.value])
    ensures r.Some? ==> forall j :: 0 <= j < r.value ==> !p(s[j])
    ensures r.None? <==> forall j :: 0 <= j < |s| ==> !p(s[j])
  {
    if |s| == 0 then None
    else if p(s[0]) then Some(0)
    else
      var rest := FirstIndex(s[1..], p);
      if rest.Some? then Some(rest.value + 1) else None
  }

  /** `findLastIndex`: the position of the last element satisfying `p`. */
  function LastIndex<T>(s: seq<T>, p: T -> bool): (r: Option<nat>)
    ensures r.Some? ==> r.value < |s| && p(s[r.value])
    ensures r.Some? ==> forall j :: r.value < j < |s| ==> !p(s[j])
    ensures r.None? <==> forall j :: 0 <= j < |s| ==> !p(s[j])
  {
    if |s| == 0 then None
    else if p(s[|s| - 1]) then Some(|s| - 1)
    else LastIndex(s[..|s| - 1], p)
  }

  /** `[...s].reverse()`. */
  function Reverse<T>(s: seq<T>): (r: seq<T>)
    ensures |r| == |s|
    ensures forall i :: 0 <= i < |s| ==> r[i] == s[|s| - 1 - i]
  {
    if |s| == 0 then [] else [s[|s| - 1]] + Reverse(s[..|s| - 1])
  }

  /** `find`: the first element satisfying `p`, `undefined` when none does. */
  function Find<T>(s: seq<T>, p: T -> bool): (r: Option<T>)
  {
    var i := FirstIndex(s, p);
    if i.Some? then Some(s[i.value]) else None
  }

  /** Finding in the reversed sequence finds the last element satisfying `p`. */
  lemma {:induction false} FindReversed<T>(s: seq<T>, p: T -> bool)
    ensures Find(Reverse(s), p) == if LastIndex(s, p).Some? then Some(s[LastIndex(s, p).value]) else None
  {
    var r := Reverse(s);
    var i := FirstIndex(r, p);
    var j := LastIndex(s, p);
    if i.Some? {
      assert r[i.value] == s[|s| - 1 - i.value];
      assert p(s[|s| - 1 - i.value]);
      assert r[|s| - 1 - j.value] == s[j.value];
    } else {
      forall k | 0 <= k < |s| ensures !p(s[k]) {
        assert s[k] == r[|s| - 1 - k];
      }
    }
  }

  /** `filter`: the elements satisfying `p`, in their original order. */
  function Filter<T(!new)>(s: seq<T>, p: T -> bool): (r: seq<T>)
    ensures |r| <= |s|
    ensures forall i :: 0 <= i < |r| ==> p(r[i])
    ensures forall x :: multiset(r)[x] == if p(x) then multiset(s)[x] else 0
  {
    if |s| == 0 then []
    else
      var rest := Filter(s[1..], p);
      assert s == [s[0]] + s[1..];
      if p(s[0]) then [s[0]] + rest else rest
  }

  /** The first element `filter` keeps is the one `findIndex` finds. */
  lemma {:induction false} FilterHeadIsFirst<T(!new)>(s: seq<T>, p: T -> bool)
    ensures FirstIndex(s, p).Some? <==> |Filter(s, p)| > 0
    ensures FirstIndex(s, p).Some? ==> Filter(s, p)[0] == s[FirstIndex(s, p).value]
  {
    if |s| > 0 && !p(s[0]) {
      FilterHeadIsFirst(s[1..], p);
    }
  }

  /** `filter` keeps every element satisfying `p`. */
  lemma FilterKeeps<T(!new)>(s: seq<T>, p: T -> bool, x: T)
    requires x in s && p(x)
    ensures x in Filter(s, p)
  {
    assert x in multiset(s);
    assert x in multiset(Filter(s, p));
  }

  /** An element of the multiset of `s` sits at some position of `s`. */
  lemma {:induction false} MultisetIndex<T>(s: seq<T>, x: T) returns (i: nat)
    requires x in multiset(s)
    ensures i < |s| && s[i] == x
  {
    assert s == [s[0]] + s[1..];
    if s[0] == x {
      i := 0;
    } else {
      var j := MultisetIndex(s[1..], x);
      i := j + 1;
    }
  }

  /** Filtering a sequence ending in an element that fails `p` ignores it. */
  lemma FilterAppendRejected<T(!new)>(s: seq<T>, x: T, p: T -> bool)
    requires !p(x)
    ensures Filter(s + [x], p) == Filter(s, p)
  {
    if |s| > 0 {
      assert (s + [x])[1..] == s[1..] + [x];
      FilterAppendRejected(s[1..], x, p);
    }
  }

  /** Filtering a sequence with one more element at the end keeps it exactly
      when it satisfies `p`. */
  lemma {:induction false} FilterSnoc<T(!new)>(s: seq<T>, x: T, p: T -> bool)
    ensures Filter(s + [x], p) == Filter(s, p) + (if p(x) then [x] else [])
  {
    if |s| == 0 {
      assert (s + [x])[1..] == [];
    } else {
      var sx := s + [x];
      assert sx[0] == s[0] && sx[1..] == s[1..] + [x];
      var head: seq<T> := if p(s[0]) then [s[0]] else [];
      var last: seq<T> := if p(x) then [x] else [];
      var rest := Filter(s[1..], p);
      FilterSnoc(s[1..], x, p);
      FilterHead(sx, p);
      FilterHead(s, p);
      Reassociate(Filter(sx, p), Filter(s, p), head, rest, last);
    }
  }

  /** `head + (rest + last)` and `(head + rest) + last` are one sequence. */
  lemma Reassociate<T>(a: seq<T>, b: seq<T>, head: seq<T>, rest: seq<T>, last: seq<T>)
    requires a == head + (rest + last) && b == head + rest
    ensures a == b + last
  {
  }

  /** Nothing survives filtering when no element satisfies `p`. */
  lemma {:induction false} FilterNone<T(!new)>(s: seq<T>, p: T -> bool)
    requires forall i :: 0 <= i < |s| ==> !p(s[i])
    ensures Filter(s, p) == []
  {
    if |s| > 0 {
      FilterNone(s[1..], p);
    }
  }

  /** Filtering a non-empty sequence: its head, if kept, then the filtered
      tail. */
  lemma FilterHead<T(!new)>(s: seq<T>, p: T -> bool)
    requires |s| > 0
    ensures Filter(s, p) == (if p(s[0]) then [s[0]] else []) + Filter(s[1..], p)
  {
  }

  /** Filtering a sequence with one more element in front. */
  lemma FilterCons<T(!new)>(x: T, s: seq<T>, p: T -> bool)
    ensures Filter([x] + s, p) == (if p(x) then [x] else []) + Filter(s, p)
  {
    assert ([x] + s)[1..] == s;
  }

  /** The number of elements satisfying `p`. */
  function Count<T>(s: seq<T>, p: T -> bool): (n: nat)
    ensures n <= |s|
    ensures n == 0 <==> forall i :: 0 <= i < |s| ==> !p(s[i])
  {
    if |s| == 0 then 0
    else (if p(s[0]) then 1 else 0) + Count(s[1..], p)
  }

  /** Counting over a prefix one element longer adds one exactly when that
      element satisfies `p`. */
  lemma CountPrefix<T>(s: seq<T>, i: nat, p: T -> bool)
    requires i < |s|
    ensures Count(s[..i + 1], p) == Count(s[..i], p) + (if p(s[i]) then 1 else 0)
  {
    CountSnoc(s[..i], s[i], p);
    assert s[..i + 1] == s[..i] + [s[i]];
  }

  /** A prefix holds its elements at their original places and no element
      more often than the whole. */
  lemma Prefix<T>(s: seq<T>, n: nat)
    requires n <= |s|
    ensures forall i :: 0 <= i < n ==> s[..n][i] == s[i]
    ensures multiset(s[..n]) <= multiset(s)
  {
    assert s == s[..n] + s[n..];
  }

  /** A sequence one longer than `pre` that agrees with it at every index of
      `pre` is `pre` followed by its last element. */
  lemma SnocOfPrefix<T>(s: seq<T>, pre: seq<T>)
    requires |s| == |pre| + 1
    requires forall k :: 0 <= k < |pre| ==> s[k] == pre[k]
    ensures s == pre + [s[|pre|]]
    ensures s[..|pre|] == pre
  {
  }

  /** Counting over one more element adds one exactly when it satisfies `p`. */
  lemma {:induction false} CountSnoc<T>(s: seq<T>, x: T, p: T -> bool)
    ensures Count(s + [x], p) == Count(s, p) + (if p(x) then 1 else 0)
  {
    if |s| == 0 {
      assert (s + [x])[1..] == [];
    } else {
      assert (s + [x])[1..] == s[1..] + [x];
      CountSnoc(s[1..], x, p);
    }
  }
}
