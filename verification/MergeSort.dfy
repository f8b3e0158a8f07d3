/**
 The bottom-up merge sort that all analysis code shares. The method works on an array with a scratch
 buffer; `Sort` says what it computes, and the lemmas show that this is the stable sorted permutation.
 */
module MergeSort {
  import opened Base

  datatype Ordering = Less | Equal | Greater

  predicate Leq<T>(cmp: (T, T) -> Ordering, x: T, y: T) {
    cmp(x, y) != Greater
  }

  predicate Equiv<T>(cmp: (T, T) -> Ordering, x: T, y: T) {
    cmp(x, y) == Equal
  }

  /** A total preorder: every pair is comparable, comparisons mirror each other, and "not greater" is transitive. */
  ghost predicate TotalPreorder<T(!new)>(cmp: (T, T) -> Ordering) {
    && (forall x, y :: cmp(x, y) == Greater <==> cmp(y, x) == Less)
    && (forall x, y, z :: Leq(cmp, x, y) && Leq(cmp, y, z) ==> Leq(cmp, x, z))
  }

  ghost predicate Sorted<T>(cmp: (T, T) -> Ordering, s: seq<T>) {
    forall i, j | 0 <= i < j < |s| :: Leq(cmp, s[i], s[j])
  }

  // ----- What the sort computes -----

  function Merge<T>(cmp: (T, T) -> Ordering, a: seq<T>, b: seq<T>): (r: seq<T>)
    ensures |r| == |a| + |b|
    decreases |a| + |b|
  {
    if a == [] then b
    else if b == [] then a
    else if Leq(cmp, a[0], b[0]) then [a[0]] + Merge(cmp, a[1..], b)
    else [b[0]] + Merge(cmp, a, b[1..])
  }

  /** One pass: adjacent runs of `width` are merged pairwise. */
  function Pass<T>(cmp: (T, T) -> Ordering, s: seq<T>, width: nat): (r: seq<T>)
    requires width > 0
    ensures |r| == |s|
    decreases |s|
  {
    if s == [] then []
    else
      var middle := Min(width, |s|);
      var end := Min(middle + width, |s|);
      Merge(cmp, s[..middle], s[middle..end]) + Pass(cmp, s[end..], width)
  }

  lemma {:induction false} PassUnfold<T>(cmp: (T, T) -> Ordering, s: seq<T>, width: nat, middle: nat, end: nat)
    requires width > 0 && s != [] && middle == Min(width, |s|) && end == Min(middle + width, |s|)
    ensures Pass(cmp, s, width) == Merge(cmp, s[..middle], s[middle..end]) + Pass(cmp, s[end..], width)
  {
    hide Merge;
  }

  lemma {:induction false} ThreeParts<T>(s: seq<T>, i: nat, j: nat)
    requires i <= j <= |s|
    ensures s == s[..i] + (s[i..j] + s[j..]) && s[i..] == s[i..j] + s[j..]
    ensures s[i..j] == s[i..][..j - i] && s[j..] == s[i..][j - i..]
  {
  }

  /** The first two runs and what follows them. */
  lemma {:induction false} PassSplit<T>(cmp: (T, T) -> Ordering, s: seq<T>, width: nat)
    returns (a: seq<T>, b: seq<T>, c: seq<T>)
    requires width > 0 && s != []
    ensures a == s[..Min(width, |s|)] && s == a + (b + c) && |c| < |s|
    ensures s[Min(width, |s|)..] == b + c && b == (b + c)[..Min(width, |b + c|)] && c == (b + c)[Min(width, |b + c|)..]
    ensures |a| + |b| == Min(width * 2, |s|)
    ensures Pass(cmp, s, width) == Merge(cmp, a, b) + Pass(cmp, c, width)
  {
    var middle := Min(width, |s|);
    var end := Min(middle + width, |s|);
    PassUnfold(cmp, s, width, middle, end);
    ThreeParts(s, middle, end);
    a, b, c := s[..middle], s[middle..end], s[end..];
  }

  function SortFrom<T>(cmp: (T, T) -> Ordering, s: seq<T>, width: nat): (r: seq<T>)
    requires width > 0
    ensures |r| == |s|
    decreases |s| - width
  {
    if width >= |s| then s else SortFrom(cmp, Pass(cmp, s, width), width * 2)
  }

  function Sort<T>(cmp: (T, T) -> Ordering, s: seq<T>): (r: seq<T>)
    ensures |r| == |s|
  {
    SortFrom(cmp, s, 1)
  }

  // ----- It is a permutation -----

  lemma {:induction false} MergeMultiset<T>(cmp: (T, T) -> Ordering, a: seq<T>, b: seq<T>)
    ensures multiset(Merge(cmp, a, b)) == multiset(a) + multiset(b)
    decreases |a| + |b|
  {
    if a != [] && b != [] {
      if Leq(cmp, a[0], b[0]) {
        MergeMultiset(cmp, a[1..], b);
        assert a == [a[0]] + a[1..];
      } else {
        MergeMultiset(cmp, a, b[1..]);
        assert b == [b[0]] + b[1..];
      }
    }
  }

  lemma {:induction false} PassMultiset<T>(cmp: (T, T) -> Ordering, s: seq<T>, width: nat)
    requires width > 0
    ensures multiset(Pass(cmp, s, width)) == multiset(s)
    decreases |s|
  {
    if s != [] {
      var a, b, c := PassSplit(cmp, s, width);
      MergeMultiset(cmp, a, b);
      PassMultiset(cmp, c, width);
      assert multiset(s) == multiset(a) + (multiset(b) + multiset(c));
    }
  }

  lemma {:induction false} SortFromMultiset<T>(cmp: (T, T) -> Ordering, s: seq<T>, width: nat)
    requires width > 0
    ensures multiset(SortFrom(cmp, s, width)) == multiset(s)
    decreases |s| - width
  {
    if width < |s| {
      PassMultiset(cmp, s, width);
      SortFromMultiset(cmp, Pass(cmp, s, width), width * 2);
    }
  }

  // ----- It is sorted -----

  ghost predicate AllGeq<T>(cmp: (T, T) -> Ordering, x: T, s: seq<T>) {
    forall i | 0 <= i < |s| :: Leq(cmp, x, s[i])
  }

  lemma {:induction false} MergeGeq<T>(cmp: (T, T) -> Ordering, x: T, a: seq<T>, b: seq<T>)
    requires AllGeq(cmp, x, a) && AllGeq(cmp, x, b)
    ensures AllGeq(cmp, x, Merge(cmp, a, b))
    decreases |a| + |b|
  {
    if a != [] && b != [] {
      if Leq(cmp, a[0], b[0]) {
        MergeGeq(cmp, x, a[1..], b);
      } else {
        MergeGeq(cmp, x, a, b[1..]);
      }
    }
  }

  lemma {:induction false} SortedTail<T>(cmp: (T, T) -> Ordering, s: seq<T>)
    requires Sorted(cmp, s) && s != []
    ensures Sorted(cmp, s[1..]) && AllGeq(cmp, s[0], s[1..])
  {
  }

  lemma {:induction false} SortedCons<T>(cmp: (T, T) -> Ordering, x: T, s: seq<T>)
    requires Sorted(cmp, s) && AllGeq(cmp, x, s)
    ensures Sorted(cmp, [x] + s)
  {
  }

  lemma {:induction false} GeqChain<T(!new)>(cmp: (T, T) -> Ordering, x: T, y: T, s: seq<T>)
    requires TotalPreorder(cmp) && Leq(cmp, x, y) && AllGeq(cmp, y, s)
    ensures AllGeq(cmp, x, s)
  {
  }

  lemma {:induction false} MergeSorted<T(!new)>(cmp: (T, T) -> Ordering, a: seq<T>, b: seq<T>)
    requires TotalPreorder(cmp) && Sorted(cmp, a) && Sorted(cmp, b)
    ensures Sorted(cmp, Merge(cmp, a, b))
    decreases |a| + |b|
  {
    if a != [] && b != [] {
      SortedTail(cmp, a);
      SortedTail(cmp, b);
      if Leq(cmp, a[0], b[0]) {
        GeqChain(cmp, a[0], b[0], b[1..]);
        assert b == [b[0]] + b[1..];
        MergeSorted(cmp, a[1..], b);
        MergeGeq(cmp, a[0], a[1..], b);
        SortedCons(cmp, a[0], Merge(cmp, a[1..], b));
      } else {
        GeqChain(cmp, b[0], a[0], a[1..]);
        assert a == [a[0]] + a[1..];
        MergeSorted(cmp, a, b[1..]);
        MergeGeq(cmp, b[0], a, b[1..]);
        SortedCons(cmp, b[0], Merge(cmp, a, b[1..]));
      }
    }
  }

  /** Every run of `width` is sorted. */
  ghost predicate Runs<T>(cmp: (T, T) -> Ordering, s: seq<T>, width: nat)
    requires width > 0
    decreases |s|
  {
    s == [] || (Sorted(cmp, s[..Min(width, |s|)]) && Runs(cmp, s[Min(width, |s|)..], width))
  }

  lemma {:induction false} RunsTail<T>(cmp: (T, T) -> Ordering, s: seq<T>, width: nat)
    requires width > 0 && Runs(cmp, s, width)
    ensures Sorted(cmp, s[..Min(width, |s|)]) && Runs(cmp, s[Min(width, |s|)..], width)
  {
    if s == [] {
      assert s[0..] == s;
    }
  }

  lemma {:induction false} RunsCons<T>(cmp: (T, T) -> Ordering, run: seq<T>, rest: seq<T>, width: nat)
    requires width > 0 && Sorted(cmp, run) && Runs(cmp, rest, width)
    requires |run| == Min(width, |run| + |rest|)
    ensures Runs(cmp, run + rest, width)
  {
    var s := run + rest;
    assert s[..|run|] == run && s[|run|..] == rest;
  }

  lemma {:induction false} PassRuns<T(!new)>(cmp: (T, T) -> Ordering, s: seq<T>, width: nat)
    requires width > 0 && TotalPreorder(cmp) && Runs(cmp, s, width)
    ensures Runs(cmp, Pass(cmp, s, width), width * 2)
    decreases |s|
  {
    if s != [] {
      var a, b, c := PassSplit(cmp, s, width);
      RunsTail(cmp, b + c, width);
      MergeSorted(cmp, a, b);
      PassRuns(cmp, c, width);
      RunsCons(cmp, Merge(cmp, a, b), Pass(cmp, c, width), width * 2);
    }
  }

  lemma {:induction false} SingleRuns<T>(cmp: (T, T) -> Ordering, s: seq<T>)
    ensures Runs(cmp, s, 1)
    decreases |s|
  {
    if s != [] {
      SingleRuns(cmp, s[1..]);
    }
  }

  lemma {:induction false} SortFromSorted<T(!new)>(cmp: (T, T) -> Ordering, s: seq<T>, width: nat)
    requires width > 0 && TotalPreorder(cmp) && Runs(cmp, s, width)
    ensures Sorted(cmp, SortFrom(cmp, s, width))
    decreases |s| - width
  {
    if width < |s| {
      PassRuns(cmp, s, width);
      SortFromSorted(cmp, Pass(cmp, s, width), width * 2);
    } else {
      assert s[..|s|] == s;
    }
  }

  // ----- It is stable -----

  /** The elements equivalent to `k`, in order. */
  function Class<T>(cmp: (T, T) -> Ordering, s: seq<T>, k: T): seq<T> {
    if s == [] then []
    else (if Equiv(cmp, s[0], k) then [s[0]] else []) + Class(cmp, s[1..], k)
  }

  lemma {:induction false} ClassAppend<T>(cmp: (T, T) -> Ordering, a: seq<T>, b: seq<T>, k: T)
    ensures Class(cmp, a + b, k) == Class(cmp, a, k) + Class(cmp, b, k)
  {
    if a == [] {
      assert a + b == b;
    } else {
      hide Equiv;
      assert (a + b)[1..] == a[1..] + b;
      ClassAppend(cmp, a[1..], b, k);
      var head := if Equiv(cmp, a[0], k) then [a[0]] else [];
      assert Class(cmp, a + b, k) == head + Class(cmp, (a + b)[1..], k);
      assert head + (Class(cmp, a[1..], k) + Class(cmp, b, k)) == (head + Class(cmp, a[1..], k)) + Class(cmp, b, k);
    }
  }

  lemma {:induction false} NoneBelow<T(!new)>(cmp: (T, T) -> Ordering, a: seq<T>, x: T, k: T)
    requires TotalPreorder(cmp) && a != [] && Sorted(cmp, a) && !Leq(cmp, a[0], x) && Equiv(cmp, x, k)
    ensures Class(cmp, a, k) == []
  {
    assert !Equiv(cmp, a[0], k) by {
      if Equiv(cmp, a[0], k) {
        assert Leq(cmp, a[0], k) && Leq(cmp, k, x);
      }
    }
    if |a| > 1 {
      assert Leq(cmp, a[0], a[1]);
      SortedTail(cmp, a);
      assert !Leq(cmp, a[1], x);
      NoneBelow(cmp, a[1..], x, k);
    }
  }

  lemma {:induction false} MergeClass<T(!new)>(cmp: (T, T) -> Ordering, a: seq<T>, b: seq<T>, k: T)
    requires TotalPreorder(cmp) && Sorted(cmp, a) && Sorted(cmp, b)
    ensures Class(cmp, Merge(cmp, a, b), k) == Class(cmp, a, k) + Class(cmp, b, k)
    decreases |a| + |b|
  {
    if a != [] && b != [] {
      SortedTail(cmp, a);
      SortedTail(cmp, b);
      if Leq(cmp, a[0], b[0]) {
        MergeClass(cmp, a[1..], b, k);
      } else {
        MergeClass(cmp, a, b[1..], k);
        if Equiv(cmp, b[0], k) {
          NoneBelow(cmp, a, b[0], k);
        }
      }
    }
  }

  lemma {:induction false} ClassOfParts<T(!new)>(cmp: (T, T) -> Ordering, merged: seq<T>, rest: seq<T>, a: seq<T>,
                                                 b: seq<T>, c: seq<T>, k: T)
    requires Class(cmp, merged, k) == Class(cmp, a, k) + Class(cmp, b, k) && Class(cmp, rest, k) == Class(cmp, c, k)
    ensures Class(cmp, merged + rest, k) == Class(cmp, a + (b + c), k)
  {
    ClassAppend(cmp, merged, rest, k);
    ClassAppend(cmp, a, b + c, k);
    ClassAppend(cmp, b, c, k);
  }

  lemma {:induction false} PassClass<T(!new)>(cmp: (T, T) -> Ordering, s: seq<T>, width: nat, k: T)
    requires width > 0 && TotalPreorder(cmp) && Runs(cmp, s, width)
    ensures Class(cmp, Pass(cmp, s, width), k) == Class(cmp, s, k)
    decreases |s|
  {
    if s != [] {
      var a, b, c := PassSplit(cmp, s, width);
      RunsTail(cmp, b + c, width);
      MergeClass(cmp, a, b, k);
      PassClass(cmp, c, width, k);
      ClassOfParts(cmp, Merge(cmp, a, b), Pass(cmp, c, width), a, b, c, k);
    }
  }

  lemma {:induction false} SortFromClass<T(!new)>(cmp: (T, T) -> Ordering, s: seq<T>, width: nat, k: T)
    requires width > 0 && TotalPreorder(cmp) && Runs(cmp, s, width)
    ensures Class(cmp, SortFrom(cmp, s, width), k) == Class(cmp, s, k)
    decreases |s| - width
  {
    if width < |s| {
      PassRuns(cmp, s, width);
      PassClass(cmp, s, width, k);
      SortFromClass(cmp, Pass(cmp, s, width), width * 2, k);
    }
  }

  /** The result is sorted, a permutation, and keeps the order of equivalent elements. */
  lemma {:induction false} SortIsStableSort<T(!new)>(cmp: (T, T) -> Ordering, s: seq<T>)
    requires TotalPreorder(cmp)
    ensures Sorted(cmp, Sort(cmp, s))
    ensures multiset(Sort(cmp, s)) == multiset(s)
    ensures forall k :: Class(cmp, Sort(cmp, s), k) == Class(cmp, s, k)
  {
    SingleRuns(cmp, s);
    SortFromSorted(cmp, s, 1);
    SortFromMultiset(cmp, s, 1);
    forall k ensures Class(cmp, Sort(cmp, s), k) == Class(cmp, s, k) {
      SortFromClass(cmp, s, 1, k);
    }
  }

  lemma {:induction false} LeastFirst<T(!new)>(cmp: (T, T) -> Ordering, a: seq<T>, b: seq<T>)
    requires TotalPreorder(cmp) && Sorted(cmp, a) && multiset(a) == multiset(b) && a != [] && b != []
    ensures b[0] in a && Leq(cmp, a[0], b[0])
  {
    assert b[0] in multiset(b);
    var i :| 0 <= i < |a| && a[i] == b[0];
    assert i == 0 || Leq(cmp, a[0], a[i]);
    assert Leq(cmp, a[0], a[0]);
  }

  /** Sorting forgets the input order when no two different elements are equivalent. */
  lemma {:induction false} SortedIsUnique<T(!new)>(cmp: (T, T) -> Ordering, a: seq<T>, b: seq<T>)
    requires TotalPreorder(cmp) && Sorted(cmp, a) && Sorted(cmp, b) && multiset(a) == multiset(b)
    requires forall x, y | x in a && y in a && Equiv(cmp, x, y) :: x == y
    ensures a == b
    decreases |a|
  {
    assert |multiset(a)| == |a| && |multiset(b)| == |b|;
    if a != [] {
      LeastFirst(cmp, a, b);
      LeastFirst(cmp, b, a);
      assert a[0] in a && b[0] in multiset(b) && Equiv(cmp, a[0], b[0]);
      assert a == [a[0]] + a[1..] && b == [b[0]] + b[1..];
      assert a[0] == b[0] by {
        assert b[0] in a;
      }
      assert multiset(a) == multiset{a[0]} + multiset(a[1..]);
      assert multiset(b) == multiset{a[0]} + multiset(b[1..]);
      assert multiset(a[1..]) == multiset(a) - multiset{a[0]} == multiset(b[1..]);
      SortedTail(cmp, a);
      SortedTail(cmp, b);
      SortedIsUnique(cmp, a[1..], b[1..]);
    }
  }

  lemma {:induction false} SortIsOrderIndependent<T(!new)>(cmp: (T, T) -> Ordering, s: seq<T>, t: seq<T>)
    requires TotalPreorder(cmp) && multiset(s) == multiset(t)
    requires forall x, y | x in s && y in s && Equiv(cmp, x, y) :: x == y
    ensures Sort(cmp, s) == Sort(cmp, t)
  {
    SortIsStableSort(cmp, s);
    SortIsStableSort(cmp, t);
    var a := Sort(cmp, s);
    forall x | x in a ensures x in s {
      assert x in multiset(a);
    }
    SortedIsUnique(cmp, a, Sort(cmp, t));
  }

  // ----- try_sort_by_checkpoint -----

  /** Answers of the successive checkpoint calls; `false` is the caller asking to stop. */
  type Checkpoint = nat -> bool

  /** What is merged so far, followed by the merge of what is left, of two runs of `s`. */
  ghost function Outlook<T>(cmp: (T, T) -> Ordering, done: seq<T>, s: seq<T>, left: nat, middle: nat, right: nat,
                            end: nat): seq<T>
    requires left <= middle <= right <= end <= |s|
  {
    done + Merge(cmp, s[left..middle], s[right..end])
  }

  lemma {:induction false} TakeLeft<T>(cmp: (T, T) -> Ordering, done: seq<T>, s: seq<T>, left: nat, middle: nat,
                                       right: nat, end: nat)
    requires left < middle <= right < end <= |s| && Leq(cmp, s[left], s[right])
    ensures Outlook(cmp, done + [s[left]], s, left + 1, middle, right, end)
            == Outlook(cmp, done, s, left, middle, right, end)
  {
    var a, b := s[left..middle], s[right..end];
    assert a[1..] == s[left + 1..middle];
    assert Merge(cmp, a, b) == [a[0]] + Merge(cmp, a[1..], b);
  }

  lemma {:induction false} TakeRight<T>(cmp: (T, T) -> Ordering, done: seq<T>, s: seq<T>, left: nat, middle: nat,
                                        right: nat, end: nat)
    requires left < middle <= right < end <= |s| && !Leq(cmp, s[left], s[right])
    ensures Outlook(cmp, done + [s[right]], s, left, middle, right + 1, end)
            == Outlook(cmp, done, s, left, middle, right, end)
  {
    var a, b := s[left..middle], s[right..end];
    assert b[1..] == s[right + 1..end];
    assert Merge(cmp, a, b) == [b[0]] + Merge(cmp, a, b[1..]);
  }

  method CopyRun<T>(items: array<T>, scratch: array<T>, from: nat, until: nat, output: nat, checkpoint: Checkpoint,
                    calls: nat)
    returns (ok: bool, calls': nat)
    requires items != scratch && scratch.Length == items.Length && from <= until <= items.Length
    requires output + (until - from) <= items.Length
    modifies scratch
    ensures ok ==> scratch[..output + (until - from)] == old(scratch[..output]) + items[from..until]
    ensures (forall n :: checkpoint(n)) ==> ok
  {
    calls' := calls;
    var next := from;
    while next < until
      invariant from <= next <= until
      invariant scratch[..output] == old(scratch[..output])
      invariant scratch[output..output + (next - from)] == items[from..next]
    {
      if !checkpoint(calls') {
        return false, calls' + 1;
      }
      calls' := calls' + 1;
      scratch[output + (next - from)] := items[next];
      next := next + 1;
    }
    ok := true;
  }

  /** Merges two adjacent runs of `items` into the same place of `scratch`. */
  method MergeRuns<T>(items: array<T>, scratch: array<T>, start: nat, middle: nat, end: nat,
                      cmp: (T, T) -> Ordering, checkpoint: Checkpoint, calls: nat)
    returns (ok: bool, calls': nat)
    requires items != scratch && scratch.Length == items.Length && start <= middle <= end <= items.Length
    modifies scratch
    ensures ok ==> scratch[..end] == Outlook(cmp, old(scratch[..start]), items[..], start, middle, middle, end)
    ensures (forall n :: checkpoint(n)) ==> ok
  {
    hide Outlook, Leq;
    calls' := calls;
    var left, right, output := start, middle, start;
    ghost var s, done := items[..], scratch[..start];
    ghost var goal := Outlook(cmp, done, s, start, middle, middle, end);
    while left < middle && right < end
      invariant start <= left <= middle <= right <= end && output == left + right - middle
      invariant scratch[..output] == done && Outlook(cmp, done, s, left, middle, right, end) == goal
    {
      if !checkpoint(calls') {
        return false, calls' + 1;
      }
      calls' := calls' + 1;
      var taken := items[left];
      if Leq(cmp, items[left], items[right]) {
        TakeLeft(cmp, done, s, left, middle, right, end);
        left := left + 1;
      } else {
        taken := items[right];
        TakeRight(cmp, done, s, left, middle, right, end);
        right := right + 1;
      }
      scratch[output] := taken;
      assert scratch[..output + 1] == scratch[..output] + [taken];
      done := done + [taken];
      output := output + 1;
    }
    LastRun(cmp, done, s, left, middle, right, end);
    ok, calls' := CopyRun(items, scratch, left, middle, output, checkpoint, calls');
    if !ok {
      return;
    }
    output := output + (middle - left);
    ok, calls' := CopyRun(items, scratch, right, end, output, checkpoint, calls');
  }

  lemma {:induction false} LastRun<T>(cmp: (T, T) -> Ordering, done: seq<T>, s: seq<T>, left: nat, middle: nat,
                                      right: nat, end: nat)
    requires left <= middle <= right <= end <= |s| && (left == middle || right == end)
    ensures Outlook(cmp, done, s, left, middle, right, end) == done + s[left..middle] + s[right..end]
  {
  }

  lemma {:induction false} SlicesOfRest<T>(s: seq<T>, start: nat, middle: nat, end: nat)
    requires start <= middle <= end <= |s|
    ensures s[start..][..middle - start] == s[start..middle]
    ensures s[start..][middle - start..end - start] == s[middle..end]
    ensures s[start..][end - start..] == s[end..]
  {
  }

  lemma {:induction false} Regroup<T>(a: seq<T>, b: seq<T>, c: seq<T>)
    ensures a + (b + c) == (a + b) + c
  {
  }

  lemma {:induction false} PassAt<T>(cmp: (T, T) -> Ordering, done: seq<T>, s: seq<T>, start: nat, middle: nat,
                                     end: nat, width: nat)
    requires start < |s| && width > 0 && middle == Min(start + width, |s|) && end == Min(middle + width, |s|)
    ensures done + Pass(cmp, s[start..], width)
            == Outlook(cmp, done, s, start, middle, middle, end) + Pass(cmp, s[end..], width)
  {
    hide Pass, Merge;
    PassUnfold(cmp, s[start..], width, middle - start, end - start);
    SlicesOfRest(s, start, middle, end);
    Regroup(done, Merge(cmp, s[start..middle], s[middle..end]), Pass(cmp, s[end..], width));
  }

  method MergeAllRuns<T>(items: array<T>, scratch: array<T>, width: nat, cmp: (T, T) -> Ordering,
                         checkpoint: Checkpoint, calls: nat)
    returns (ok: bool, calls': nat)
    requires items != scratch && scratch.Length == items.Length && width > 0
    modifies scratch
    ensures ok ==> scratch[..] == Pass(cmp, items[..], width)
    ensures (forall n :: checkpoint(n)) ==> ok
  {
    calls' := calls;
    var start := 0;
    ghost var s, done := items[..], [];
    while start < items.Length
      invariant 0 <= start <= items.Length && scratch[..start] == done
      invariant done + Pass(cmp, s[start..], width) == Pass(cmp, s, width)
    {
      if !checkpoint(calls') {
        return false, calls' + 1;
      }
      calls' := calls' + 1;
      var middle := Min(start + width, items.Length);
      var end := Min(middle + width, items.Length);
      PassAt(cmp, done, s, start, middle, end, width);
      ok, calls' := MergeRuns(items, scratch, start, middle, end, cmp, checkpoint, calls');
      if !ok {
        return;
      }
      start, done := end, scratch[..end];
    }
    assert s[start..] == [] && scratch[..start] == scratch[..];
    ok := true;
  }

  /** One pass over all runs, then the copy back. */
  method MergePass<T>(items: array<T>, scratch: array<T>, width: nat, cmp: (T, T) -> Ordering, checkpoint: Checkpoint,
                      calls: nat)
    returns (ok: bool, calls': nat)
    requires items != scratch && scratch.Length == items.Length && width > 0
    modifies items, scratch
    ensures ok ==> items[..] == Pass(cmp, old(items[..]), width)
    ensures (forall n :: checkpoint(n)) ==> ok
  {
    ok, calls' := MergeAllRuns(items, scratch, width, cmp, checkpoint, calls);
    if ok {
      ok, calls' := CopyRun(scratch, items, 0, items.Length, 0, checkpoint, calls');
      assert items[..items.Length] == items[..] && scratch[0..items.Length] == scratch[..];
    }
  }

  /** On success the array holds its sorted content; a stopped sort promises nothing about the array. */
  method TrySort<T>(items: array<T>, cmp: (T, T) -> Ordering, checkpoint: Checkpoint)
    returns (r: Result<(), PithosError>)
    modifies items
    ensures r.Success? ==> items[..] == Sort(cmp, old(items[..]))
    ensures r.Failure? ==> r.error == Cancelled
    ensures (forall n :: checkpoint(n)) ==> r.Success?
  {
    if items.Length < 2 {
      return if checkpoint(0) then Success(()) else Failure(Cancelled);
    }
    var calls := 1;
    if !checkpoint(0) {
      return Failure(Cancelled);
    }
    var scratch := new T[items.Length](i requires 0 <= i < items.Length reads items => items[i]);
    for i := 0 to items.Length
      invariant items[..] == old(items[..])
    {
      if !checkpoint(calls) {
        return Failure(Cancelled);
      }
      calls := calls + 1;
    }
    var width := 1;
    while width < items.Length
      invariant width > 0
      invariant SortFrom(cmp, items[..], width) == Sort(cmp, old(items[..]))
      decreases items.Length - width
    {
      var ok;
      ok, calls := MergePass(items, scratch, width, cmp, checkpoint, calls);
      if !ok {
        return Failure(Cancelled);
      }
      width := width * 2;
    }
    return Success(());
  }

  /** Sorting an owned list under a checkpoint that never stops. */
  method SortList<T>(list: seq<T>, cmp: (T, T) -> Ordering) returns (sorted: seq<T>)
    ensures sorted == Sort(cmp, list)
  {
    var items := new T[|list|](i requires 0 <= i < |list| => list[i]);
    assert items[..] == list;
    var r := TrySort(items, cmp, n => true);
    sorted := items[..];
  }
}
