/** Merging two time-sorted series and dropping repeated timestamps (pkg/datasource-providers/prom/ctx.go). */
module Merge {
  import opened Wrappers
  import opened Series

  /** Append unless the last sample kept has the same timestamp. */
  function Push(kept: seq<Sample>, x: Sample): seq<Sample> {
    if kept != [] && kept[|kept| - 1].timestamp == x.timestamp then kept else kept + [x]
  }

  /** Push every sample of a and b, smaller head first, a's head on a tie. */
  function MergeInto(kept: seq<Sample>, a: seq<Sample>, b: seq<Sample>): seq<Sample>
    decreases |a| + |b|
  {
    if a == [] && b == [] then kept
    else if b == [] || (a != [] && a[0].timestamp <= b[0].timestamp) then MergeInto(Push(kept, a[0]), a[1..], b)
    else MergeInto(Push(kept, b[0]), a, b[1..])
  }

  function Merged(a: seq<Sample>, b: seq<Sample>): seq<Sample> {
    MergeInto([], a, b)
  }

  lemma TakeFirst(kept: seq<Sample>, a: seq<Sample>, b: seq<Sample>, i: nat, j: nat)
    requires i < |a| && j <= |b|
    requires j == |b| || a[i].timestamp <= b[j].timestamp
    ensures MergeInto(kept, a[i..], b[j..]) == MergeInto(Push(kept, a[i]), a[i + 1..], b[j..])
  {
    assert a[i..][1..] == a[i + 1..];
  }

  lemma TakeSecond(kept: seq<Sample>, a: seq<Sample>, b: seq<Sample>, i: nat, j: nat)
    requires i <= |a| && j < |b|
    requires i == |a| || b[j].timestamp < a[i].timestamp
    ensures MergeInto(kept, a[i..], b[j..]) == MergeInto(Push(kept, b[j]), a[i..], b[j + 1..])
  {
    assert b[j..][1..] == b[j + 1..];
  }

  lemma NothingLeft(kept: seq<Sample>, a: seq<Sample>, b: seq<Sample>)
    ensures MergeInto(kept, a[|a|..], b[|b|..]) == kept
  {
  }

  /** The loops of the program: two inner runs per turn of the outer loop, then the two leftovers. */
  method MergeSortedTimeSeries(ts1: TimeSeries, ts2: TimeSeries) returns (ts: TimeSeries)
    ensures ts == TimeSeries(ts1.labels, Merged(ts1.samples, ts2.samples))
  {
    hide MergeInto;
    var a, b := ts1.samples, ts2.samples;
    var samples: seq<Sample> := [];
    var i, j, k := 0, 0, 0;
    while i < |a| && j < |b|
      invariant 0 <= i <= |a| && 0 <= j <= |b| && k == |samples|
      invariant MergeInto(samples, a[i..], b[j..]) == Merged(a, b)
      decreases |a| - i + |b| - j
    {
      ghost var i0, j0 := i, j;
      while i < |a| && j < |b| && a[i].timestamp <= b[j].timestamp
        invariant i0 <= i <= |a| && k == |samples|
        invariant MergeInto(samples, a[i..], b[j..]) == Merged(a, b)
      {
        TakeFirst(samples, a, b, i, j);
        if !(|samples| > 0 && samples[k - 1].timestamp == a[i].timestamp) {
          samples := samples + [a[i]];
          k := k + 1;
        }
        i := i + 1;
      }
      while i < |a| && j < |b| && b[j].timestamp < a[i].timestamp
        invariant j0 <= j <= |b| && k == |samples|
        invariant MergeInto(samples, a[i..], b[j..]) == Merged(a, b)
      {
        TakeSecond(samples, a, b, i, j);
        if !(|samples| > 0 && samples[k - 1].timestamp == b[j].timestamp) {
          samples := samples + [b[j]];
          k := k + 1;
        }
        j := j + 1;
      }
    }
    while i < |a|
      invariant 0 <= i <= |a| && k == |samples| && (i < |a| ==> j == |b|)
      invariant MergeInto(samples, a[i..], b[j..]) == Merged(a, b)
    {
      TakeFirst(samples, a, b, i, j);
      if !(|samples| > 0 && samples[k - 1].timestamp == a[i].timestamp) {
        samples := samples + [a[i]];
        k := k + 1;
      }
      i := i + 1;
    }
    while j < |b|
      invariant 0 <= j <= |b| && k == |samples|
      invariant MergeInto(samples, a[i..], b[j..]) == Merged(a, b)
    {
      TakeSecond(samples, a, b, i, j);
      if !(|samples| > 0 && samples[k - 1].timestamp == b[j].timestamp) {
        samples := samples + [b[j]];
        k := k + 1;
      }
      j := j + 1;
    }
    NothingLeft(samples, a, b);
    ts := TimeSeries(ts1.labels, samples);
  }

  ghost predicate NotAfter(kept: seq<Sample>, s: seq<Sample>) {
    kept != [] && s != [] ==> kept[|kept| - 1].timestamp <= s[0].timestamp
  }

  lemma PushKeepsOrder(kept: seq<Sample>, x: Sample, t: int)
    requires StrictlyIncreasing(kept)
    requires kept != [] ==> kept[|kept| - 1].timestamp <= x.timestamp
    ensures StrictlyIncreasing(Push(kept, x))
    ensures Lookup(Push(kept, x), t) == OrElse(Lookup(kept, t), Lookup([x], t))
  {
    LookupAppend(kept, x, t);
    LookupFinds(kept, t);
  }

  lemma HeadFirst(s: seq<Sample>, t: int)
    requires Sorted(s) && s != []
    ensures Lookup(s, t) == OrElse(Lookup([s[0]], t), Lookup(s[1..], t))
    ensures Sorted(s[1..]) && forall kept: seq<Sample> :: kept != [] && kept[|kept| - 1].timestamp <= s[0].timestamp ==> NotAfter(kept, s[1..])
  {
  }

  lemma NotAtAnEarlierTime(s: seq<Sample>, t: int)
    requires Sorted(s) && (s != [] ==> t < s[0].timestamp)
    ensures Lookup(s, t) == None
  {
    LookupFinds(s, t);
  }

  lemma LastPushed(kept: seq<Sample>, x: Sample)
    ensures Push(kept, x) != [] && Push(kept, x)[|Push(kept, x)| - 1].timestamp == x.timestamp
  {
  }

  lemma {:induction false} MergeIntoMeaning(kept: seq<Sample>, a: seq<Sample>, b: seq<Sample>, t: int)
    requires StrictlyIncreasing(kept) && Sorted(a) && Sorted(b)
    requires NotAfter(kept, a) && NotAfter(kept, b)
    ensures StrictlyIncreasing(MergeInto(kept, a, b))
    ensures Lookup(MergeInto(kept, a, b), t) == OrElse(Lookup(kept, t), OrElse(Lookup(a, t), Lookup(b, t)))
    decreases |a| + |b|
  {
    if a == [] && b == [] {
    } else if b == [] || (a != [] && a[0].timestamp <= b[0].timestamp) {
      hide Lookup, Push, StrictlyIncreasing, Sorted;
      PushKeepsOrder(kept, a[0], t);
      LastPushed(kept, a[0]);
      HeadFirst(a, t);
      MergeIntoMeaning(Push(kept, a[0]), a[1..], b, t);
    } else {
      LookupOfOne(b[0], t);
      hide Lookup, Push, StrictlyIncreasing, Sorted;
      PushKeepsOrder(kept, b[0], t);
      LastPushed(kept, b[0]);
      HeadFirst(b, t);
      MergeIntoMeaning(Push(kept, b[0]), a, b[1..], t);
      if t == b[0].timestamp {
        NotAtAnEarlierTime(a, t);
      }
    }
  }

  lemma LookupOfOne(x: Sample, t: int)
    ensures Lookup([x], t) == if x.timestamp == t then Some(x.value) else None
  {
  }

  ghost predicate UnionPreferringFirst(r: seq<Sample>, a: seq<Sample>, b: seq<Sample>) {
    && StrictlyIncreasing(r)
    && forall t :: Lookup(r, t) == OrElse(Lookup(a, t), Lookup(b, t))
  }

  /** On time-sorted inputs, repeats allowed, the merge is strictly increasing, and at every time it answers with
      the first occurrence in the first input, or else the first in the second. */
  lemma MergeMeaning(a: seq<Sample>, b: seq<Sample>)
    requires Sorted(a) && Sorted(b)
    ensures UnionPreferringFirst(Merged(a, b), a, b)
  {
    MergeIntoMeaning([], a, b, 0);
    forall t
      ensures Lookup(Merged(a, b), t) == OrElse(Lookup(a, t), Lookup(b, t))
    {
      MergeIntoMeaning([], a, b, t);
    }
  }

  ghost function Times(s: seq<Sample>): set<int> {
    set x | x in s :: x.timestamp
  }

  /** The merged timestamps are the union of the two inputs' timestamps, and the meaning above fixes the result. */
  lemma MergeIsTheOnlyUnion(a: seq<Sample>, b: seq<Sample>, r: seq<Sample>)
    requires Sorted(a) && Sorted(b)
    ensures Times(Merged(a, b)) == Times(a) + Times(b)
    ensures r == Merged(a, b) <==> UnionPreferringFirst(r, a, b)
  {
    MergeMeaning(a, b);
    var m := Merged(a, b);
    forall t
      ensures t in Times(m) <==> t in Times(a) + Times(b)
    {
      TimesAreAnswered(m, t);
      TimesAreAnswered(a, t);
      TimesAreAnswered(b, t);
    }
    if UnionPreferringFirst(r, a, b) {
      DeterminedByLookup(r, m);
    }
  }

  lemma TimesAreAnswered(s: seq<Sample>, t: int)
    ensures t in Times(s) <==> Lookup(s, t).Some?
  {
    LookupFinds(s, t);
    if Lookup(s, t).Some? {
      assert Sample(t, Lookup(s, t).value).timestamp in Times(s);
    }
  }
}
