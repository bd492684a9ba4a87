/** Time series: samples in whole seconds, and what it means to look one up by time. */
module Series {
  import opened Wrappers

  datatype Sample = Sample(timestamp: int, value: real)

  /** A metric's labels. The rendered metric string that keys result maps is identified with them. */
  type Labels = map<string, string>

  datatype TimeSeries = TimeSeries(labels: Labels, samples: seq<Sample>)

  ghost predicate Sorted(s: seq<Sample>) {
    forall i, j :: 0 <= i < j < |s| ==> s[i].timestamp <= s[j].timestamp
  }

  ghost predicate StrictlyIncreasing(s: seq<Sample>) {
    forall i, j :: 0 <= i < j < |s| ==> s[i].timestamp < s[j].timestamp
  }

  /** The first value recorded at time t. */
  function Lookup(s: seq<Sample>, t: int): Option<real> {
    if s == [] then None
    else if s[0].timestamp == t then Some(s[0].value)
    else Lookup(s[1..], t)
  }

  lemma {:induction false} LookupFinds(s: seq<Sample>, t: int)
    ensures Lookup(s, t).Some? ==> Sample(t, Lookup(s, t).value) in s
    ensures Lookup(s, t).Some? <==> exists i :: 0 <= i < |s| && s[i].timestamp == t
  {
    if s != [] && s[0].timestamp != t {
      LookupFinds(s[1..], t);
      assert forall i :: 0 < i < |s| ==> s[i] == s[1..][i - 1];
    }
  }

  lemma {:induction false} LookupOfMember(s: seq<Sample>, x: Sample)
    requires StrictlyIncreasing(s)
    ensures x in s <==> Lookup(s, x.timestamp) == Some(x.value)
  {
    LookupFinds(s, x.timestamp);
    if x in s && s[0] != x {
      assert x in s[1..];
      LookupOfMember(s[1..], x);
    }
  }

  lemma {:induction false} LookupAppend(s: seq<Sample>, x: Sample, t: int)
    ensures Lookup(s + [x], t) == OrElse(Lookup(s, t), if x.timestamp == t then Some(x.value) else None)
  {
    if s != [] {
      assert (s + [x])[1..] == s[1..] + [x];
      LookupAppend(s[1..], x, t);
    }
  }

  /** A strictly increasing series is determined by what it answers at each time. */
  lemma {:induction false} DeterminedByLookup(a: seq<Sample>, b: seq<Sample>)
    requires StrictlyIncreasing(a) && StrictlyIncreasing(b)
    requires forall t :: Lookup(a, t) == Lookup(b, t)
    ensures a == b
  {
    if a == [] {
      if b != [] {
        LookupFinds(a, b[0].timestamp);
      }
    } else if b == [] {
      LookupFinds(b, a[0].timestamp);
    } else {
      LookupFinds(b, a[0].timestamp);
      LookupFinds(a, b[0].timestamp);
      assert Lookup(a, a[0].timestamp) == Some(a[0].value) && Lookup(b, b[0].timestamp) == Some(b[0].value);
      assert a[0] == b[0];
      forall t
        ensures Lookup(a[1..], t) == Lookup(b[1..], t)
      {
        LookupFinds(a[1..], t);
        LookupFinds(b[1..], t);
        assert Lookup(a, t) == Lookup(b, t);
      }
      DeterminedByLookup(a[1..], b[1..]);
    }
  }
}
