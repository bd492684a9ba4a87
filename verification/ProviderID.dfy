/** Instance ids out of provider ids such as qcloud:///800005/ins-2jv4wpmr
    (ParseID, pkg/cloudproviders/qcloud/price_cache.go). */
module ProviderID {
  import opened Wrappers
  import opened Text

  const SCHEME := "qcloud:///"

  /** A match of qcloud:///([^/]+)/([^/]+) at the start of s: its second group. */
  function MatchAt(s: string): Option<string> {
    if !(SCHEME <= s) then None
    else
      var rest := s[|SCHEME|..];
      var slash := IndexOf(rest, '/');
      if slash == 0 || slash == |rest| then None
      else
        var tail := rest[slash + 1..];
        var end := IndexOf(tail, '/');
        if end == 0 then None else Some(tail[..end])
  }

  /** The leftmost match. */
  function Find(s: string): Option<string> {
    if MatchAt(s).Some? then MatchAt(s) else if s == "" then None else Find(s[1..])
  }

  function ParseID(id: string): string {
    Find(id).GetOr(id)
  }

  lemma {:induction false} FoundIsABareName(s: string)
    ensures Find(s).Some? ==> Find(s).value != "" && '/' !in Find(s).value
  {
    if MatchAt(s).None? && s != "" {
      FoundIsABareName(s[1..]);
    }
  }

  lemma {:induction false} NothingWithoutASlash(s: string)
    requires '/' !in s
    ensures Find(s) == None
  {
    assert SCHEME[7] == '/';
    assert !(SCHEME <= s);
    if s != "" {
      NothingWithoutASlash(s[1..]);
    }
  }

  lemma FirstSlash(a: string, b: string)
    requires '/' !in a
    ensures IndexOf(a + "/" + b, '/') == |a| && (a + "/" + b)[|a| + 1..] == b
    ensures IndexOf(a, '/') == |a|
  {
    hide IndexOf;
    var s := a + "/" + b;
    assert s[|a|] == '/';
    assert forall i :: 0 <= i < |a| ==> s[i] == a[i];
  }

  /** The id that was put in comes out; a parsed id parses to itself; only the empty id parses to the empty one. */
  lemma ParsedIDs(zone: string, instance: string, id: string)
    ensures zone != "" && instance != "" && '/' !in zone && '/' !in instance ==>
              ParseID(SCHEME + zone + "/" + instance) == instance
    ensures ParseID(ParseID(id)) == ParseID(id)
    ensures ParseID(id) == "" <==> id == ""
  {
    hide IndexOf;
    FoundIsABareName(id);
    if Find(id).Some? {
      NothingWithoutASlash(Find(id).value);
    }
    if zone != "" && instance != "" && '/' !in zone && '/' !in instance {
      var s := SCHEME + zone + "/" + instance;
      assert s == SCHEME + (zone + "/" + instance);
      assert s[|SCHEME|..] == zone + "/" + instance;
      FirstSlash(zone, instance);
      FirstSlash(instance, "");
      assert instance[..|instance|] == instance;
      assert MatchAt(s) == Some(instance);
    }
  }

  // ---- Exactly which part of a provider id is the instance id ----

  /** s begins with qcloud:///, a zone, a slash and an id, both as long as they can be. */
  ghost predicate Begins(s: string, zone: string, id: string, rest: string) {
    && s == "qcloud:///" + (zone + "/" + (id + rest))
    && zone != "" && '/' !in zone && id != "" && '/' !in id && (rest == "" || rest[0] == '/')
  }

  ghost predicate NamesInstance(s: string, id: string) {
    exists zone, rest :: Begins(s, zone, id, rest)
  }

  lemma MatchAtExactlyWhen(s: string, id: string)
    ensures MatchAt(s) == Some(id) <==> NamesInstance(s, id)
  {
    if MatchAt(s) == Some(id) {
      MatchBegins(s, id);
    }
    if NamesInstance(s, id) {
      var zone, rest :| Begins(s, zone, id, rest);
      BeginsMatches(s, zone, id, rest);
    }
  }

  lemma MatchBegins(s: string, id: string)
    requires MatchAt(s) == Some(id)
    ensures NamesInstance(s, id)
  {
    hide IndexOf;
    var after := s[|SCHEME|..];
    assert s == SCHEME + after;
    var slash := IndexOf(after, '/');
    var tail := after[slash + 1..];
    var end := IndexOf(tail, '/');
    BeginsAt(s, after, slash, tail, end);
  }

  lemma BeginsAt(s: string, after: string, slash: nat, tail: string, end: nat)
    requires s == SCHEME + after
    requires 0 < slash < |after| && after[slash] == '/' && tail == after[slash + 1..] && '/' !in after[..slash]
    requires 0 < end <= |tail| && (end < |tail| ==> tail[end] == '/') && '/' !in tail[..end]
    ensures NamesInstance(s, tail[..end])
  {
    var zone, id, rest := after[..slash], tail[..end], tail[end..];
    CutAt(after, slash);
    assert tail == id + rest;
    assert after == zone + "/" + (id + rest);
    assert Begins(s, zone, id, rest);
  }

  lemma CutAt(s: string, i: nat)
    requires i < |s| && s[i] == '/'
    ensures s == s[..i] + "/" + s[i + 1..]
  {
  }

  lemma NoSlash(id: string, rest: string)
    requires '/' !in id && (rest == "" || rest[0] == '/')
    ensures IndexOf(id + rest, '/') == |id| && (id + rest)[..|id|] == id
  {
    hide IndexOf;
    if rest == "" {
      assert id + rest == id;
      FirstSlash(id, "");
    } else {
      assert id + rest == id + "/" + rest[1..];
      FirstSlash(id, rest[1..]);
    }
  }

  lemma BeginsMatches(s: string, zone: string, id: string, rest: string)
    requires Begins(s, zone, id, rest)
    ensures MatchAt(s) == Some(id)
  {
    hide IndexOf;
    var after := zone + "/" + (id + rest);
    assert s == SCHEME + after;
    assert s[|SCHEME|..] == after;
    FirstSlash(zone, id + rest);
    NoSlash(id, rest);
  }

  /** The id named at the first place in s where one is named. */
  ghost predicate FirstNamed(s: string, i: nat, id: string) {
    && i <= |s| && NamesInstance(s[i..], id)
    && forall j, other :: 0 <= j < i ==> !NamesInstance(s[j..], other)
  }

  lemma {:induction false} FindExactlyWhen(s: string, id: string)
    ensures Find(s) == Some(id) <==> exists i: nat :: FirstNamed(s, i, id)
  {
    hide MatchAt, NamesInstance;
    assert s[0..] == s;
    forall x
      ensures MatchAt(s) == Some(x) <==> NamesInstance(s, x)
    {
      MatchAtExactlyWhen(s, x);
    }
    if MatchAt(s).Some? {
      if NamesInstance(s, id) {
        assert FirstNamed(s, 0, id);
      }
      assert NamesInstance(s[0..], MatchAt(s).value);
    } else if s != "" {
      FindExactlyWhen(s[1..], id);
      assert forall j :: 0 < j <= |s| ==> s[1..][j - 1..] == s[j..];
      if i: nat :| FirstNamed(s[1..], i, id) {
        assert s[1..][i..] == s[i + 1..];
        forall j, other | 0 <= j < i + 1
          ensures !NamesInstance(s[j..], other)
        {
          if j > 0 {
            assert s[1..][j - 1..] == s[j..];
          }
        }
        assert FirstNamed(s, i + 1, id);
      }
      if i: nat :| FirstNamed(s, i, id) {
        assert i > 0 && s[1..][i - 1..] == s[i..];
        forall j, other | 0 <= j < i - 1
          ensures !NamesInstance(s[1..][j..], other)
        {
          assert s[1..][j..] == s[j + 1..];
        }
        assert FirstNamed(s[1..], i - 1, id);
      }
    }
  }

  /** The id of an instance is the first one that the provider id names, wherever in it, or else all of it. */
  lemma ParseIDExactlyWhen(s: string, id: string)
    ensures ParseID(s) == id <==>
            (exists i: nat :: FirstNamed(s, i, id)) || (id == s && forall i: nat, x :: !FirstNamed(s, i, x))
  {
    hide Find, FirstNamed;
    FindExactlyWhen(s, id);
    if Find(s).Some? {
      FindExactlyWhen(s, Find(s).value);
    } else {
      forall i: nat, x
        ensures !FirstNamed(s, i, x)
      {
        FindExactlyWhen(s, x);
      }
    }
  }
}
