/**
 * Set operations on string lists (strings.go): difference, intersection and
 * union, each built with a map used as a set and a result slice that grows
 * by append.
 */
module StringSets {

  /** The elements of a list, as a set. */
  function Elems(s: seq<string>): set<string>
  {
    set x | x in s
  }

  /**
   * The elements of s, in order and with their repetitions, whose membership
   * in keys equals keep: keep == false gives the difference, keep == true the
   * intersection.
   */
  function Select(s: seq<string>, keys: set<string>, keep: bool): (r: seq<string>)
    ensures |r| <= |s|
  {
    if s == [] then []
    else Select(s[..|s| - 1], keys, keep) + (if (s[|s| - 1] in keys) == keep then [s[|s| - 1]] else [])
  }

  /**
   * Select keeps exactly the chosen elements with their full multiplicity:
   * an element occurs in the result as often as in s when chosen, and not at all otherwise.
   */
  lemma {:induction false} SelectCounts(s: seq<string>, keys: set<string>, keep: bool, x: string)
    ensures multiset(Select(s, keys, keep))[x] == if (x in keys) == keep then multiset(s)[x] else 0
  {
    if s != [] {
      var init := s[..|s| - 1];
      assert s == init + [s[|s| - 1]];
      SelectCounts(init, keys, keep, x);
    }
  }

  /** An element is in the result exactly when it is in s and its membership in keys equals keep. */
  lemma SelectMembers(s: seq<string>, keys: set<string>, keep: bool, x: string)
    ensures x in Select(s, keys, keep) <==> x in s && (x in keys) == keep
  {
    SelectCounts(s, keys, keep, x);
    assert x in Select(s, keys, keep) <==> multiset(Select(s, keys, keep))[x] > 0;
    assert x in s <==> multiset(s)[x] > 0;
  }

  /** Difference and intersection split s: every element lands in exactly one of them. */
  lemma {:induction false} SelectComplement(s: seq<string>, keys: set<string>)
    ensures multiset(Select(s, keys, false)) + multiset(Select(s, keys, true)) == multiset(s)
    ensures |Select(s, keys, false)| + |Select(s, keys, true)| == |s|
  {
    if s != [] {
      var init := s[..|s| - 1];
      assert s == init + [s[|s| - 1]];
      SelectComplement(init, keys);
    }
  }

  /** The difference of s1 and s2 shares no element with s2. */
  lemma MinusDisjoint(s1: seq<string>, s2: seq<string>)
    ensures Elems(Select(s1, Elems(s2), false)) !! Elems(s2)
  {
    forall x | x in Select(s1, Elems(s2), false)
      ensures x !in s2
    {
      SelectMembers(s1, Elems(s2), false, x);
    }
  }

  /** Intersect keeps duplicates of s1, although its comment promises to remove them. */
  lemma IntersectKeepsDuplicates()
    ensures Select(["a", "a"], Elems(["a"]), true) == ["a", "a"]
  {
    assert "a" in Elems(["a"]);
    assert ["a", "a"][..1] == ["a"];
  }

  /** Fill a map with every element of s as a key (the first loop of each function). */
  method KeysOf(s: seq<string>) returns (smap: map<string, int>)
    ensures smap.Keys == Elems(s)
  {
    smap := map[];
    for j := 0 to |s|
      invariant smap.Keys == Elems(s[..j])
    {
      assert s[..j + 1] == s[..j] + [s[j]];
      smap := smap[s[j] := 0];
    }
    assert s[..|s|] == s;
  }

  /** StringsMinus: the elements of s1 that are not in s2, in order, duplicates kept. */
  method StringsMinus(s1: seq<string>, s2: seq<string>) returns (s: seq<string>)
    ensures s == Select(s1, Elems(s2), false)
  {
    var smap := KeysOf(s2);
    s := [];
    for i := 0 to |s1|
      invariant s == Select(s1[..i], smap.Keys, false)
    {
      assert s1[..i + 1][..i] == s1[..i];
      if s1[i] !in smap {
        s := s + [s1[i]];
      }
    }
    assert s1[..|s1|] == s1;
  }

  /** StringsIntersect: the elements of s1 that are in s2, in order, duplicates kept. */
  method StringsIntersect(s1: seq<string>, s2: seq<string>) returns (s: seq<string>)
    ensures s == Select(s1, Elems(s2), true)
  {
    var smap := KeysOf(s2);
    s := [];
    for i := 0 to |s1|
      invariant s == Select(s1[..i], smap.Keys, true)
    {
      assert s1[..i + 1][..i] == s1[..i];
      if s1[i] in smap {
        s := s + [s1[i]];
      }
    }
    assert s1[..|s1|] == s1;
  }

  /** No element occurs twice. */
  predicate NoDuplicates(s: seq<string>)
  {
    forall i, j :: 0 <= i < j < |s| ==> s[i] != s[j]
  }

  /** A list without repetitions has as many elements as its set. */
  lemma {:induction false} DistinctCard(s: seq<string>)
    requires NoDuplicates(s)
    ensures |Elems(s)| == |s|
  {
    if s != [] {
      var init := s[..|s| - 1];
      assert Elems(s) == Elems(init) + {s[|s| - 1]};
      assert s[|s| - 1] !in Elems(init);
      DistinctCard(init);
    }
  }

  /** Emit the keys of a map one at a time, in an order the model leaves open. */
  method ListKeys(keys: set<string>) returns (s: seq<string>)
    ensures Elems(s) == keys && NoDuplicates(s) && |s| == |keys|
  {
    s := [];
    var rest := keys;
    while rest != {}
      invariant Elems(s) + rest == keys && Elems(s) !! rest
      invariant NoDuplicates(s)
      decreases |rest|
    {
      var k :| k in rest;
      s := s + [k];
      rest := rest - {k};
    }
    DistinctCard(s);
  }

  /**
   * StringsUnion: every element of s1 or s2 exactly once. The source emits
   * the keys of a Go map, whose iteration order is unspecified; the model
   * picks the next key arbitrarily, so nothing is promised about order.
   */
  method StringsUnion(s1: seq<string>, s2: seq<string>) returns (s: seq<string>)
    ensures Elems(s) == Elems(s1) + Elems(s2)
    ensures NoDuplicates(s)
    ensures |s| == |Elems(s1) + Elems(s2)|
  {
    var smap := KeysOf(s2);
    for i := 0 to |s1|
      invariant smap.Keys == Elems(s2) + Elems(s1[..i])
    {
      assert s1[..i + 1] == s1[..i] + [s1[i]];
      if s1[i] !in smap {
        smap := smap[s1[i] := 0];
      }
    }
    assert s1[..|s1|] == s1;
    s := ListKeys(smap.Keys);
  }
}
