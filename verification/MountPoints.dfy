/** Mount points: a list sorted on demand, scanned for the mount point of a path. */
module MountPoints {
  import opened Wrappers
  import opened PathOrder


  /** A mount point; the factory is only an identity here. */
  datatype Item = Item(path: string, factory: nat)

  predicate Sorted(s: seq<Item>) {
    forall i, j :: 0 <= i < j < |s| ==> StrCmp(s[i].path, s[j].path) <= 0
  }

  predicate DistinctPaths(s: seq<Item>) {
    forall i, j :: 0 <= i < j < |s| ==> s[i].path != s[j].path
  }

  // ---------- sorting ----------

  function Insert(x: Item, s: seq<Item>): seq<Item> {
    if s == [] || StrCmp(x.path, s[0].path) <= 0 then [x] + s else [s[0]] + Insert(x, s[1..])
  }

  /** The stable sort of the list by path. */
  function Sort(s: seq<Item>): seq<Item> {
    if s == [] then [] else Insert(s[0], Sort(s[1..]))
  }

  lemma {:induction false} InsertAdds(x: Item, s: seq<Item>)
    ensures multiset(Insert(x, s)) == multiset{x} + multiset(s)
  {
    if s != [] {
      InsertAdds(x, s[1..]);
      assert s == [s[0]] + s[1..];
    }
  }

  lemma PrependSorted(x: Item, s: seq<Item>)
    requires Sorted(s) && forall y :: y in s ==> StrCmp(x.path, y.path) <= 0
    ensures Sorted([x] + s)
  {
  }

  lemma {:induction false} InsertSorts(x: Item, s: seq<Item>)
    requires Sorted(s)
    ensures Sorted(Insert(x, s))
  {
    if s != [] {
      StrCmpEqual(x.path, s[0].path);
      if StrCmp(x.path, s[0].path) <= 0 {
        forall y | y in s ensures StrCmp(x.path, y.path) <= 0 {
          HeadIsLeast(s, y);
          StrCmpTransitive(x.path, s[0].path, y.path);
        }
        PrependSorted(x, s);
      } else {
        InsertSorts(x, s[1..]);
        var t := Insert(x, s[1..]);
        InsertAdds(x, s[1..]);
        forall y | y in t ensures StrCmp(s[0].path, y.path) <= 0 {
          assert y in multiset(t);
          assert y == x || y in s;
          if y in s { HeadIsLeast(s, y); }
        }
        PrependSorted(s[0], t);
      }
    }
  }

  lemma {:induction false} SortSorts(s: seq<Item>)
    ensures Sorted(Sort(s)) && multiset(Sort(s)) == multiset(s)
  {
    if s != [] {
      SortSorts(s[1..]);
      InsertSorts(s[0], Sort(s[1..]));
      InsertAdds(s[0], Sort(s[1..]));
      assert s == [s[0]] + s[1..];
    }
  }

  lemma TailMultiset(s: seq<Item>)
    requires s != []
    ensures multiset(s[1..]) == multiset(s) - multiset{s[0]}
  {
    assert s == [s[0]] + s[1..];
  }

  lemma SameHead(s: seq<Item>, t: seq<Item>)
    requires Sorted(s) && Sorted(t) && multiset(s) == multiset(t) && DistinctPaths(s) && s != []
    ensures t != [] && s[0] == t[0]
  {
    assert s[0] in multiset(t);
    assert t[0] in multiset(s);
    HeadIsLeast(s, t[0]);
    HeadIsLeast(t, s[0]);
    StrCmpEqual(s[0].path, t[0].path);
  }

  /** With distinct paths the sorted list depends on the entries only, not on the order
      in which they were added. */
  lemma {:induction false} SameMultisetSameSorted(s: seq<Item>, t: seq<Item>)
    requires Sorted(s) && Sorted(t) && multiset(s) == multiset(t)
    requires DistinctPaths(s)
    ensures s == t
  {
    if s == [] {
      assert |multiset(t)| == 0;
    } else {
      SameHead(s, t);
      TailMultiset(s);
      TailMultiset(t);
      SameMultisetSameSorted(s[1..], t[1..]);
      assert s == [s[0]] + s[1..] && t == [t[0]] + t[1..];
    }
  }

  lemma HeadIsLeast(s: seq<Item>, x: Item)
    requires Sorted(s) && x in s
    ensures StrCmp(s[0].path, x.path) <= 0
  {
    StrCmpEqual(s[0].path, s[0].path);
  }

  // ---------- the match ----------

  predicate Matches(s: seq<Item>, path: string, i: int) {
    0 <= i < |s| && HasPrefix(path, s[i].path)
  }

  /** The first consecutive run of segment-prefixes of the path goes from a to b. */
  ghost predicate FirstRun(s: seq<Item>, path: string, a: int, b: int) {
    && 0 <= a <= b < |s|
    && (forall i :: 0 <= i < a ==> !Matches(s, path, i))
    && (forall i :: a <= i <= b ==> Matches(s, path, i))
    && !Matches(s, path, b + 1)
  }

  ghost predicate EndsFirstRun(s: seq<Item>, path: string, b: int) {
    exists a :: FirstRun(s, path, a, b)
  }

  /** b is a longest segment-prefix of the path in the whole list. */
  ghost predicate IsLongest(s: seq<Item>, path: string, b: int) {
    && Matches(s, path, b)
    && forall i :: Matches(s, path, i) ==> |s[i].path| <= |s[b].path|
  }

  /** y lies, in path order, between two segment-prefixes of the path. */
  ghost predicate Between(path: string, x: Item, y: Item, z: Item) {
    && HasPrefix(path, x.path) && HasPrefix(path, z.path)
    && StrCmp(x.path, y.path) < 0 && StrCmp(y.path, z.path) < 0
  }

  /** Whatever lies between two prefixes of the path is a prefix of it as well. */
  ghost predicate NoGap(s: seq<Item>, path: string) {
    forall x, y, z :: x in s && y in s && z in s && Between(path, x, y, z) ==> HasPrefix(path, y.path)
  }

  lemma SortedStrictly(s: seq<Item>, i: int, j: int)
    requires Sorted(s) && DistinctPaths(s) && 0 <= i < |s| && 0 <= j < |s|
    ensures i < j <==> StrCmp(s[i].path, s[j].path) < 0
  {
    StrCmpEqual(s[i].path, s[j].path);
    StrCmpEqual(s[j].path, s[i].path);
    if i < j {
      assert s[i].path != s[j].path;
    } else if j < i {
      assert s[j].path != s[i].path;
    }
  }

  /** Among the prefixes of one path, later in the sorted list means longer. */
  lemma LaterIsLonger(s: seq<Item>, path: string, i: int, j: int)
    requires Sorted(s) && DistinctPaths(s) && Matches(s, path, i) && Matches(s, path, j)
    ensures i < j <==> |s[i].path| < |s[j].path|
  {
    SortedStrictly(s, i, j);
    PrefixesOfOnePath(path, s[i].path, s[j].path);
    PrefixesOfOnePath(path, s[j].path, s[i].path);
    StrCmpEqual(s[i].path, s[j].path);
    if i != j {
      assert s[i].path != s[j].path;
    }
  }

  /** The scan finds the longest match exactly when no other entry lies between the
      prefixes of the path. */
  lemma ScanIsLongestIffNoGap(s: seq<Item>, path: string, b: int)
    requires Sorted(s) && DistinctPaths(s) && EndsFirstRun(s, path, b)
    ensures IsLongest(s, path, b) <==> NoGap(s, path)
  {
    if IsLongest(s, path, b) {
      forall x, y, z | x in s && y in s && z in s && Between(path, x, y, z)
        ensures HasPrefix(path, y.path)
      {
        BetweenIsInRun(s, path, b, x, y, z);
      }
    } else {
      var a :| FirstRun(s, path, a, b);
      assert Matches(s, path, b);
      var j :| Matches(s, path, j) && |s[j].path| > |s[b].path|;
      LongerLeavesGap(s, path, b, j);
    }
  }

  lemma LongerLeavesGap(s: seq<Item>, path: string, b: int, j: int)
    requires Sorted(s) && DistinctPaths(s)
    requires Matches(s, path, b) && !Matches(s, path, b + 1)
    requires Matches(s, path, j) && |s[j].path| > |s[b].path|
    ensures !NoGap(s, path)
  {
    LaterIsLonger(s, path, b, j);
    assert b + 1 != j;
    SortedStrictly(s, b, b + 1);
    SortedStrictly(s, b + 1, j);
    assert s[b] in s && s[b + 1] in s && s[j] in s;
    assert Between(path, s[b], s[b + 1], s[j]);
  }

  lemma BetweenIsInRun(s: seq<Item>, path: string, b: int, x: Item, y: Item, z: Item)
    requires Sorted(s) && DistinctPaths(s) && EndsFirstRun(s, path, b) && IsLongest(s, path, b)
    requires x in s && y in s && z in s && Between(path, x, y, z)
    ensures HasPrefix(path, y.path)
  {
    var i :| 0 <= i < |s| && s[i] == x;
    var j :| 0 <= j < |s| && s[j] == y;
    var k :| 0 <= k < |s| && s[k] == z;
    SortedStrictly(s, i, j);
    SortedStrictly(s, j, k);
    assert Matches(s, path, i) && Matches(s, path, k);
    LaterIsLonger(s, path, b, k);
    assert Matches(s, path, j);
  }

  /** When no mount point is a segment-prefix of another, nothing lies between. */
  lemma UnnestedMountsHaveNoGap(s: seq<Item>, path: string)
    requires forall x, y :: x in s && y in s && HasPrefix(y.path, x.path) ==> x.path == y.path
    ensures NoGap(s, path)
  {
    forall x, y, z | x in s && y in s && z in s ensures !Between(path, x, y, z) {
      StrCmpEqual(x.path, y.path);
      if HasPrefix(path, x.path) && HasPrefix(path, z.path) {
        PrefixesOfOnePath(path, x.path, z.path);
        PrefixesOfOnePath(path, z.path, x.path);
      }
    }
  }

  /** The end of the first run is determined. */
  lemma FirstRunIsUnique(s: seq<Item>, path: string, b: int, c: int)
    requires EndsFirstRun(s, path, b) && EndsFirstRun(s, path, c)
    ensures b == c
  {
    var a :| FirstRun(s, path, a, b);
    var d :| FirstRun(s, path, d, c);
    assert Matches(s, path, a) && Matches(s, path, d);
    assert Matches(s, path, b) && Matches(s, path, c);
  }

  /** There is a run exactly when something matches. */
  lemma NoMatchNoRun(s: seq<Item>, path: string)
    ensures (exists b :: EndsFirstRun(s, path, b)) <==> exists i :: Matches(s, path, i)
  {
    if b :| EndsFirstRun(s, path, b) {
      var a :| FirstRun(s, path, a, b);
      assert Matches(s, path, a);
    }
    if i :| Matches(s, path, i) {
      var b := RunFrom(s, path, i);
    }
  }

  /** The first run, found from any match. */
  lemma RunFrom(s: seq<Item>, path: string, i: int) returns (b: int)
    requires Matches(s, path, i)
    ensures EndsFirstRun(s, path, b)
  {
    var a := 0;
    while !Matches(s, path, a)
      invariant 0 <= a <= i && forall j :: 0 <= j < a ==> !Matches(s, path, j)
      decreases i - a
    {
      a := a + 1;
    }
    b := a;
    while Matches(s, path, b + 1)
      invariant a <= b < |s| && forall j :: a <= j <= b ==> Matches(s, path, j)
      decreases |s| - b
    {
      b := b + 1;
    }
    assert FirstRun(s, path, a, b);
  }

  /** A path between two nested mount points defeats the scan. */
  lemma GapDefeatsTheScan()
    ensures var s := [Item("/a", 1), Item("/a!", 2), Item("/a/b", 3)];
            && Sorted(s) && DistinctPaths(s)
            && EndsFirstRun(s, "/a/b", 0) && IsLongest(s, "/a/b", 2)
  {
    var s := [Item("/a", 1), Item("/a!", 2), Item("/a/b", 3)];
    assert StrCmp("a", "a!") < 0 && StrCmp("a", "a/b") < 0;
    assert StrCmp("!", "/b") < 0;
    assert StrCmp("a!", "a/b") < 0;
    assert Sorted(s);
    assert s[2].path[2] == '/' && s[1].path[2] == '!';
    assert Matches(s, "/a/b", 0) && !Matches(s, "/a/b", 1) && Matches(s, "/a/b", 2);
    assert FirstRun(s, "/a/b", 0, 0);
  }

  // ---------- adding and removing ----------

  /** How many mount points a path has. */
  function CountPath(s: seq<Item>, path: string): nat {
    if s == [] then 0 else (if s[0].path == path then 1 else 0) + CountPath(s[1..], path)
  }

  lemma {:induction false} CountConcat(a: seq<Item>, b: seq<Item>, path: string)
    ensures CountPath(a + b, path) == CountPath(a, path) + CountPath(b, path)
  {
    if a == [] {
      assert a + b == b;
    } else {
      assert (a + b)[1..] == a[1..] + b;
      CountConcat(a[1..], b, path);
    }
  }

  lemma CountWithout(s: seq<Item>, i: nat, path: string)
    requires i < |s|
    ensures CountPath(s[..i] + s[i + 1..], path) == CountPath(s, path) - if s[i].path == path then 1 else 0
    ensures multiset(s[..i] + s[i + 1..]) == multiset(s) - multiset{s[i]}
  {
    var a, x, b := s[..i], [s[i]], s[i + 1..];
    assert s == a + (x + b);
    CountConcat(a, x + b, path);
    CountConcat(x, b, path);
    CountConcat(a, b, path);
    assert x[1..] == [];
  }

  lemma {:induction false} CountIsMounted(s: seq<Item>, path: string)
    ensures CountPath(s, path) > 0 <==> exists x :: x in s && x.path == path
  {
    if s != [] {
      CountIsMounted(s[1..], path);
      assert s == [s[0]] + s[1..];
    }
  }

  /** The order of the entries does not matter. */
  lemma {:induction false} CountOfMultiset(s: seq<Item>, t: seq<Item>, path: string)
    requires multiset(s) == multiset(t)
    ensures CountPath(s, path) == CountPath(t, path)
  {
    if s == [] {
      assert |multiset(t)| == 0;
    } else {
      assert s[0] in multiset(t);
      var i :| 0 <= i < |t| && t[i] == s[0];
      TailMultiset(s);
      CountWithout(t, i, path);
      CountOfMultiset(s[1..], t[..i] + t[i + 1..], path);
    }
  }

  /** After a factory has been added there is exactly one mount point of its path, as the
      documentation promises, if and only if there was none before. */
  lemma AddReplacesIffNew(s: seq<Item>, path: string, factory: nat)
    ensures CountPath(s + [Item(path, factory)], path) == 1 <==> !exists x :: x in s && x.path == path
  {
    CountConcat(s, [Item(path, factory)], path);
    assert [Item(path, factory)][1..] == [];
    CountIsMounted(s, path);
  }

  /** After one mount point of a path has been removed, the path is still mounted if and only
      if it was mounted at least twice. */
  lemma RemoveUnmountsIffOnce(s: seq<Item>, t: seq<Item>, x: Item)
    requires x in s && multiset(t) == multiset(s) - multiset{x}
    ensures (exists y :: y in t && y.path == x.path) <==> CountPath(s, x.path) >= 2
    ensures forall p :: CountPath(t, p) == CountPath(s, p) - if p == x.path then 1 else 0
  {
    var i :| 0 <= i < |s| && s[i] == x;
    var u := s[..i] + s[i + 1..];
    forall p ensures CountPath(t, p) == CountPath(s, p) - if p == x.path then 1 else 0 {
      CountWithout(s, i, p);
      CountOfMultiset(t, u, p);
    }
    CountIsMounted(t, x.path);
  }

  /** A path that was added twice is still mounted after it has been removed. */
  lemma AddAddRemove(t: seq<Item>, x: Item)
    requires var s := [] + [Item("/a", 1)] + [Item("/a", 2)];
             x in s && multiset(t) == multiset(s) - multiset{x}
    ensures exists y :: y in t && y.path == "/a"
  {
    var s := [] + [Item("/a", 1)] + [Item("/a", 2)];
    CountConcat([Item("/a", 1)], [Item("/a", 2)], "/a");
    assert s == [Item("/a", 1)] + [Item("/a", 2)];
    assert [Item("/a", 1)][1..] == [] && [Item("/a", 2)][1..] == [];
    RemoveUnmountsIffOnce(s, t, x);
  }

  // ---------- the object ----------

  class Mounts {
    var mounts: seq<Item>
    var dirty: bool

    constructor ()
      ensures Valid() && mounts == []
    {
      mounts, dirty := [], false;
    }

    ghost predicate Valid()
      reads this
    {
      !dirty ==> Sorted(mounts)
    }

    /** Sorts the list if something was changed since it was last sorted. */
    method Tidy()
      requires Valid()
      modifies this
      ensures Valid() && !dirty && multiset(mounts) == multiset(old(mounts))
    {
      if dirty {
        SortSorts(mounts);
        mounts := Sort(mounts);
        dirty := false;
      }
    }

    method AddFactory(path: string, factory: nat)
      requires Valid()
      modifies this
      ensures Valid() && mounts == old(mounts) + [Item(path, factory)]
      ensures CountPath(mounts, path) == 1 <==> !exists x :: x in old(mounts) && x.path == path
    {
      AddReplacesIffNew(mounts, path, factory);
      mounts := mounts + [Item(path, factory)];
      dirty := true;
    }

    /** Removes one mount point of that path, if there is one. */
    method RemoveFactory(path: string)
      requires Valid()
      modifies this
      ensures Valid()
      ensures if exists x :: x in old(mounts) && x.path == path
              then exists x :: x in old(mounts) && x.path == path
                               && multiset(mounts) == multiset(old(mounts)) - multiset{x}
              else multiset(mounts) == multiset(old(mounts))
      ensures (exists x :: x in mounts && x.path == path) <==> CountPath(old(mounts), path) >= 2
    {
      ghost var before := mounts;
      Tidy();
      ghost var sorted := mounts;
      assert forall x :: x in multiset(sorted) <==> x in multiset(old(mounts));
      var i := 0;
      while i < |mounts| && mounts[i].path != path
        modifies {}
        invariant 0 <= i <= |mounts| && forall j :: 0 <= j < i ==> mounts[j].path != path
      {
        i := i + 1;
      }
      if i < |mounts| {
        assert sorted[i] in multiset(old(mounts));
        assert sorted == sorted[..i] + [sorted[i]] + sorted[i + 1..];
        mounts := mounts[..i] + mounts[i + 1..];
        dirty := true;
        assert multiset(mounts) == multiset(sorted) - multiset{sorted[i]};
        RemoveUnmountsIffOnce(before, mounts, sorted[i]);
      } else {
        forall x | x in old(mounts) ensures x.path != path {
          assert x in multiset(sorted);
        }
        CountIsMounted(before, path);
      }
    }

    /** The mount point for a path. Without asking for the matched length, only a mount
        point of exactly that path is reported. */
    method Match(path: string, partial: bool) returns (factory: Option<nat>, matched: nat)
      requires Valid()
      modifies this
      ensures Valid() && !dirty && multiset(mounts) == multiset(old(mounts))
      ensures Sorted(mounts)
      ensures forall b :: EndsFirstRun(mounts, path, b) ==>
                factory == if partial || mounts[b].path == path then Some(mounts[b].factory) else None
      ensures factory.Some? ==> exists b :: EndsFirstRun(mounts, path, b) && matched == |mounts[b].path|
      ensures (forall i :: !Matches(mounts, path, i)) ==> factory.None?
      ensures factory.Some? ==>
                && matched <= |path| && (matched == |path| || (partial && path[matched] == '/'))
                && exists x :: x in mounts && x.path == path[..matched] && x.factory == factory.value
      ensures partial && factory.None? ==> forall x :: x in mounts ==> !Under(path, x.path)
    {
      Tidy();
      var iter := 0;
      var best := -1;
      ghost var first := 0;
      while iter < |mounts|
        modifies {}
        invariant 0 <= iter <= |mounts|
        invariant best == -1 ==> forall i :: 0 <= i < iter ==> !Matches(mounts, path, i)
        invariant best != -1 ==> 0 <= first <= best == iter - 1
                                 && (forall i :: 0 <= i < first ==> !Matches(mounts, path, i))
                                 && (forall i :: first <= i <= best ==> Matches(mounts, path, i))
      {
        if best == -1 {
          if HasPrefix(path, mounts[iter].path) {
            best, first := iter, iter;
          }
        } else {
          if !HasPrefix(path, mounts[iter].path) {
            break;
          }
          best := iter;
        }
        iter := iter + 1;
      }
      factory, matched := None, 0;
      if best != -1 {
        assert FirstRun(mounts, path, first, best);
        assert EndsFirstRun(mounts, path, best) && Matches(mounts, path, best);
        if partial || |mounts[best].path| == |path| {
          factory, matched := Some(mounts[best].factory), |mounts[best].path|;
        }
        HasPrefixMeans(path, mounts[best].path);
        forall b | EndsFirstRun(mounts, path, b) ensures b == best {
          FirstRunIsUnique(mounts, path, b, best);
        }
      } else {
        NoMatchNoRun(mounts, path);
        forall x | x in mounts ensures !Under(path, x.path) {
          var i :| 0 <= i < |mounts| && mounts[i] == x;
          assert !Matches(mounts, path, i);
          HasPrefixMeans(path, x.path);
        }
      }
    }
  }
}
