/** Finding the media of a session for a path: a full scan, unlike the mount points. */
module SessionLookup {
  import opened PathOrder
  import opened MountPoints

  /** m is a longest of the media whose path is a segment-prefix, -1 when there is none
      longer than nothing. */
  ghost predicate LongestOf(medias: seq<string>, path: string, m: int) {
    if m == -1 then forall i :: 0 <= i < |medias| && HasPrefix(path, medias[i]) ==> medias[i] == []
    else
      && 0 <= m < |medias| && HasPrefix(path, medias[m]) && medias[m] != []
      && (forall i :: 0 <= i < |medias| && HasPrefix(path, medias[i]) ==> |medias[i]| <= |medias[m]|)
      && (forall i :: 0 <= i < m && HasPrefix(path, medias[i]) ==> |medias[i]| < |medias[m]|)
  }

  /** get_media: scans all media of the session and keeps the best; matched is the length. */
  method GetMedia(medias: seq<string>, path: string) returns (result: int, matched: nat)
    ensures LongestOf(medias, path, result)
    ensures matched == if result == -1 then 0 else |medias[result]|
    ensures result != -1 ==>
              medias[result] == path[..matched] && (matched == |path| || path[matched] == '/')
    ensures result == -1 ==> forall i :: 0 <= i < |medias| ==> medias[i] == [] || !Under(path, medias[i])
  {
    result, matched := -1, 0;
    var i := 0;
    while i < |medias|
      invariant 0 <= i <= |medias|
      invariant -1 <= result < i
      invariant result == -1 ==> matched == 0 && forall j :: 0 <= j < i && HasPrefix(path, medias[j]) ==> medias[j] == []
      invariant result != -1 ==>
                  && HasPrefix(path, medias[result]) && 0 < matched == |medias[result]|
                  && (forall j :: 0 <= j < i && HasPrefix(path, medias[j]) ==> |medias[j]| <= matched)
                  && (forall j :: 0 <= j < result && HasPrefix(path, medias[j]) ==> |medias[j]| < matched)
    {
      if HasPrefix(path, medias[i]) && matched < |medias[i]| {
        result, matched := i, |medias[i]|;
      }
      i := i + 1;
    }
    if result != -1 {
      HasPrefixMeans(path, medias[result]);
    } else {
      forall k | 0 <= k < |medias| ensures medias[k] == [] || !Under(path, medias[k]) {
        HasPrefixMeans(path, medias[k]);
      }
    }
  }

  /** The media of the session stand under the paths of the mount points. */
  ghost predicate SamePaths(s: seq<Item>, medias: seq<string>) {
    && (forall i :: 0 <= i < |s| ==> s[i].path in medias)
    && (forall k :: 0 <= k < |medias| ==> exists i :: 0 <= i < |s| && s[i].path == medias[k])
  }

  /** The full scan finds a longest entry of the mount points. */
  lemma FoundIsLongest(s: seq<Item>, path: string, medias: seq<string>, m: int) returns (j: int)
    requires SamePaths(s, medias) && LongestOf(medias, path, m) && m != -1
    ensures IsLongest(s, path, j) && s[j].path == medias[m]
  {
    j :| 0 <= j < |s| && s[j].path == medias[m];
    forall i | Matches(s, path, i) ensures |s[i].path| <= |medias[m]| {
      assert s[i].path in medias;
    }
  }

  lemma LongestIsUnique(s: seq<Item>, path: string, b: int, j: int)
    requires Sorted(s) && DistinctPaths(s) && IsLongest(s, path, b) && IsLongest(s, path, j)
    ensures b == j
  {
    LaterIsLonger(s, path, b, j);
    LaterIsLonger(s, path, j, b);
  }

  /** The media of the session stand under paths of mount points, not necessarily all. */
  ghost predicate Mounted(s: seq<Item>, medias: seq<string>) {
    forall k :: 0 <= k < |medias| ==> exists i :: 0 <= i < |s| && s[i].path == medias[k]
  }

  lemma FoundIsLater(s: seq<Item>, path: string, b: int, medias: seq<string>, m: int, j: int)
    requires Sorted(s) && DistinctPaths(s) && LongestOf(medias, path, m) && m != -1
    requires Matches(s, path, b) && s[b].path == medias[m] && Matches(s, path, j) && s[j].path in medias
    ensures j <= b
  {
    LaterIsLonger(s, path, b, j);
  }

  /** A session that manages media under some of the mount points finds the same path as the
      scan of the mount points if and only if it manages that one, and no mount point of the
      path behind it. */
  lemma LookupsAgreeIffManaged(s: seq<Item>, path: string, b: int, medias: seq<string>, m: int)
    requires Sorted(s) && DistinctPaths(s) && EndsFirstRun(s, path, b)
    requires Mounted(s, medias) && LongestOf(medias, path, m)
    ensures m != -1 && medias[m] == s[b].path
            <==> && s[b].path != [] && s[b].path in medias
                 && forall j :: Matches(s, path, j) && s[j].path in medias ==> j <= b
  {
    var a :| FirstRun(s, path, a, b);
    assert Matches(s, path, b);
    if m != -1 && medias[m] == s[b].path {
      forall j | Matches(s, path, j) && s[j].path in medias ensures j <= b {
        FoundIsLater(s, path, b, medias, m, j);
      }
    } else if s[b].path != [] && s[b].path in medias {
      var k :| 0 <= k < |medias| && medias[k] == s[b].path;
      var j :| 0 <= j < |s| && s[j].path == medias[m];
      assert Matches(s, path, j) && medias[m] in medias;
      LaterIsLonger(s, path, b, j);
      if j <= b { SameLength(s, path, b, j); }
    }
  }

  lemma SameLength(s: seq<Item>, path: string, b: int, j: int)
    requires Sorted(s) && DistinctPaths(s) && Matches(s, path, b) && Matches(s, path, j) && j <= b
    ensures j < b ==> |s[j].path| < |s[b].path|
  {
    LaterIsLonger(s, path, j, b);
  }

  /** With media under all of them, that is: exactly when nothing lies between the prefixes
      of the path. */
  lemma LookupsAgreeIffNoGap(s: seq<Item>, path: string, b: int, medias: seq<string>, m: int)
    requires Sorted(s) && DistinctPaths(s) && EndsFirstRun(s, path, b)
    requires SamePaths(s, medias) && LongestOf(medias, path, m) && m != -1
    ensures s[b].path == medias[m] <==> NoGap(s, path)
  {
    var j := FoundIsLongest(s, path, medias, m);
    ScanIsLongestIffNoGap(s, path, b);
    if IsLongest(s, path, b) {
      LongestIsUnique(s, path, b, j);
    }
  }
}
