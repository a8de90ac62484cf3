/** The in-place clean-up of a request path before it is looked up. */
module SanitizeUri {

  /** Every run of slashes becomes one slash. */
  function Collapse(s: string): string {
    if s == [] then []
    else if |s| > 1 && s[0] == '/' && s[1] == '/' then Collapse(s[1..])
    else [s[0]] + Collapse(s[1..])
  }

  /** Without a trailing slash, unless that is all there is. */
  function Strip(c: string): string {
    if |c| > 1 && c[|c| - 1] == '/' then c[..|c| - 1] else c
  }

  function Sanitize(s: string): string {
    Strip(Collapse(s))
  }

  // ---------- what the result is ----------

  /** The non-empty names between slashes, the first one continuing cur. */
  function Segments(s: string, cur: string): seq<string> {
    if s == [] then (if cur == [] then [] else [cur])
    else if s[0] == '/' then (if cur == [] then [] else [cur]) + Segments(s[1..], [])
    else Segments(s[1..], cur + [s[0]])
  }

  function Join(names: seq<string>): string {
    if names == [] then [] else if |names| == 1 then names[0] else names[0] + "/" + Join(names[1..])
  }

  predicate Absolute(s: string) { s != [] && s[0] == '/' }

  /** The path rebuilt from its names. */
  function Canonical(s: string): string {
    (if Absolute(s) then "/" else "") + Join(Segments(s, []))
  }

  lemma {:induction false} CollapseKeepsSegments(s: string, cur: string)
    ensures Segments(Collapse(s), cur) == Segments(s, cur)
    ensures Absolute(Collapse(s)) <==> Absolute(s)
  {
    if s != [] {
      if |s| > 1 && s[0] == '/' && s[1] == '/' {
        CollapseKeepsSegments(s[1..], cur);
        CollapseKeepsSegments(s[1..], []);
      } else {
        var c := Collapse(s[1..]);
        assert Collapse(s)[1..] == c;
        CollapseKeepsSegments(s[1..], []);
        CollapseKeepsSegments(s[1..], cur + [s[0]]);
      }
    }
  }

  predicate NoDoubleSlash(s: string)
  {
    |s| <= 1 || (!(s[0] == '/' && s[1] == '/') && NoDoubleSlash(s[1..]))
  }

  lemma {:induction false} CollapseHasNoDoubleSlash(s: string)
    ensures NoDoubleSlash(Collapse(s))
  {
    if s != [] {
      CollapseHasNoDoubleSlash(s[1..]);
      if |s| > 1 {
        CollapseKeepsSegments(s[1..], []);
      }
    }
  }

  predicate EndsInSlash(s: string) { s != [] && s[|s| - 1] == '/' }

  /** The string is the joined names, perhaps with a slash behind. */
  predicate JoinsTo(s: string, names: seq<string>) {
    s == Join(names) + if EndsInSlash(s) then "/" else ""
  }

  lemma JoinsToCons(cur: string, t: string, names: seq<string>)
    requires t != [] && names != [] && JoinsTo(t, names)
    ensures JoinsTo(cur + "/" + t, [cur] + names)
  {
    var end := if EndsInSlash(t) then "/" else "";
    assert ([cur] + names)[1..] == names;
    assert cur + "/" + (Join(names) + end) == cur + "/" + Join(names) + end;
  }

  lemma JoinsToOne(cur: string)
    requires '/' !in cur
    ensures JoinsTo(cur, [cur])
    ensures cur != [] ==> JoinsTo(cur + "/", [cur])
  {
    assert Join([cur]) == cur;
    assert !EndsInSlash(cur) && EndsInSlash(cur + "/");
    assert cur + "" == cur;
  }

  lemma JoinSlash(s: string, t: string, cur: string)
    requires s == "/" + t && t != [] && cur != []
    requires Segments(t, []) != [] && JoinsTo(t, Segments(t, []))
    ensures JoinsTo(cur + s, Segments(s, cur))
  {
    assert s[1..] == t;
    JoinsToCons(cur, t, Segments(t, []));
    assert cur + s == cur + "/" + t;
  }

  /** Without double slashes and apart from a trailing one, a path is its names joined. */
  lemma {:induction false} JoinSegments(s: string, cur: string)
    requires NoDoubleSlash(s) && '/' !in cur
    requires s != [] && s[0] == '/' ==> cur != []
    ensures JoinsTo(cur + s, Segments(s, cur))
  {
    if s == [] {
      assert cur + s == cur;
      JoinsToOne(cur);
    } else {
      var t := s[1..];
      assert s == [s[0]] + t;
      if s[0] != '/' {
        JoinSegments(t, cur + [s[0]]);
        assert cur + s == cur + [s[0]] + t;
      } else if t == [] {
        assert s == "/";
        JoinsToOne(cur);
      } else {
        JoinSegments(t, []);
        SegmentsNonEmpty(t, []);
        assert [] + t == t;
        JoinSlash(s, t, cur);
      }
    }
  }

  lemma {:induction false} SegmentsNonEmpty(s: string, cur: string)
    requires cur != [] || (s != [] && s[0] != '/')
    ensures Segments(s, cur) != []
  {
    if s != [] && s[0] != '/' {
      SegmentsNonEmpty(s[1..], cur + [s[0]]);
    }
  }

  lemma SegmentsAbsolute(t: string)
    ensures Segments("/" + t, []) == Segments(t, [])
  {
    assert ("/" + t)[1..] == t;
  }

  lemma StripIsCanonical(c: string)
    requires NoDoubleSlash(c)
    ensures Strip(c) == Canonical(c)
  {
    if Absolute(c) {
      var t := c[1..];
      assert c == "/" + t && [] + t == t;
      JoinSegments(t, []);
      StripAbsolute(t, Segments(t, []));
      SegmentsAbsolute(t);
    } else {
      JoinSegments(c, []);
      assert [] + c == c;
      StripRelative(c, Segments(c, []));
    }
  }

  /** The clean-up keeps the names, their order and whether the path is absolute, and
      nothing else: it is the path rebuilt from its names. */
  lemma SanitizeIsCanonical(s: string)
    ensures Sanitize(s) == Canonical(s)
  {
    CollapseKeepsSegments(s, []);
    CollapseHasNoDoubleSlash(s);
    StripIsCanonical(Collapse(s));
  }

  lemma StripAbsolute(t: string, names: seq<string>)
    requires JoinsTo(t, names)
    ensures Strip("/" + t) == "/" + Join(names)
  {
    if EndsInSlash(t) {
      assert "/" + t == ("/" + Join(names)) + "/";
    }
  }

  lemma StripRelative(t: string, names: seq<string>)
    requires JoinsTo(t, names) && !Absolute(t)
    ensures Strip(t) == "" + Join(names)
  {
    if EndsInSlash(t) {
      assert |t| > 1;
      assert t == Join(names) + "/";
    }
  }

  lemma SanitizeForm(s: string)
    ensures NoDoubleSlash(Sanitize(s))
    ensures var r := Sanitize(s); |r| > 1 ==> r[|r| - 1] != '/'
    ensures s != [] ==> Sanitize(s) != []
  {
    CollapseHasNoDoubleSlash(s);
    CollapseKeepsSegments(s, []);
    NonEmptyCollapse(s);
    DropLastClean(Collapse(s));
  }

  lemma {:induction false} DropLastClean(s: string)
    requires NoDoubleSlash(s)
    ensures s != [] ==> NoDoubleSlash(s[..|s| - 1])
    ensures |s| > 1 ==> !(s[|s| - 2] == '/' && s[|s| - 1] == '/')
  {
    if |s| > 1 {
      DropLastClean(s[1..]);
      assert s[..|s| - 1][1..] == s[1..][..|s| - 2];
    }
  }

  lemma {:induction false} NonEmptyCollapse(s: string)
    ensures s != [] ==> Collapse(s) != []
  {
    if |s| > 1 {
      NonEmptyCollapse(s[1..]);
    }
  }

  lemma {:induction false} CollapseFixesClean(s: string)
    requires NoDoubleSlash(s)
    ensures Collapse(s) == s
  {
    if s != [] {
      CollapseFixesClean(s[1..]);
      assert s == [s[0]] + s[1..];
    }
  }

  /** A second clean-up changes nothing. */
  lemma SanitizeIdempotent(s: string)
    ensures Sanitize(Sanitize(s)) == Sanitize(s)
  {
    SanitizeForm(s);
    CollapseFixesClean(Sanitize(s));
  }

  lemma Examples()
    ensures Sanitize("//a///b/") == "/a/b" && Sanitize("//") == "/" && Sanitize("a/") == "a" && Sanitize("") == ""
  {
    CollapseSnoc("//a///b", '/');
    assert Collapse("//a///b/") == "/a/b/";
    assert "/a/b/"[..4] == "/a/b";
    assert "a/"[..1] == "a";
  }

  // ---------- the loop ----------

  lemma {:induction false} CollapseSnoc(s: string, c: char)
    ensures Collapse(s + [c])
            == if s != [] && s[|s| - 1] == '/' && c == '/' then Collapse(s) else Collapse(s) + [c]
  {
    if s == [] {
      assert s + [c] == [c] && [c][1..] == [];
    } else {
      assert (s + [c])[1..] == s[1..] + [c];
      CollapseSnoc(s[1..], c);
      if |s| == 1 {
        assert s[1..] == [];
      }
    }
  }

  /** Removes duplicate and trailing slashes from a NUL-terminated path, in place. */
  method SanitizeUri(abspath: array<char>, len: nat) returns (n: nat)
    requires len < abspath.Length && abspath[len] == '\0' && '\0' !in abspath[..len]
    modifies abspath
    ensures n <= len && abspath[..n] == Sanitize(old(abspath[..len])) && abspath[n] == '\0'
    ensures '\0' !in abspath[..n]
  {
    ghost var s := abspath[..len];
    var d := 0;
    var prevSlash := false;
    var i := 0;
    while i < len
      invariant 0 <= d <= i <= len
      invariant prevSlash <==> i > 0 && s[i - 1] == '/'
      invariant abspath[..d] == Collapse(s[..i]) && '\0' !in abspath[..d]
      invariant forall k :: i <= k < len ==> abspath[k] == s[k]
    {
      var haveSlash := abspath[i] == '/';
      CollapseSnoc(s[..i], s[i]);
      assert s[..i + 1] == s[..i] + [s[i]];
      assert s[i] in s;
      abspath[d] := abspath[i];
      assert abspath[..d + 1] == abspath[..d] + [s[i]];
      if !haveSlash || !prevSlash {
        d := d + 1;
      }
      prevSlash := haveSlash;
      i := i + 1;
    }
    assert s[..i] == s;
    n := d;
    if n > 1 && abspath[d - 1] == '/' {
      n := n - 1;
    }
    abspath[n] := '\0';
  }
}
