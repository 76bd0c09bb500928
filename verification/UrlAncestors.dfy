/** The ancestors of a URL path: the path itself, its prefixes at slash boundaries, and the root. */
module UrlAncestors {
  import opened Domain

  // ----- string operations -----

  /** The characters String.prototype.trim removes. */
  predicate IsSpace(c: char) {
    || '\t' <= c <= '\r' || c == ' ' || c == '\U{00A0}' || c == '\U{1680}' || '\U{2000}' <= c <= '\U{200A}'
    || c in {'\U{2028}', '\U{2029}', '\U{202F}', '\U{205F}', '\U{3000}', '\U{FEFF}'}
  }

  function TrimStart(s: string): string {
    if |s| > 0 && IsSpace(s[0]) then TrimStart(s[1..]) else s
  }

  function TrimEnd(s: string): string {
    if |s| > 0 && IsSpace(s[|s| - 1]) then TrimEnd(s[..|s| - 1]) else s
  }

  function Trim(s: string): string {
    TrimEnd(TrimStart(s))
  }

  /** Everything before the first c. */
  function CutAt(s: string, c: char): (r: string)
    ensures r <= s && c !in r
  {
    if |s| == 0 || s[0] == c then [] else [s[0]] + CutAt(s[1..], c)
  }

  /** path.replace(/\/+/g, '/') */
  function Collapse(s: string): string {
    if |s| < 2 then s
    else if s[0] == '/' && s[1] == '/' then Collapse(s[1..])
    else [s[0]] + Collapse(s[1..])
  }

  /** path.replace(/\/+$/, '') */
  function StripSlashes(s: string): string {
    if |s| > 0 && s[|s| - 1] == '/' then StripSlashes(s[..|s| - 1]) else s
  }

  /** The index of the last slash, or -1. */
  function LastSlash(s: string): (k: int)
    ensures -1 <= k < |s|
    ensures 0 <= k ==> s[k] == '/'
    ensures forall i :: k < i < |s| ==> s[i] != '/'
  {
    if |s| == 0 then -1
    else if s[|s| - 1] == '/' then |s| - 1
    else LastSlash(s[..|s| - 1])
  }

  function Normalize(url: string): string {
    var path := Collapse(CutAt(CutAt(Trim(url), '?'), '#'));
    if 1 < |path| && path[|path| - 1] == '/' then StripSlashes(path) else path
  }

  // ----- the specification -----

  /** The proper prefixes of a path that end just before a slash, longest first; the root is not one of them. */
  function Boundaries(path: string): seq<string> {
    var k := LastSlash(path);
    if k <= 0 then [] else [path[..k]] + Boundaries(path[..k])
  }

  function Ancestors(path: string): seq<string> {
    if path == "" then []
    else if path == "/" then ["/"]
    else [path] + Boundaries(path) + ["/"]
  }

  /** buildUrlAncestors */
  method BuildUrlAncestors(url: Option<string>) returns (ancestors: seq<string>)
    ensures ancestors == if url.Some? then Ancestors(Normalize(url.value)) else []
  {
    hide Trim, CutAt, Collapse, StripSlashes, NormalPath;
    if url.None? || url.value == "" {
      EmptyIsEmpty(url);
      return [];
    }
    var path := Trim(url.value);
    if path == "" {
      EmptyIsEmpty(url);
      return [];
    }
    path := CutAt(path, '?');
    path := CutAt(path, '#');
    path := Collapse(path);
    if 1 < |path| && path[|path| - 1] == '/' {
      path := StripSlashes(path);
    }
    assert path == Normalize(url.value);
    if path == "" {
      return [];
    }
    if path == "/" {
      return ["/"];
    }
    NormalizeIsNormal(url.value);
    hide Normalize;
    ancestors := [];
    var current := path;
    while current != "" && current != "/"
      invariant NormalPath(current) && current != "/" && current != ""
      invariant ancestors + ([current] + Boundaries(current)) == [path] + Boundaries(path)
      decreases |current|
    {
      var lastSlash := LastSlash(current);
      ClimbStep(ancestors, current, lastSlash);
      ancestors := ancestors + [current];
      if lastSlash <= 0 {
        break;
      }
      PrefixIsNormal(current, lastSlash);
      current := current[..lastSlash];
    }
    ancestors := ancestors + ["/"];
  }

  lemma ClimbStep(ancestors: seq<string>, current: string, k: int)
    requires k == LastSlash(current)
    ensures k <= 0 ==> ancestors + ([current] + Boundaries(current)) == ancestors + [current]
    ensures 0 < k ==>
              ancestors + ([current] + Boundaries(current)) == ancestors + [current]
                + ([current[..k]] + Boundaries(current[..k]))
  {
  }

  lemma EmptyIsEmpty(url: Option<string>)
    requires url.Some? ==> Trim(url.value) == "" || url.value == ""
    ensures url.Some? ==> Ancestors(Normalize(url.value)) == []
  {
  }

  // ----- what normal paths look like -----

  /** Non-empty, no query, fragment or double slash, no leading space. */
  predicate CleanPath(p: string) {
    && p != ""
    && !IsSpace(p[0])
    && '?' !in p && '#' !in p
    && (forall i :: 0 <= i < |p| - 1 ==> !(p[i] == '/' && p[i + 1] == '/'))
  }

  /** Clean, and no trailing slash but the root's. */
  predicate NormalPath(p: string) {
    CleanPath(p) && (p == "/" || p[|p| - 1] != '/')
  }

  lemma {:induction false} TrimStartIs(s: string)
    ensures TrimStart(s) == "" || !IsSpace(TrimStart(s)[0])
  {
    if |s| > 0 && IsSpace(s[0]) {
      TrimStartIs(s[1..]);
    }
  }

  lemma {:induction false} TrimEndIs(s: string)
    ensures TrimEnd(s) <= s && (TrimEnd(s) == "" || !IsSpace(TrimEnd(s)[|TrimEnd(s)| - 1]))
  {
    if |s| > 0 && IsSpace(s[|s| - 1]) {
      TrimEndIs(s[..|s| - 1]);
    }
  }

  lemma {:induction false} CollapseIs(s: string)
    ensures |Collapse(s)| <= |s| && (s != "" ==> Collapse(s) != "" && Collapse(s)[0] == s[0])
    ensures forall i :: 0 <= i < |Collapse(s)| ==> Collapse(s)[i] in s
    ensures forall i :: 0 <= i < |Collapse(s)| - 1 ==> !(Collapse(s)[i] == '/' && Collapse(s)[i + 1] == '/')
  {
    if |s| >= 2 {
      CollapseIs(s[1..]);
    }
  }

  lemma {:induction false} CollapseIdle(s: string)
    requires forall i :: 0 <= i < |s| - 1 ==> !(s[i] == '/' && s[i + 1] == '/')
    ensures Collapse(s) == s
  {
    if |s| >= 2 {
      CollapseIdle(s[1..]);
    }
  }

  lemma {:induction false} CutIdle(s: string, c: char)
    requires c !in s
    ensures CutAt(s, c) == s
  {
    if |s| > 0 {
      CutIdle(s[1..], c);
    }
  }

  /** On a path without double slashes at most one slash is stripped. */
  lemma StripOne(s: string)
    requires 1 < |s| && s[|s| - 1] == '/' && s[|s| - 2] != '/'
    ensures StripSlashes(s) == s[..|s| - 1]
  {
  }

  /** Dropping the trailing slash makes a clean path normal. */
  lemma StripNormal(p: string)
    requires CleanPath(p)
    ensures NormalPath(if 1 < |p| && p[|p| - 1] == '/' then StripSlashes(p) else p)
  {
    if 1 < |p| && p[|p| - 1] == '/' {
      StripOne(p);
    }
  }

  lemma NormalizeIsNormal(url: string)
    ensures Normalize(url) == "" || NormalPath(Normalize(url))
  {
    TrimStartIs(url);
    TrimEndIs(TrimStart(url));
    var cut := CutAt(CutAt(Trim(url), '?'), '#');
    CollapseIs(cut);
    var path := Collapse(cut);
    if cut != "" {
      assert cut <= Trim(url) <= TrimStart(url);
      hide TrimStart, TrimEnd, Trim, CutAt, Collapse, StripSlashes, IsSpace, NormalPath;
      assert CleanPath(path);
      StripNormal(path);
    }
  }

  lemma PrefixIsNormal(p: string, k: int)
    requires NormalPath(p) && 0 < k < |p| && p[k] == '/'
    ensures NormalPath(p[..k]) && p[..k] != "/" && p[..k] != ""
  {
    var i := k - 1;
    assert p[i + 1] == '/';
    assert p[i] != '/';
    assert p[..k][0] == p[0] && p[..k][k - 1] == p[k - 1];
  }

  predicate EndsInSpace(p: string) {
    p != "" && IsSpace(p[|p| - 1])
  }

  lemma {:induction false} TrimEndShortens(s: string)
    requires EndsInSpace(s)
    ensures |TrimEnd(s)| < |s|
  {
    TrimEndIs(s[..|s| - 1]);
  }

  /** Normalizing a normal path is a no-op unless it ends in white space. */
  lemma NormalizeAgain(p: string)
    requires NormalPath(p)
    ensures !EndsInSpace(p) ==> Normalize(p) == p
    ensures EndsInSpace(p) ==> |Normalize(p)| < |p|
  {
    if EndsInSpace(p) {
      TrimEndShortens(p);
      var cut := CutAt(CutAt(Trim(p), '?'), '#');
      CollapseIs(cut);
      StripShortens(Collapse(cut));
    } else {
      assert Trim(p) == p;
      CutIdle(p, '?');
      CutIdle(p, '#');
      CollapseIdle(p);
    }
  }

  lemma {:induction false} StripShortens(s: string)
    ensures |StripSlashes(s)| <= |s|
  {
    if |s| > 0 && s[|s| - 1] == '/' {
      StripShortens(s[..|s| - 1]);
    }
  }

  // ----- what each normalizing step does -----

  /** Cutting keeps everything before the first c, and everything if there is none. */
  lemma {:induction false} CutAtIs(s: string, c: char)
    ensures var r := CutAt(s, c);
            && r == s[..|r|] && c !in r
            && (|r| < |s| ==> s[|r|] == c)
            && (c !in s ==> r == s)
  {
    if |s| > 0 && s[0] != c {
      CutAtIs(s[1..], c);
    }
  }

  predicate AllSpace(s: string) {
    forall i :: 0 <= i < |s| ==> IsSpace(s[i])
  }

  lemma {:induction false} TrimStartKeeps(s: string)
    ensures |TrimStart(s)| <= |s| && TrimStart(s) == s[|s| - |TrimStart(s)|..]
    ensures AllSpace(s[..|s| - |TrimStart(s)|])
  {
    if |s| > 0 && IsSpace(s[0]) {
      TrimStartKeeps(s[1..]);
    }
  }

  lemma {:induction false} TrimEndKeeps(s: string)
    ensures |TrimEnd(s)| <= |s| && TrimEnd(s) == s[..|TrimEnd(s)|] && AllSpace(s[|TrimEnd(s)|..])
  {
    if |s| > 0 && IsSpace(s[|s| - 1]) {
      TrimEndKeeps(s[..|s| - 1]);
    }
  }

  /** Trimming removes white space at the two ends and nothing else. */
  lemma TrimIs(s: string) returns (front: string, back: string)
    ensures s == front + Trim(s) + back && AllSpace(front) && AllSpace(back)
    ensures Trim(s) != "" ==> !IsSpace(Trim(s)[0]) && !IsSpace(Trim(s)[|Trim(s)| - 1])
  {
    var t := TrimStart(s);
    TrimStartKeeps(s);
    TrimStartIs(s);
    TrimEndKeeps(t);
    TrimEndIs(t);
    front, back := s[..|s| - |t|], t[|Trim(s)|..];
  }

  /** Collapsing drops one of two adjacent slashes, wherever they stand, until there are none; with CollapseIdle, which
      says that it then stops, this leaves no choice. */
  lemma {:induction false} CollapseDrops(a: string, b: string)
    ensures Collapse(a + "//" + b) == Collapse(a + "/" + b)
  {
    if |a| == 0 {
      assert a + "//" + b == "//" + b && a + "/" + b == "/" + b;
      assert ("//" + b)[1..] == "/" + b;
    } else {
      var s, t := a + "//" + b, a + "/" + b;
      CollapseDrops(a[1..], b);
      assert s[1..] == a[1..] + "//" + b && t[1..] == a[1..] + "/" + b;
      assert s[0] == t[0] && s[1] == t[1] by {
        if |a| > 1 {
          assert s[1] == a[1] == t[1];
        }
      }
    }
  }

  /** Stripping drops trailing slashes and nothing else. */
  lemma {:induction false} StripIs(s: string)
    ensures var r := StripSlashes(s);
            && |r| <= |s| && r == s[..|r|] && (r == "" || r[|r| - 1] != '/')
            && forall i :: |r| <= i < |s| ==> s[i] == '/'
  {
    if |s| > 0 && s[|s| - 1] == '/' {
      StripIs(s[..|s| - 1]);
    }
  }

  // ----- what the ancestors are -----

  /** Every boundary prefix is there, longest first, and nothing else. */
  lemma {:induction false} BoundariesExact(p: string)
    ensures forall i :: 0 <= i < |Boundaries(p)| ==>
              var q := Boundaries(p)[i]; 0 < |q| < |p| && q == p[..|q|] && p[|q|] == '/'
    ensures forall k :: 0 < k < |p| && p[k] == '/' ==> p[..k] in Boundaries(p)
    ensures forall i, j :: 0 <= i < j < |Boundaries(p)| ==> |Boundaries(p)[j]| < |Boundaries(p)[i]|
    decreases |p|
  {
    var k := LastSlash(p);
    if 0 < k {
      BoundariesExact(p[..k]);
      var rest := Boundaries(p[..k]);
      forall i | 0 <= i < |Boundaries(p)|
        ensures var q := Boundaries(p)[i]; 0 < |q| < |p| && q == p[..|q|] && p[|q|] == '/'
      {
        if 0 < i {
          var q := rest[i - 1];
          assert q == p[..k][..|q|] == p[..|q|];
        }
      }
      forall m | 0 < m < |p| && p[m] == '/' ensures p[..m] in Boundaries(p) {
        if m < k {
          assert p[..k][..m] == p[..m] && p[..k][m] == '/';
          assert p[..m] in rest;
        } else {
          assert m == k;
          assert Boundaries(p)[0] == p[..m];
        }
      }
    }
  }

  /** Exactly the proper prefixes of p that end before a slash, longest first; below the root in an absolute path. */
  ghost predicate BoundaryList(p: string, b: seq<string>) {
    && (forall i :: 0 <= i < |b| ==> 0 < |b[i]| < |p| && b[i] == p[..|b[i]|] && p[|b[i]|] == '/')
    && (forall k :: 0 < k < |p| && p[k] == '/' ==> p[..k] in b)
    && (forall i, j :: 0 <= i < j < |b| ==> |b[j]| < |b[i]|)
    && (0 < |p| && p[0] == '/' ==> forall i :: 0 <= i < |b| ==> 1 < |b[i]|)
  }

  lemma BoundariesListed(p: string)
    requires NormalPath(p)
    ensures BoundaryList(p, Boundaries(p))
  {
    BoundariesExact(p);
    if 1 < |p| && p[0] == '/' {
      var k := 0;
      assert p[k + 1] != '/';
    }
    hide Boundaries;
  }

  /** The list starts with the path, goes through exactly its boundaries and ends with the root. */
  ghost predicate AncestorList(p: string, r: seq<string>) {
    && 2 <= |r| && r[0] == p && r[|r| - 1] == "/"
    && BoundaryList(p, r[1..|r| - 1])
  }

  /** For every URL with a non-root path: the list starts with the normalized path, goes through exactly its
      slash-boundary prefixes, each shorter than the one before, and ends with the root. */
  lemma AncestorsExact(url: string)
    requires Normalize(url) != "" && Normalize(url) != "/"
    ensures AncestorList(Normalize(url), Ancestors(Normalize(url)))
  {
    NormalizeIsNormal(url);
    var p := Normalize(url);
    BoundariesListed(p);
    AncestorsAre(p);
    hide Normalize, NormalPath, Ancestors, Boundaries, BoundaryList;
  }

  lemma AncestorsAre(p: string)
    requires p != "" && p != "/"
    ensures var r := Ancestors(p);
            && |r| == |Boundaries(p)| + 2 && r[0] == p && r[|r| - 1] == "/" && r[1..|r| - 1] == Boundaries(p)
            && forall i :: 0 < i < |r| - 1 ==> r[i] == Boundaries(p)[i - 1]
  {
  }

  /** Either the path has no boundary, or its ancestors are itself and those of its longest one. */
  lemma AncestorsNext(p: string)
    requires NormalPath(p) && p != "/"
    ensures var k := LastSlash(p);
            if k <= 0 then Ancestors(p) == [p, "/"]
            else NormalPath(p[..k]) && p[..k] != "/" && Ancestors(p) == [p] + Ancestors(p[..k])
  {
    var k := LastSlash(p);
    if 0 < k {
      PrefixIsNormal(p, k);
      hide NormalPath;
      assert [p] + ([p[..k]] + Boundaries(p[..k])) + ["/"] == [p] + ([p[..k]] + Boundaries(p[..k]) + ["/"]);
    } else {
      hide NormalPath;
      assert Boundaries(p) == [];
    }
  }

  lemma {:induction false} AncestorSuffix(p: string, i: nat)
    requires NormalPath(p) && p != "/" && i < |Ancestors(p)| - 1
    ensures NormalPath(Ancestors(p)[i]) && Ancestors(p)[i] != "/"
    ensures Ancestors(Ancestors(p)[i]) == Ancestors(p)[i..]
    decreases i
  {
    hide NormalPath, Ancestors, Boundaries, LastSlash;
    AncestorsNext(p);
    var r := Ancestors(p);
    if i == 0 {
      assert r[0..] == r && r[0] == p;
    } else {
      var rest := Ancestors(p[..LastSlash(p)]);
      assert r == [p] + rest;
      AncestorSuffix(p[..LastSlash(p)], i - 1);
      assert r[i] == rest[i - 1] && r[i..] == rest[i - 1..];
    }
  }

  /** Asking again for one of the ancestors gives the rest of the list from there on, exactly unless that ancestor
      ends in white space, which asking again would trim. */
  lemma RerunIff(url: string, i: nat)
    requires i < |Ancestors(Normalize(url))|
    ensures var r := Ancestors(Normalize(url));
            Ancestors(Normalize(r[i])) == r[i..] <==> !EndsInSpace(r[i])
  {
    var p := Normalize(url);
    var r := Ancestors(p);
    NormalizeIsNormal(url);
    NormalizeAgain("/");
    if p != "/" && i < |r| - 1 {
      AncestorSuffix(p, i);
      NormalizeAgain(r[i]);
      if EndsInSpace(r[i]) {
        assert r[i..][0] == r[i];
        assert |Ancestors(Normalize(r[i]))| > 0 ==> Ancestors(Normalize(r[i]))[0] == Normalize(r[i]);
      }
    }
  }

  /** For instance the middle ancestor of "/a /b". */
  lemma SpaceBreaksRerun()
    ensures Ancestors(Normalize("/a /b")) == ["/a /b", "/a ", "/"]
    ensures Ancestors(Normalize("/a ")) != ["/a ", "/"]
  {
    SpacedPath();
    SpacedAncestors();
    hide Normalize, Ancestors;
    RerunIff("/a /b", 1);
  }

  lemma SpacedPath()
    ensures Normalize("/a /b") == "/a /b"
  {
    var p := "/a /b";
    CutIdle(p, '?');
    CutIdle(p, '#');
    CollapseIdle(p);
    assert TrimStart(p) == p && TrimEnd(p) == p;
    hide CutAt, Collapse, TrimStart, TrimEnd;
  }

  lemma SpacedAncestors()
    ensures Ancestors("/a /b") == ["/a /b", "/a ", "/"]
  {
    var p := "/a /b";
    assert LastSlash(p) == 3 && p[..3] == "/a ";
    assert LastSlash("/a ") == 0;
    hide LastSlash;
    assert Boundaries("/a ") == [];
    assert Boundaries(p) == ["/a "] + [];
  }

  /** In particular for paths free of white space. */
  lemma RerunWithoutSpaces(url: string, i: nat)
    requires i < |Ancestors(Normalize(url))|
    requires forall k :: 0 <= k < |Normalize(url)| ==> !IsSpace(Normalize(url)[k])
    ensures Ancestors(Normalize(Ancestors(Normalize(url))[i])) == Ancestors(Normalize(url))[i..]
  {
    var p := Normalize(url);
    var r := Ancestors(p);
    if p != "/" && i < |r| - 1 {
      AncestorsExact(url);
      assert r[i][|r[i]| - 1] == p[|r[i]| - 1];
    }
    RerunIff(url, i);
  }
}
