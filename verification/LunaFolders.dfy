/** Folder paths on a Luna drive: normalization, and when two folders overlap. */
module LunaFolders {
  import opened Text

  /** Parts that are neither empty nor ".". */
  function Kept(parts: seq<string>): seq<string> {
    if parts == [] then []
    else (if parts[0] != "" && parts[0] != "." then [parts[0]] else []) + Kept(parts[1..])
  }

  /** The folder names a path goes through. */
  function Segments(path: string): seq<string> {
    Kept(Split(Trim(Trim(path, Space()), Slash()), '/'))
  }

  /** `normalize_remote`. */
  function Normalize(path: string): string {
    Join(Segments(path), '/')
  }

  /** `paths_overlap`, on text. */
  predicate PathsOverlap(a: string, b: string) {
    var a, b := Normalize(a), Normalize(b);
    a == b || a == "" || b == "" || StartsWith(a, b + "/") || StartsWith(b, a + "/")
  }

  /** One folder is the other, or lies inside it. */
  predicate Nested(a: seq<string>, b: seq<string>) {
    a <= b || b <= a
  }

  /** Folder names as normalization leaves them. */
  predicate Clean(segments: seq<string>) {
    Without(segments, '/') && forall s :: s in segments ==> s != "" && s != "."
  }

  lemma {:induction false} KeptClean(parts: seq<string>)
    requires Without(parts, '/')
    ensures Clean(Kept(parts))
  {
    if parts != [] {
      assert parts[0] in parts;
      assert Without(parts[1..], '/');
      KeptClean(parts[1..]);
    }
  }

  lemma SegmentsClean(path: string)
    ensures Clean(Segments(path))
  {
    var t := Trim(Trim(path, Space()), Slash());
    SplitJoin(t, '/');
    KeptClean(Split(t, '/'));
  }

  lemma CleanTail(parts: seq<string>)
    requires Clean(parts) && parts != []
    ensures Clean(parts[1..])
  {
    assert forall part :: part in parts[1..] ==> part in parts;
  }

  lemma {:induction false} KeptAll(parts: seq<string>)
    requires Clean(parts)
    ensures Kept(parts) == parts
  {
    if parts != [] {
      assert parts[0] in parts;
      CleanTail(parts);
      KeptAll(parts[1..]);
    }
  }

  lemma JoinEmpty(parts: seq<string>)
    requires Clean(parts)
    ensures Join(parts, '/') == "" <==> parts == []
  {
    if parts != [] {
      assert parts[0] in parts;
    }
  }

  lemma JoinInjective(s: seq<string>, t: seq<string>)
    requires Clean(s) && Clean(t)
    ensures Join(s, '/') == Join(t, '/') <==> s == t
  {
    JoinEmpty(s);
    JoinEmpty(t);
    if s != [] && t != [] {
      JoinSplit(s, '/');
      JoinSplit(t, '/');
    }
  }

  /** The test on text is the test on folder names: one list is a prefix of the other. */
  lemma OverlapIsNesting(a: string, b: string)
    ensures PathsOverlap(a, b) <==> Nested(Segments(a), Segments(b))
  {
    var s, t := Segments(a), Segments(b);
    SegmentsClean(a);
    SegmentsClean(b);
    hide Segments;
    JoinEmpty(s);
    JoinEmpty(t);
    JoinInjective(s, t);
    if s != [] && t != [] {
      JoinedPrefix(s, t, '/');
      JoinedPrefix(t, s, '/');
      hide Join, StartsWith;
      assert s <= t <==> s == t || s < t;
      assert t <= s <==> s == t || t < s;
    }
  }

  /** A normalized path without white space at either end. */
  predicate Plain(path: string) {
    var n := Normalize(path);
    n == "" || (!IsSpace(n[0]) && !IsSpace(n[|n| - 1]))
  }

  lemma NormalizedEnds(segments: seq<string>)
    requires Clean(segments)
    ensures var n := Join(segments, '/'); n == "" || (n[0] != '/' && n[|n| - 1] != '/')
  {
    if segments != [] {
      JoinEdges(segments);
    }
  }

  lemma {:induction false} JoinEdges(segments: seq<string>)
    requires Clean(segments) && segments != []
    ensures var n := Join(segments, '/'); n != "" && n[0] != '/' && n[|n| - 1] != '/'
  {
    assert segments[0] in segments;
    if |segments| > 1 {
      CleanTail(segments);
      JoinEdges(segments[1..]);
    }
  }

  /** Normalizing twice is normalizing once, as long as no white space is left at an end. */
  lemma NormalizeTwice(path: string)
    requires Plain(path)
    ensures Segments(Normalize(path)) == Segments(path)
    ensures Normalize(Normalize(path)) == Normalize(path)
  {
    var n, s := Normalize(path), Segments(path);
    SegmentsClean(path);
    NormalizedEnds(s);
    TrimKeeps(n, Space());
    TrimKeeps(n, Slash());
    JoinEmpty(s);
    if s == [] {
      assert Split(n, '/') == [[]];
      assert Kept([[]]) == [];
    } else {
      JoinSplit(s, '/');
      KeptAll(s);
    }
  }

  lemma {:induction false} KeptShorter(parts: seq<string>)
    ensures |Join(Kept(parts), '/')| <= |Join(parts, '/')|
  {
    if parts != [] {
      KeptShorter(parts[1..]);
      var rest := Kept(parts[1..]);
      if parts[0] != "" && parts[0] != "." {
        assert Kept(parts) == [parts[0]] + rest && ([parts[0]] + rest)[1..] == rest;
        assert rest != [] ==> |parts| > 1;
      } else {
        assert Kept(parts) == rest;
      }
    }
  }

  lemma TrimShorter(s: string, drop: char -> bool)
    ensures |Trim(s, drop)| <= |s|
    ensures s != "" && (drop(s[0]) || drop(s[|s| - 1])) ==> |Trim(s, drop)| < |s|
  {
    var t := TrimStart(s, drop);
    TrimStartSuffix(s, drop);
    TrimEndPrefix(t, drop);
  }

  lemma NormalizeShorter(path: string)
    ensures |Normalize(path)| <= |Trim(path, Space())|
  {
    var t := Trim(Trim(path, Space()), Slash());
    KeptShorter(Split(t, '/'));
    SplitJoin(t, '/');
    TrimShorter(Trim(path, Space()), Slash());
    hide Trim, Split, Join, Kept;
  }

  /** Normalizing again changes nothing exactly for those paths. */
  lemma NormalizeTwiceIff(path: string)
    ensures Normalize(Normalize(path)) == Normalize(path) <==> Plain(path)
  {
    if Plain(path) {
      NormalizeTwice(path);
    } else {
      var n := Normalize(path);
      NormalizeShorter(n);
      TrimShorter(n, Space());
      hide Trim, Normalize, IsSpace;
    }
  }

  /** With white space left at an end it is not: "/ a" becomes " a", and that becomes "a". */
  lemma NormalizeTwiceDiffers()
    ensures Normalize("/ a") == " a" && Normalize(" a") == "a"
  {
    assert Trim("/ a", Space()) == "/ a" && Trim("/ a", Slash()) == " a";
    SplitPlain(" a", '/');
    assert Kept([" a"]) == [" a"];
    TrimSpaceA();
    SplitPlain("a", '/');
    assert Kept(["a"]) == ["a"];
  }

  lemma TrimSpaceA()
    ensures Trim(Trim(" a", Space()), Slash()) == "a"
  {
    assert " a"[1..] == "a";
    assert TrimStart(" a", Space()) == TrimStart("a", Space()) == "a";
  }

  lemma OneSegment(path: string, trimmed: string)
    requires Trim(Trim(path, Space()), Slash()) == trimmed
    requires '/' !in trimmed && trimmed != "" && trimmed != "."
    ensures Segments(path) == [trimmed] && Normalize(path) == trimmed
  {
    SplitPlain(trimmed, '/');
    hide Trim;
    assert Kept([trimmed]) == [trimmed];
  }

  lemma TrailingSpaceKept()
    ensures Segments("a /") == ["a "] && Normalize("a /") == "a "
  {
    assert Trim(Trim("a /", Space()), Slash()) == "a " by {
      assert "a /"[..2] == "a ";
    }
    OneSegment("a /", "a ");
  }

  lemma TrailingSpaceLost()
    ensures Segments("a ") == ["a"] && Normalize("a ") == "a"
  {
    assert Trim(Trim("a ", Space()), Slash()) == "a" by {
      assert "a "[..1] == "a";
    }
    OneSegment("a ", "a");
  }

  lemma InnerSpaceKept()
    ensures Segments("a /b") == ["a ", "b"] && Normalize("a /b") == "a /b"
  {
    assert Trim(Trim("a /b", Space()), Slash()) == "a /b";
    hide Trim;
    SplitAt("a ", '/', "b");
    assert "a " + ['/'] + "b" == "a /b";
    SplitPlain("a ", '/');
    SplitPlain("b", '/');
    assert Split("a /b", '/') == ["a ", "b"];
    KeptAll(["a ", "b"]);
    assert ["a ", "b"][1..] == ["b"];
  }

  /** A folder whose name ends in white space escapes the test: "a /b" lies inside "a /", yet
      once "a /" has been normalized to "a " the test normalizes it again, to "a". */
  lemma NestedUnseen()
    ensures Segments("a /") == ["a "] && Segments("a /b") == ["a ", "b"]
    ensures Nested(Segments("a /"), Segments("a /b"))
    ensures !PathsOverlap(Normalize("a /"), Normalize("a /b"))
  {
    TrailingSpaceKept();
    TrailingSpaceLost();
    InnerSpaceKept();
    hide Segments, Normalize, PathsOverlap;
    OverlapIsNesting("a ", "a /b");
    assert |["a"][0]| != |["a ", "b"][0]|;
  }

  /** A folder name as normalizing its path once more leaves it at the start. */
  function Started(segments: seq<string>, i: nat): string
    requires i < |segments|
  {
    if i == 0 then TrimStart(segments[0], Space()) else segments[i]
  }

  /** The first `n` names after that. */
  function Front(segments: seq<string>, n: nat): seq<string>
    requires n <= |segments|
  {
    if n == 0 then [] else Front(segments, n - 1) + Kept([Started(segments, n - 1)])
  }

  /** The folder names of a normalized path that is normalized again: white space goes at the
      start of the first name and at the end of the last, and with it a name of nothing else. */
  function Again(segments: seq<string>): seq<string> {
    if segments == [] then []
    else
      var last := |segments| - 1;
      Front(segments, last) + Kept([TrimEnd(Started(segments, last), Space())])
  }

  lemma {:induction false} TrimStartJoined(x: string, y: string, drop: char -> bool)
    requires y == "" || !drop(y[0])
    ensures TrimStart(x + y, drop) == TrimStart(x, drop) + y
  {
    if x == "" {
      assert x + y == y;
      TrimStartNothing(y, drop);
    } else if drop(x[0]) {
      assert (x + y)[1..] == x[1..] + y;
      TrimStartJoined(x[1..], y, drop);
    }
  }

  lemma {:induction false} TrimEndJoined(y: string, x: string, drop: char -> bool)
    requires y == "" || !drop(y[|y| - 1])
    ensures TrimEnd(y + x, drop) == y + TrimEnd(x, drop)
  {
    if x == "" {
      assert y + x == y;
    } else if drop(x[|x| - 1]) {
      assert (y + x)[..|y + x| - 1] == y + x[..|x| - 1];
      TrimEndJoined(y, x[..|x| - 1], drop);
    }
  }

  lemma {:induction false} KeptConcat(a: seq<string>, b: seq<string>)
    ensures Kept(a + b) == Kept(a) + Kept(b)
  {
    if a == [] {
      assert a + b == b;
    } else {
      assert (a + b)[1..] == a[1..] + b;
      KeptConcat(a[1..], b);
    }
  }

  /** Slashes at the ends hold no names. */
  lemma {:induction false} StartSlashes(t: string)
    ensures Kept(Split(TrimStart(t, Slash()), '/')) == Kept(Split(t, '/'))
  {
    if t != "" && t[0] == '/' {
      StartSlashes(t[1..]);
      hide Split;
      LeadingSlash(t);
      KeptConcat([""], Split(t[1..], '/'));
    }
  }

  lemma LeadingSlash(t: string)
    requires t != "" && t[0] == '/'
    ensures Split(t, '/') == [""] + Split(t[1..], '/')
  {
  }

  lemma {:induction false} EndSlashes(t: string)
    ensures Kept(Split(TrimEnd(t, Slash()), '/')) == Kept(Split(t, '/'))
  {
    if t != "" && t[|t| - 1] == '/' {
      var u := t[..|t| - 1];
      EndSlashes(u);
      assert t == u + ['/'] + "";
      SplitAt(u, '/', "");
      SplitPlain("", '/');
      hide Split;
      KeptConcat(Split(u, '/'), [""]);
    }
  }

  lemma {:induction false} FrontIs(segments: seq<string>, n: nat)
    requires 0 < n <= |segments|
    ensures Front(segments, n) == Kept([Started(segments, 0)] + segments[1..n])
  {
    if n == 1 {
      assert [Started(segments, 0)] + segments[1..1] == [Started(segments, 0)];
    } else {
      FrontIs(segments, n - 1);
      var a := [Started(segments, 0)] + segments[1..n - 1];
      assert [Started(segments, 0)] + segments[1..n] == a + [segments[n - 1]];
      KeptConcat(a, [segments[n - 1]]);
      hide TrimStart;
    }
  }

  lemma SpaceNoSlash()
    ensures !IsSpace('/')
  {
  }

  /** The text of a path after its white space has been trimmed. */
  lemma TrimJoined(segments: seq<string>)
    requires Clean(segments) && segments != []
    ensures var last := |segments| - 1;
            var ends := (if last == 0 then [] else [Started(segments, 0)] + segments[1..last])
                        + [TrimEnd(Started(segments, last), Space())];
            Trim(Join(segments, '/'), Space()) == Join(ends, '/')
  {
    var last := |segments| - 1;
    var first := Started(segments, 0);
    SpaceNoSlash();
    hide IsSpace, TrimEnd;
    if last == 0 {
      assert [] + [TrimEnd(first, Space())] == [TrimEnd(first, Space())];
    } else {
      var rest := ['/'] + Join(segments[1..], '/');
      assert Join(segments, '/') == segments[0] + rest;
      TrimStartJoined(segments[0], rest, Space());
      var parts := [first] + segments[1..];
      assert parts[1..] == segments[1..];
      assert TrimStart(Join(segments, '/'), Space()) == Join(parts, '/');
      TrimLastJoined([first] + segments[1..last], segments[last]);
      assert [first] + segments[1..last] + [segments[last]] == parts;
    }
  }

  lemma TrimLastJoined(init: seq<string>, last: string)
    requires init != []
    ensures TrimEnd(Join(init + [last], '/'), Space()) == Join(init + [TrimEnd(last, Space())], '/')
  {
    SpaceNoSlash();
    JoinConcat(init, [last], '/');
    JoinConcat(init, [TrimEnd(last, Space())], '/');
    var y := Join(init, '/') + ['/'];
    hide IsSpace, Join;
    TrimEndJoined(y, last, Space());
    assert Join([last], '/') == last && Join([TrimEnd(last, Space())], '/') == TrimEnd(last, Space()) by {
      JoinOne(last);
      JoinOne(TrimEnd(last, Space()));
    }
  }

  lemma JoinOne(part: string)
    ensures Join([part], '/') == part
  {
  }

  lemma StartedPlain(segments: seq<string>, i: nat)
    requires Clean(segments) && i < |segments|
    ensures '/' !in Started(segments, i) && '/' !in TrimEnd(Started(segments, i), Space())
  {
    var u := Started(segments, i);
    assert segments[i] in segments;
    TrimStartSuffix(segments[0], Space());
    TrimEndPrefix(u, Space());
    hide IsSpace, TrimStart, TrimEnd;
    var v := TrimEnd(u, Space());
    assert v == u[..|v|];
  }

  /** What normalizing a normalized path again makes of its folder names. */
  lemma AgainIs(segments: seq<string>)
    requires Clean(segments)
    ensures Segments(Join(segments, '/')) == Again(segments)
  {
    var n := Join(segments, '/');
    if segments == [] {
      assert Split("", '/') == [""] && Kept([""]) == [];
    } else {
      var last := |segments| - 1;
      var init := if last == 0 then [] else [Started(segments, 0)] + segments[1..last];
      var ends := init + [TrimEnd(Started(segments, last), Space())];
      TrimJoined(segments);
      var t := Trim(n, Space());
      StartSlashes(t);
      EndSlashes(TrimStart(t, Slash()));
      EndsPlain(segments);
      hide TrimStart, TrimEnd;
      JoinSplit(ends, '/');
      KeptConcat(init, [TrimEnd(Started(segments, last), Space())]);
      if last != 0 {
        FrontIs(segments, last);
      }
      hide Split, Join;
    }
  }

  lemma EndsPlain(segments: seq<string>)
    requires Clean(segments) && segments != []
    ensures var last := |segments| - 1;
            var init := if last == 0 then [] else [Started(segments, 0)] + segments[1..last];
            Without(init + [TrimEnd(Started(segments, last), Space())], '/')
  {
    var last := |segments| - 1;
    StartedPlain(segments, 0);
    StartedPlain(segments, last);
    if last != 0 {
      assert forall s :: s in segments[1..last] ==> s in segments;
    }
    hide Started;
  }

  /** A name that ends in white space and is still a name without it. Where it ends a path, the
      white space is lost when the path is normalized again; where the path goes on, it is not. */
  predicate Hides(segments: seq<string>, i: nat)
    requires i < |segments|
  {
    var u := Started(segments, i);
    var v := TrimEnd(u, Space());
    u != "" && IsSpace(u[|u| - 1]) && v != "" && v != "."
  }

  lemma TrimEndChanges(u: string)
    ensures TrimEnd(u, Space()) != u <==> u != "" && IsSpace(u[|u| - 1])
  {
    TrimEndPrefix(u, Space());
  }

  lemma {:induction false} FrontAgrees(s: seq<string>, t: seq<string>, n: nat)
    requires n <= |s| && n <= |t| && s[..n] == t[..n]
    ensures Front(s, n) == Front(t, n)
  {
    if n != 0 {
      assert s[..n - 1] == s[..n][..n - 1] && t[..n - 1] == t[..n][..n - 1];
      assert s[n - 1] == s[..n][n - 1] && t[n - 1] == t[..n][n - 1];
      assert s[0] == s[..n][0] && t[0] == t[..n][0];
      FrontAgrees(s, t, n - 1);
    }
  }

  lemma {:induction false} FrontGrows(s: seq<string>, m: nat, n: nat)
    requires m <= n <= |s|
    ensures Front(s, m) <= Front(s, n)
    decreases n
  {
    if m < n {
      FrontGrows(s, m, n - 1);
    }
  }

  /** A path inside another is seen by the test exactly when the outer path does not hide it. */
  lemma InsideSeenIff(s: seq<string>, t: seq<string>)
    requires Clean(s) && Clean(t) && s < t
    ensures Nested(Again(s), Again(t)) <==> s == [] || !Hides(s, |s| - 1)
  {
    if s != [] {
      var k := |s| - 1;
      var u := Started(s, k);
      var v := TrimEnd(u, Space());
      TrimEndChanges(u);
      var tail := AgainPast(s, t);
      hide IsSpace, Front, Started, Clean;
      TailsNested(Front(s, k), u, v, tail);
    }
  }

  /** A longer path normalized again: the last name of the shorter one keeps its white space. */
  lemma AgainPast(s: seq<string>, t: seq<string>) returns (tail: seq<string>)
    requires s != [] && s < t
    ensures Again(t) == Front(s, |s| - 1) + Kept([Started(s, |s| - 1)]) + tail
  {
    var n := |s|;
    assert s[..n] == t[..n];
    FrontAgrees(s, t, n);
    FrontGrows(t, n, |t| - 1);
    var front := Front(s, n);
    assert front == Front(s, n - 1) + Kept([Started(s, n - 1)]);
    hide Front, Started;
    assert front <= Again(t);
    tail := Again(t)[|front|..];
  }

  lemma TailsNested(front: seq<string>, u: string, v: string, tail: seq<string>)
    requires v == TrimEnd(u, Space())
    ensures Nested(front + Kept([v]), front + Kept([u]) + tail) <==> v == u || v == "" || v == "."
  {
    var a, b := front + Kept([v]), front + Kept([u]) + tail;
    DotStays(u);
    hide TrimEnd;
    assert Kept([v]) == if v == "" || v == "." then [] else [v];
    assert Kept([u]) == if u == "" || u == "." then [] else [u];
    hide Kept;
    if v == "" || v == "." || v == u {
      assert a <= b;
    } else {
      assert a[|front|] == v && b[|front|] == u;
    }
  }

  lemma DotStays(u: string)
    ensures u == "" || u == "." ==> TrimEnd(u, Space()) == u
  {
  }

  /** The test on normalized paths, for paths of which one is the other or lies inside it. */
  lemma OverlapSeenIff(a: string, b: string)
    requires Nested(Segments(a), Segments(b))
    ensures var s, t := Segments(a), Segments(b);
            var outer := if |s| <= |t| then s else t;
            PathsOverlap(Normalize(a), Normalize(b)) <==> s == t || outer == [] || !Hides(outer, |outer| - 1)
  {
    var s, t := Segments(a), Segments(b);
    OverlapIsAgain(a, b);
    SegmentsClean(a);
    SegmentsClean(b);
    hide Segments, Again, Hides, PathsOverlap, Clean;
    if s == t {
      assert Nested(Again(s), Again(t));
    } else if |s| <= |t| {
      assert s < t;
      InsideSeenIff(s, t);
    } else {
      assert t < s;
      InsideSeenIff(t, s);
      assert Nested(Again(s), Again(t)) <==> Nested(Again(t), Again(s));
    }
  }

  /** What the test on normalized paths comes to, for all paths. */
  lemma OverlapIsAgain(a: string, b: string)
    ensures PathsOverlap(Normalize(a), Normalize(b)) <==> Nested(Again(Segments(a)), Again(Segments(b)))
  {
    SegmentsClean(a);
    SegmentsClean(b);
    AgainIs(Segments(a));
    AgainIs(Segments(b));
    OverlapIsNesting(Normalize(a), Normalize(b));
    hide Segments, Again, PathsOverlap, Nested;
  }

  /** A path with just these folder names. */
  function PathOf(segments: seq<string>): string {
    "/" + Join(segments, '/') + "/"
  }

  lemma PathOfIs(segments: seq<string>)
    requires Clean(segments)
    ensures Segments(PathOf(segments)) == segments
  {
    var n, path := Join(segments, '/'), PathOf(segments);
    SpaceNoSlash();
    TrimKeeps(path, Space());
    hide IsSpace;
    if segments == [] {
      assert path == "//" && path[1..] == "/" && "/"[1..] == "";
      assert TrimStart(path, Slash()) == TrimStart("/", Slash()) == "";
      assert Split("", '/') == [""] && Kept([""]) == [];
    } else {
      JoinEdges(segments);
      SlashesOff(n);
      JoinSplit(segments, '/');
      KeptAll(segments);
      hide Trim, Split, Join;
    }
  }

  lemma SlashesOff(n: string)
    requires n != "" && n[0] != '/' && n[|n| - 1] != '/'
    ensures Trim("/" + n + "/", Slash()) == n
  {
    var t := n + "/";
    assert "/" + n + "/" == "/" + t && ("/" + t)[1..] == t;
    TrimStartNothing(t, Slash());
    assert TrimStart("/" + t, Slash()) == t;
    assert t[..|t| - 1] == n;
    assert TrimEnd(t, Slash()) == TrimEnd(n, Slash()) == n;
  }

  /** Is some folder around or inside this one that the test does not see? */
  predicate HidesSomewhere(segments: seq<string>) {
    exists i :: 0 <= i < |segments| && Hides(segments, i)
  }

  lemma CleanPrefix(segments: seq<string>, n: nat)
    requires Clean(segments) && n <= |segments|
    ensures Clean(segments[..n])
  {
    assert forall s :: s in segments[..n] ==> s in segments;
  }

  lemma HidesAgrees(s: seq<string>, t: seq<string>, i: nat)
    requires i < |s| && i < |t| && s[..i + 1] == t[..i + 1]
    ensures Hides(s, i) <==> Hides(t, i)
  {
    assert s[i] == s[..i + 1][i] && t[i] == t[..i + 1][i] && s[0] == s[..i + 1][0] && t[0] == t[..i + 1][0];
  }

  /** For a path to overlap some other path without being seen, it is necessary and sufficient
      that one of its names hides what lies inside. */
  lemma HiddenIff(path: string)
    ensures (exists other ::
               Nested(Segments(path), Segments(other)) && !PathsOverlap(Normalize(path), Normalize(other)))
            <==> HidesSomewhere(Segments(path))
  {
    var s := Segments(path);
    SegmentsClean(path);
    if HidesSomewhere(s) {
      var i :| 0 <= i < |s| && Hides(s, i);
      var other := PathOf(HiddenBy(s, i));
      HiddenByIs(path, i);
      hide *;
      assert Nested(Segments(path), Segments(other)) && !PathsOverlap(Normalize(path), Normalize(other));
    } else {
      forall other | Nested(s, Segments(other))
        ensures PathsOverlap(Normalize(path), Normalize(other))
      {
        NothingHidden(path, other);
      }
    }
  }

  lemma NothingHidden(path: string, other: string)
    requires Nested(Segments(path), Segments(other)) && !HidesSomewhere(Segments(path))
    ensures PathsOverlap(Normalize(path), Normalize(other))
  {
    var s, t := Segments(path), Segments(other);
    OverlapSeenIff(path, other);
    hide Segments, PathsOverlap, Hides;
    if t != [] && t < s {
      HidesAgrees(t, s, |t| - 1);
    }
  }

  /** The folder that name `i` hides: what it names itself, or if it ends the path, what lies inside. */
  function HiddenBy(segments: seq<string>, i: nat): seq<string>
    requires i < |segments|
  {
    if i + 1 < |segments| then segments[..i + 1] else segments + ["b"]
  }

  lemma HiddenByClean(segments: seq<string>, i: nat)
    requires Clean(segments) && i < |segments|
    ensures Clean(HiddenBy(segments, i))
  {
    CleanPrefix(segments, i + 1);
    assert |"b"| == 1 && "b"[0] != "."[0] && '/' !in "b";
    forall s | s in segments + ["b"]
      ensures s in segments || s == "b"
    {
    }
  }

  lemma HiddenByNames(segments: seq<string>, i: nat)
    requires i < |segments|
    ensures forall x :: x in HiddenBy(segments, i) ==> x in segments || x == "b"
  {
  }

  lemma HiddenByIs(path: string, i: nat)
    requires i < |Segments(path)| && Hides(Segments(path), i)
    ensures var other := PathOf(HiddenBy(Segments(path), i));
            && Segments(other) == HiddenBy(Segments(path), i)
            && Nested(Segments(path), Segments(other)) && !PathsOverlap(Normalize(path), Normalize(other))
  {
    var s := Segments(path);
    var t := HiddenBy(s, i);
    SegmentsClean(path);
    HiddenByClean(s, i);
    HiddenByOuter(s, i);
    PathOfIs(t);
    OverlapSeenIff(path, PathOf(t));
    hide Segments, PathsOverlap, Hides, PathOf, Normalize, HiddenBy, Clean;
  }

  lemma HiddenByOuter(s: seq<string>, i: nat)
    requires i < |s| && Hides(s, i)
    ensures var t := HiddenBy(s, i);
            var outer := if |s| <= |t| then s else t;
            Nested(s, t) && s != t && outer != [] && Hides(outer, |outer| - 1)
  {
    hide Hides;
    if i + 1 < |s| {
      var t := s[..i + 1];
      assert t[..i + 1] == s[..i + 1];
      HidesAgrees(t, s, i);
    }
  }

  predicate StartsBlank(segments: seq<string>) {
    segments != [] && segments[0] != "" && IsSpace(segments[0][0])
  }

  /** The test of a folder `t`, normalized once and for all, against one that is normalized again. */
  ghost predicate OnceHidden(s: seq<string>, t: seq<string>) {
    Clean(s) && Nested(s, t) && !Nested(Again(s), t)
  }

  /** There, a blank start hides what lies inside as well. */
  lemma OnceHiddenIff(t: seq<string>)
    requires Clean(t)
    ensures (exists s :: OnceHidden(s, t)) <==> StartsBlank(t) || HidesSomewhere(t)
  {
    if StartsBlank(t) || HidesSomewhere(t) {
      var s := OnceHider(t);
    } else {
      forall s
        ensures !OnceHidden(s, t)
      {
        if Clean(s) && Nested(s, t) {
          OnceSeen(s, t);
        }
      }
    }
  }

  lemma OnceHider(t: seq<string>) returns (s: seq<string>)
    requires Clean(t) && (StartsBlank(t) || HidesSomewhere(t))
    ensures OnceHidden(s, t) && forall x :: x in s ==> x in t || x == "b" || x == "c"
  {
    if StartsBlank(t) {
      BlankHides(t);
      s := t + [Unlike(t)];
    } else {
      var i :| 0 <= i < |t| && Hides(t, i);
      NameHides(t, i);
      s := t[..i + 1];
    }
  }

  /** A name other than the last one. */
  function Unlike(segments: seq<string>): string {
    if segments != [] && segments[|segments| - 1] == "b" then "c" else "b"
  }

  lemma UnlikeIs(segments: seq<string>)
    requires Clean(segments)
    ensures Clean(segments + [Unlike(segments)]) && TrimEnd(Unlike(segments), Space()) == Unlike(segments)
    ensures segments != [] ==> segments[|segments| - 1] != Unlike(segments)
  {
    var x := Unlike(segments);
    assert "b"[0] != "c"[0] && "b"[0] != "."[0] && "c"[0] != "."[0];
    forall s | s in segments + [x]
      ensures s in segments || s == x
    {
    }
  }

  lemma BlankHides(t: seq<string>)
    requires Clean(t) && StartsBlank(t)
    ensures OnceHidden(t + [Unlike(t)], t)
  {
    var x := Unlike(t);
    var s, k := t + [x], |t|;
    UnlikeIs(t);
    FrontIs(s, k);
    TrimStartSuffix(t[0], Space());
    assert Started(s, 0) != t[0];
    assert s[1..k] == t[1..];
    CleanTail(t);
    LastClean(t, x);
    hide IsSpace, TrimStart, TrimEnd, Front, Unlike, Clean, Kept;
    KeptConcat([Started(s, 0)], t[1..]);
    KeptAll(t[1..]);
    KeptAll([x]);
    assert Started(s, k) == x;
    assert Again(s) == Kept([Started(s, 0)]) + t[1..] + [x];
    hide Again;
    FirstDiffers(Started(s, 0), t, x);
  }

  lemma LastClean(t: seq<string>, x: string)
    requires Clean(t + [x])
    ensures Clean([x])
  {
    assert x in t + [x];
  }

  lemma FirstDiffers(u: string, t: seq<string>, x: string)
    requires t != [] && u != t[0] && x != t[|t| - 1]
    ensures !Nested(Kept([u]) + t[1..] + [x], t)
  {
    var a := Kept([u]) + t[1..] + [x];
    if Kept([u]) == [] {
      assert |a| == |t| && a[|a| - 1] == x;
    } else {
      assert Kept([u]) == [u] && a[0] == u;
    }
  }

  lemma NameHides(t: seq<string>, i: nat)
    requires Clean(t) && !StartsBlank(t) && i < |t| && Hides(t, i)
    ensures OnceHidden(t[..i + 1], t)
  {
    var s := t[..i + 1];
    CleanPrefix(t, i + 1);
    HidesAgrees(s, t, i);
    FrontPlain(s, i);
    var v := TrimEnd(Started(s, i), Space());
    TrimEndChanges(Started(s, i));
    StartedSame(s, i);
    hide IsSpace, TrimEnd, Started, Front, StartsBlank;
    assert Kept([v]) == [v];
    assert Again(s) == s[..i] + [v];
    assert s[i] == t[i] && Again(s)[i] == v;
  }

  lemma StartedSame(s: seq<string>, i: nat)
    requires Clean(s) && !StartsBlank(s) && i < |s|
    ensures Started(s, i) == s[i]
  {
    assert s[0] in s;
    TrimStartNothing(s[0], Space());
  }

  lemma FrontPlain(s: seq<string>, n: nat)
    requires Clean(s) && !StartsBlank(s) && n <= |s|
    ensures Front(s, n) == s[..n]
  {
    if n != 0 {
      FrontIs(s, n);
      StartedSame(s, 0);
      assert [s[0]] + s[1..n] == s[..n];
      CleanPrefix(s, n);
      KeptAll(s[..n]);
    }
  }

  lemma OnceSeen(s: seq<string>, t: seq<string>)
    requires Clean(s) && Clean(t) && Nested(s, t) && !StartsBlank(t) && !HidesSomewhere(t)
    ensures Nested(Again(s), t)
  {
    if s != [] && t != [] {
      var k := |s| - 1;
      var u := Started(s, k);
      var v := TrimEnd(u, Space());
      assert s[0] == t[0];
      FrontPlain(s, k);
      StartedSame(s, k);
      TrimEndChanges(u);
      if s <= t {
        assert s == t[..k + 1];
        HidesAgrees(s, t, k);
      }
      hide IsSpace, TrimEnd, Started, Front, StartsBlank, HidesSomewhere;
      LastDropped(s, t, v);
    }
  }

  lemma LastDropped(s: seq<string>, t: seq<string>, v: string)
    requires s != [] && Clean(s) && Nested(s, t)
    requires s <= t ==> v == s[|s| - 1] || v == "" || v == "."
    ensures Nested(s[..|s| - 1] + Kept([v]), t)
  {
    var a := s[..|s| - 1] + Kept([v]);
    if s <= t {
      assert s[|s| - 1] in s;
      assert Kept([v]) == if v == "" || v == "." then [] else [v];
      assert a == s || a == s[..|s| - 1];
    } else {
      assert t <= s[..|s| - 1];
    }
  }
}
