/** Splitting at a separator and joining again, for characters and for bytes, and trimming. */
module Text {

  /** As `str::split` and `strings.Split` do it: n separators give n + 1 parts. */
  function Split<T(==)>(s: seq<T>, sep: T): (parts: seq<seq<T>>)
    ensures parts != []
  {
    if s == [] then [[]]
    else
      var parts := Split(s[1..], sep);
      if s[0] == sep then [[]] + parts else [[s[0]] + parts[0]] + parts[1..]
  }

  function Join<T>(parts: seq<seq<T>>, sep: T): seq<T> {
    if parts == [] then []
    else if |parts| == 1 then parts[0]
    else parts[0] + [sep] + Join(parts[1..], sep)
  }

  lemma Regroup<T>(a: seq<T>, b: seq<T>, c: seq<T>)
    ensures a + b + c == a + (b + c)
  {
  }

  predicate Without<T(==)>(parts: seq<seq<T>>, sep: T) {
    forall part :: part in parts ==> sep !in part
  }

  /** Splitting loses nothing, and no part holds the separator. */
  lemma {:induction false} SplitJoin<T>(s: seq<T>, sep: T)
    ensures Join(Split(s, sep), sep) == s
    ensures Without(Split(s, sep), sep)
  {
    if s != [] {
      var parts := Split(s[1..], sep);
      SplitJoin(s[1..], sep);
      if s[0] == sep {
        assert ([[]] + parts)[1..] == parts;
      } else {
        assert parts[0] in parts;
        assert ([[s[0]] + parts[0]] + parts[1..])[1..] == parts[1..];
      }
    }
  }

  lemma {:induction false} SplitPlain<T>(s: seq<T>, sep: T)
    requires sep !in s
    ensures Split(s, sep) == [s]
  {
    if s != [] {
      SplitPlain(s[1..], sep);
      assert s == [s[0]] + s[1..];
    }
  }

  lemma {:induction false} SplitAt<T>(x: seq<T>, sep: T, y: seq<T>)
    ensures Split(x + [sep] + y, sep) == Split(x, sep) + Split(y, sep)
  {
    if x == [] {
      assert x + [sep] + y == [sep] + y;
      assert ([sep] + y)[1..] == y;
    } else {
      assert (x + [sep] + y)[1..] == x[1..] + [sep] + y;
      SplitAt(x[1..], sep, y);
      var p := Split(x[1..], sep);
      SplitAtHead(p, Split(y, sep), x[0]);
    }
  }

  lemma SplitAtHead<T>(p: seq<seq<T>>, q: seq<seq<T>>, c: T)
    requires p != []
    ensures [[]] + (p + q) == ([[]] + p) + q
    ensures [[c] + (p + q)[0]] + (p + q)[1..] == ([[c] + p[0]] + p[1..]) + q
  {
    assert (p + q)[1..] == p[1..] + q;
  }

  /** Joining parts that do not hold the separator can be undone. */
  lemma {:induction false} JoinSplit<T>(parts: seq<seq<T>>, sep: T)
    requires parts != [] && Without(parts, sep)
    ensures Split(Join(parts, sep), sep) == parts
  {
    assert parts[0] in parts;
    SplitPlain(parts[0], sep);
    if |parts| == 1 {
      assert parts == [parts[0]];
    } else {
      assert forall part :: part in parts[1..] ==> part in parts;
      JoinSplit(parts[1..], sep);
      SplitAt(parts[0], sep, Join(parts[1..], sep));
      assert [parts[0]] + parts[1..] == parts;
    }
  }

  lemma {:induction false} JoinConcat<T>(a: seq<seq<T>>, b: seq<seq<T>>, sep: T)
    requires a != [] && b != []
    ensures Join(a + b, sep) == Join(a, sep) + [sep] + Join(b, sep)
  {
    if |a| == 1 {
      assert (a + b)[1..] == b;
    } else {
      assert (a + b)[1..] == a[1..] + b;
      JoinConcat(a[1..], b, sep);
      assert a[0] + [sep] + (Join(a[1..], sep) + [sep] + Join(b, sep))
          == (a[0] + [sep] + Join(a[1..], sep)) + [sep] + Join(b, sep);
    }
  }

  predicate StartsWith<T(==)>(s: seq<T>, prefix: seq<T>) {
    prefix <= s
  }

  /** One joined path starts with another plus a separator exactly when its parts properly
      extend the other's parts. */
  lemma JoinedPrefix<T>(s: seq<seq<T>>, t: seq<seq<T>>, sep: T)
    requires s != [] && t != [] && Without(s, sep) && Without(t, sep)
    ensures StartsWith(Join(s, sep), Join(t, sep) + [sep]) <==> t < s
  {
    JoinSplit(s, sep);
    JoinSplit(t, sep);
    var js, jt := Join(s, sep), Join(t, sep);
    if StartsWith(js, jt + [sep]) {
      var rest := js[|jt| + 1..];
      assert js == jt + [sep] + rest;
      SplitAt(jt, sep, rest);
    }
    if t < s {
      assert s == t + s[|t|..];
      JoinConcat(t, s[|t|..], sep);
    }
  }

  /** White space as `char::is_whitespace` has it. */
  predicate IsSpace(c: char) {
    c == ' ' || '\t' <= c <= '\r' || c == '\U{0085}' || c == '\U{00A0}' || c == '\U{1680}'
    || '\U{2000}' <= c <= '\U{200A}' || c == '\U{2028}' || c == '\U{2029}' || c == '\U{202F}'
    || c == '\U{205F}' || c == '\U{3000}'
  }

  /** The 25 characters of the Unicode property White_Space, by their numbers. */
  lemma WhiteSpaceIs(c: char)
    ensures IsSpace(c) <==>
              c as int in {9, 10, 11, 12, 13, 32, 133, 160, 5760, 8192, 8193, 8194, 8195, 8196, 8197, 8198, 8199, 8200,
                           8201, 8202, 8232, 8233, 8239, 8287, 12288}
  {
  }

  function TrimStart(s: string, drop: char -> bool): string {
    if s != [] && drop(s[0]) then TrimStart(s[1..], drop) else s
  }

  function TrimEnd(s: string, drop: char -> bool): string {
    if s != [] && drop(s[|s| - 1]) then TrimEnd(s[..|s| - 1], drop) else s
  }

  function Trim(s: string, drop: char -> bool): string {
    TrimEnd(TrimStart(s, drop), drop)
  }

  function Space(): char -> bool {
    c => IsSpace(c)
  }

  function Slash(): char -> bool {
    c => c == '/'
  }

  lemma TrimKeeps(s: string, drop: char -> bool)
    requires s == "" || (!drop(s[0]) && !drop(s[|s| - 1]))
    ensures Trim(s, drop) == s
  {
  }

  lemma {:induction false} TrimStartSuffix(s: string, drop: char -> bool)
    ensures |TrimStart(s, drop)| <= |s| && TrimStart(s, drop) == s[|s| - |TrimStart(s, drop)|..]
    ensures TrimStart(s, drop) == "" || !drop(TrimStart(s, drop)[0])
    ensures forall c :: c in TrimStart(s, drop) ==> c in s
  {
    if s != [] && drop(s[0]) {
      TrimStartSuffix(s[1..], drop);
    }
  }

  lemma {:induction false} TrimEndPrefix(s: string, drop: char -> bool)
    ensures TrimEnd(s, drop) <= s
    ensures TrimEnd(s, drop) == "" || !drop(TrimEnd(s, drop)[|TrimEnd(s, drop)| - 1])
  {
    if s != [] && drop(s[|s| - 1]) {
      TrimEndPrefix(s[..|s| - 1], drop);
    }
  }

  lemma TrimStartNothing(s: string, drop: char -> bool)
    requires s == "" || !drop(s[0])
    ensures TrimStart(s, drop) == s
  {
  }
}
