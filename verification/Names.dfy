/** How Luna Desktop picks the name of a file it sets aside: the conflict name of
    a path, its numbered siblings, and the search for the first free one. */
module Names {
  import opened Text


  /** Position of the last `c` in `s`, or -1. */
  function LastIndex(s: string, c: char): (i: int)
    ensures -1 <= i < |s|
    ensures 0 <= i ==> s[i] == c && c !in s[i + 1..]
    ensures i == -1 ==> c !in s
  {
    if s == [] then -1
    else if s[|s| - 1] == c then |s| - 1
    else
      var i := LastIndex(s[..|s| - 1], c);
      assert s == s[..|s| - 1] + [s[|s| - 1]];
      i
  }

  /** Everything up to and including the last '/'. */
  function Folder(path: string): string {
    path[..LastIndex(path, '/') + 1]
  }

  function FileName(path: string): string {
    path[LastIndex(path, '/') + 1..]
  }

  /** `Path::file_stem`: a dot in first place starts a hidden name, not an extension. */
  function Stem(file: string): string {
    var i := LastIndex(file, '.');
    if i <= 0 then file else file[..i]
  }

  /** `Path::extension` with its dot, or "" when there is none. */
  function Ext(file: string): string {
    var i := LastIndex(file, '.');
    if i <= 0 then "" else file[i..]
  }

  const MARK: string := " (conflict from this computer)"

  function Digit(d: nat): char
    requires d < 10
  {
    "0123456789"[d]
  }

  function Decimal(n: nat): string {
    if n < 10 then [Digit(n)] else Decimal(n / 10) + [Digit(n % 10)]
  }

  predicate IsDigit(c: char) {
    '0' <= c <= '9'
  }

  /** `conflict_path(path, "this computer")`. */
  function ConflictName(path: string): string {
    Folder(path) + Stem(FileName(path)) + MARK + Ext(FileName(path))
  }

  /** The n-th name tried for a file: the name itself, then "stem 2.ext", "stem 3.ext", ... */
  function Sibling(path: string, n: nat): string {
    if n <= 1 then path
    else Folder(path) + Stem(FileName(path)) + " " + Decimal(n) + Ext(FileName(path))
  }

  /** The first number from `n` on whose sibling is not taken: the search tries one number
      after the other, and each number is tried only once. */
  function FirstFree(taken: set<string>, path: string, n: nat): (m: nat)
    ensures n <= m
    decreases |taken|
  {
    if Sibling(path, n) !in taken then n
    else FirstFree(taken - {Sibling(path, n)}, path, n + 1)
  }

  function FreeSibling(taken: set<string>, path: string): string {
    Sibling(path, FirstFree(taken, path, 1))
  }

  lemma {:induction false} DecimalDigits(n: nat)
    ensures 0 < |Decimal(n)|
    ensures forall i :: 0 <= i < |Decimal(n)| ==> IsDigit(Decimal(n)[i])
  {
    if 10 <= n {
      DecimalDigits(n / 10);
    }
  }

  lemma {:induction false} DecimalInjective(n: nat, m: nat)
    requires Decimal(n) == Decimal(m)
    ensures n == m
  {
    if 10 <= n {
      DecimalDigits(n / 10);
    }
    if 10 <= m {
      DecimalDigits(m / 10);
    }
    if 10 <= n && 10 <= m {
      var a, b := Decimal(n / 10), Decimal(m / 10);
      assert Decimal(n)[..|a|] == a && Decimal(m)[..|b|] == b;
      assert Decimal(n)[|a|] == Decimal(m)[|b|];
      DecimalInjective(n / 10, m / 10);
    }
  }

  lemma SplitPath(path: string)
    ensures path == Folder(path) + FileName(path)
    ensures FileName(path) == Stem(FileName(path)) + Ext(FileName(path))
    ensures '/' !in FileName(path)
  {
    SplitFile(FileName(path));
    hide Stem, Ext;
  }

  lemma SplitFile(file: string)
    ensures file == Stem(file) + Ext(file)
  {
  }

  lemma CancelEnds(a: string, x: string, y: string, b: string)
    requires a + x + b == a + y + b
    ensures x == y
  {
    assert |x| == |y|;
    assert (a + x + b)[|a|..|a| + |x|] == x;
    assert (a + y + b)[|a|..|a| + |y|] == y;
  }

  /** Two numbers never give the same sibling, so the search for a free one ends. */
  lemma SiblingInjective(path: string, n: nat, m: nat)
    requires 1 <= n < m
    ensures Sibling(path, n) != Sibling(path, m)
  {
    SplitPath(path);
    DecimalDigits(m);
    SiblingText(path, m);
    SiblingText(path, n);
    hide *;
    var a, b := Folder(path) + Stem(FileName(path)), Ext(FileName(path));
    if n <= 1 {
      assert |Sibling(path, m)| > |a + b|;
    } else if Sibling(path, n) == Sibling(path, m) {
      NumberedInjective(a, b, n, m);
    }
  }

  lemma SiblingText(path: string, n: nat)
    ensures var a, b := Folder(path) + Stem(FileName(path)), Ext(FileName(path));
            Sibling(path, n) == if n <= 1 then a + b else a + " " + Decimal(n) + b
  {
    SplitPath(path);
    hide Folder, FileName, Stem, Ext;
    assert Folder(path) + (Stem(FileName(path)) + Ext(FileName(path)))
        == Folder(path) + Stem(FileName(path)) + Ext(FileName(path));
  }

  lemma NumberedInjective(a: string, b: string, n: nat, m: nat)
    requires a + " " + Decimal(n) + b == a + " " + Decimal(m) + b
    ensures n == m
  {
    CancelEnds(a + " ", Decimal(n), Decimal(m), b);
    DecimalInjective(n, m);
  }

  /** The number found is free, and every number tried before it was taken. */
  lemma {:induction false} FirstFreeIs(taken: set<string>, path: string, n: nat)
    requires 1 <= n
    ensures Sibling(path, FirstFree(taken, path, n)) !in taken
    ensures forall k :: n <= k < FirstFree(taken, path, n) ==> Sibling(path, k) in taken
    decreases |taken|
  {
    hide Sibling;
    if Sibling(path, n) in taken {
      var rest := taken - {Sibling(path, n)};
      FirstFreeIs(rest, path, n + 1);
      SiblingInjective(path, n, FirstFree(rest, path, n + 1));
    }
  }

  lemma FreeSiblingIs(taken: set<string>, path: string)
    ensures FreeSibling(taken, path) !in taken
    ensures exists k :: 1 <= k && FreeSibling(taken, path) == Sibling(path, k)
  {
    FirstFreeIs(taken, path, 1);
  }

  function Tail(n: nat): string {
    if n <= 1 then "" else " " + Decimal(n)
  }

  lemma LastIndexIs(s: string, c: char, i: int)
    requires -1 <= i < |s|
    requires 0 <= i ==> s[i] == c
    requires forall k :: i < k < |s| ==> s[k] != c
    ensures LastIndex(s, c) == i
  {
    var j := LastIndex(s, c);
    assert forall k :: j < k < |s| ==> s[k] == s[j + 1..][k - j - 1];
  }

  /** Text that does not hold the character does not move its last position. */
  lemma {:induction false} LastIndexKept(s: string, text: string, c: char)
    requires c !in text
    ensures LastIndex(s + text, c) == LastIndex(s, c)
  {
    if text == "" {
      assert s + text == s;
    } else {
      var n := |text| - 1;
      assert (s + text)[..|s + text| - 1] == s + text[..n];
      assert text[n] in text;
      LastIndexKept(s, text[..n], c);
    }
  }

  lemma NotAfterLast(s: string, c: char, k: nat)
    requires LastIndex(s, c) < k < |s|
    ensures s[k] != c
  {
    var i := LastIndex(s, c);
    hide LastIndex;
    assert s[i + 1..][k - i - 1] == s[k];
  }

  lemma FolderOf(folder: string, file: string)
    requires folder == "" || folder[|folder| - 1] == '/'
    requires '/' !in file
    ensures Folder(folder + file) == folder && FileName(folder + file) == file
  {
    LastIndexIs(folder + file, '/', |folder| - 1);
  }

  lemma StemOf(stem: string, ext: string)
    requires ext == "" ==> LastIndex(stem, '.') <= 0
    requires ext != "" ==> stem != "" && ext[0] == '.' && '.' !in ext[1..]
    ensures Stem(stem + ext) == stem && Ext(stem + ext) == ext
  {
    if ext == "" {
      assert stem + ext == stem;
    } else {
      assert forall k :: 0 < k < |ext| ==> ext[k] == ext[1..][k - 1];
      LastIndexIs(stem + ext, '.', |stem|);
    }
  }

  /** Text placed between the stem and the extension of a file name. */
  function Marked(file: string, text: string): string {
    Stem(file) + text + Ext(file)
  }

  /** Text without a dot does not move the split between stem and extension. */
  lemma StemGrows(file: string, text: string)
    requires '.' !in text && text != ""
    ensures Stem(Marked(file, text)) == Stem(file) + text
    ensures Ext(Marked(file, text)) == Ext(file)
  {
    var i := LastIndex(file, '.');
    if i <= 0 {
      LastIndexKept(file, text, '.');
    } else {
      assert Ext(file)[1..] == file[i + 1..];
    }
    StemOf(Stem(file) + text, Ext(file));
  }

  lemma MarkedTwice(file: string, a: string, b: string)
    requires '.' !in a && a != ""
    ensures Marked(Marked(file, a), b) == Marked(file, a + b)
  {
    StemGrows(file, a);
    Regroup(Stem(file), a, b);
  }

  lemma TailShape(n: nat)
    ensures n <= 1 ==> Tail(n) == ""
    ensures 1 < n ==> 1 < |Tail(n)| && Tail(n)[0] == ' '
    ensures forall i :: 0 < i < |Tail(n)| ==> IsDigit(Tail(n)[i])
    ensures '/' !in Tail(n) && '.' !in Tail(n)
  {
    DecimalDigits(n);
  }

  lemma SiblingMarked(path: string, n: nat)
    ensures Sibling(path, n) == Folder(path) + Marked(FileName(path), Tail(n))
  {
    var dir, stem, ext := Folder(path), Stem(FileName(path)), Ext(FileName(path));
    if n <= 1 {
      SplitPath(path);
      assert stem + "" == stem;
    } else {
      RegroupFive(dir, stem, " ", Decimal(n), ext);
    }
    hide Folder, FileName, Stem, Ext, Decimal;
  }

  lemma RegroupFive(a: string, b: string, c: string, d: string, e: string)
    ensures a + b + c + d + e == a + (b + (c + d) + e)
  {
    Regroup(a, b, c);
    Regroup(b, c, d);
    Regroup(a, b + c, d);
    Regroup(a, b + c + d, e);
  }

  /** The conflict name: the folder stays, the file part gets the mark. */
  lemma ConflictNameParts(path: string, mark: string)
    requires mark == MARK
    ensures Folder(ConflictName(path)) == Folder(path)
    ensures FileName(ConflictName(path)) == Marked(FileName(path), mark)
  {
    var dir, file := Folder(path), FileName(path);
    assert '.' !in mark && '/' !in mark && mark != "";
    assert ConflictName(path) == dir + Stem(file) + mark + Ext(file);
    SplitPath(path);
    FolderEnd(path);
    hide *;
    MarkedPlain(file, mark);
    FolderOf(dir, Marked(file, mark));
    MarkedAppend(dir, file, mark);
  }

  lemma FolderEnd(path: string)
    ensures Folder(path) == "" || Folder(path)[|Folder(path)| - 1] == '/'
  {
  }

  lemma MarkedPlain(file: string, text: string)
    requires '/' !in file && '/' !in text
    ensures '/' !in Marked(file, text)
  {
  }

  lemma MarkedAppend(dir: string, file: string, text: string)
    ensures dir + Stem(file) + text + Ext(file) == dir + Marked(file, text)
  {
    hide Stem, Ext;
  }

  /** The n-th conflict name: the folder stays, the file part gets the mark and the number. */
  lemma ConflictParts(path: string, mark: string, n: nat)
    requires mark == MARK
    ensures Folder(Sibling(ConflictName(path), n)) == Folder(path)
    ensures FileName(Sibling(ConflictName(path), n)) == Marked(FileName(path), mark + Tail(n))
  {
    assert '.' !in mark && mark != "" && '/' !in mark;
    ConflictNameParts(path, mark);
    hide *;
    var dir, file := Folder(path), FileName(path);
    SiblingMarked(ConflictName(path), n);
    MarkedTwice(file, mark, Tail(n));
    TailShape(n);
    SplitPath(path);
    FolderEnd(path);
    MarkedPlain(file, mark + Tail(n));
    FolderOf(dir, Marked(file, mark + Tail(n)));
  }

  lemma CancelTail(a: string, x: string, b: string, y: string)
    requires a + x == b + y && |x| == |y|
    ensures a == b && x == y
  {
    assert (a + x)[..|a|] == a && (b + y)[..|b|] == b;
    assert (a + x)[|a|..] == x && (b + y)[|b|..] == y;
  }

  /** The ')' that closes the mark cannot fall inside a longer number. */
  lemma MarkPlace(s: string, n: nat, t: string, m: nat, mark: string)
    requires mark != "" && mark[|mark| - 1] == ')'
    requires |Tail(n)| < |Tail(m)|
    ensures s + (mark + Tail(n)) != t + (mark + Tail(m))
  {
    TailShape(m);
    var a, b := s + (mark + Tail(n)), t + (mark + Tail(m));
    var i := |s| + |mark| - 1;
    assert a[i] == ')';
    assert |a| == |b| ==> b[i] == Tail(m)[i - |t| - |mark|];
  }

  lemma ConflictStems(s: string, n: nat, t: string, m: nat, mark: string)
    requires mark != "" && mark[|mark| - 1] == ')'
    requires 1 <= n && 1 <= m
    requires s + (mark + Tail(n)) == t + (mark + Tail(m))
    ensures s == t && n == m
  {
    if |Tail(n)| < |Tail(m)| {
      MarkPlace(s, n, t, m, mark);
    } else if |Tail(m)| < |Tail(n)| {
      MarkPlace(t, m, s, n, mark);
    } else {
      CancelTail(s, mark + Tail(n), t, mark + Tail(m));
      CancelTail(mark, Tail(n), mark, Tail(m));
      TailInjective(n, m);
    }
  }

  lemma TailInjective(n: nat, m: nat)
    requires 1 <= n && 1 <= m
    requires Tail(n) == Tail(m)
    ensures n == m
  {
    TailShape(n);
    TailShape(m);
    if 1 < n {
      CancelTail(" ", Decimal(n), " ", Decimal(m));
      DecimalInjective(n, m);
    }
  }

  /** Distinct files never compete for a conflict name, whatever numbers they get. */
  lemma ConflictNamesApart(p: string, q: string, n: nat, m: nat)
    requires 1 <= n && 1 <= m
    ensures Sibling(ConflictName(p), n) == Sibling(ConflictName(q), m) ==> p == q && n == m
  {
    var mark := MARK;
    assert mark != "" && mark[|mark| - 1] == ')';
    ConflictFileParts(p, mark, n);
    ConflictFileParts(q, mark, m);
    hide *;
    MarkedApart(p, n, Sibling(ConflictName(p), n), q, m, Sibling(ConflictName(q), m), mark);
  }

  /** A marked and numbered name gives its path and its number back. */
  lemma MarkedApart(p: string, n: nat, a: string, q: string, m: nat, b: string, mark: string)
    requires mark != "" && mark[|mark| - 1] == ')'
    requires 1 <= n && 1 <= m
    requires Folder(a) == Folder(p) && Ext(FileName(a)) == Ext(FileName(p))
    requires Stem(FileName(a)) == Stem(FileName(p)) + (mark + Tail(n))
    requires Folder(b) == Folder(q) && Ext(FileName(b)) == Ext(FileName(q))
    requires Stem(FileName(b)) == Stem(FileName(q)) + (mark + Tail(m))
    ensures a == b ==> p == q && n == m
  {
    SplitPath(p);
    SplitPath(q);
    hide Folder, FileName, Stem, Ext, Tail;
    if a == b {
      ConflictStems(Stem(FileName(p)), n, Stem(FileName(q)), m, mark);
    }
  }

  lemma ConflictFileParts(path: string, mark: string, n: nat)
    requires mark == MARK
    ensures Folder(Sibling(ConflictName(path), n)) == Folder(path)
    ensures Stem(FileName(Sibling(ConflictName(path), n))) == Stem(FileName(path)) + (mark + Tail(n))
    ensures Ext(FileName(Sibling(ConflictName(path), n))) == Ext(FileName(path))
  {
    assert '.' !in mark && mark != "";
    ConflictParts(path, mark, n);
    hide *;
    TailShape(n);
    StemGrows(FileName(path), mark + Tail(n));
  }

  /** The search only depends on which of its own candidates are taken. */
  lemma FreeSiblingAgrees(s: set<string>, t: set<string>, path: string)
    requires forall k :: 1 <= k ==> (Sibling(path, k) in s <==> Sibling(path, k) in t)
    ensures FreeSibling(s, path) == FreeSibling(t, path)
  {
    FirstFreeIs(s, path, 1);
    FirstFreeIs(t, path, 1);
    hide Sibling, FirstFree;
    var a, b := FirstFree(s, path, 1), FirstFree(t, path, 1);
    assert Sibling(path, a) !in t && Sibling(path, b) !in s;
  }

  /** The mark and the number go between the stem of the file name and its extension; the first candidate is the
      name itself. */
  lemma NamesAreMarked(folder: string, stem: string, ext: string, n: nat)
    requires folder == "" || folder[|folder| - 1] == '/'
    requires '/' !in stem && '/' !in ext
    requires ext == "" ==> LastIndex(stem, '.') <= 0
    requires ext != "" ==> stem != "" && ext[0] == '.' && '.' !in ext[1..]
    ensures ConflictName(folder + (stem + ext)) == folder + stem + " (conflict from this computer)" + ext
    ensures Sibling(folder + (stem + ext), n)
         == if n < 2 then folder + (stem + ext) else folder + stem + " " + Decimal(n) + ext
  {
    FolderOf(folder, stem + ext);
    StemOf(stem, ext);
    hide Folder, FileName, Stem, Ext, Decimal, LastIndex;
  }
}
