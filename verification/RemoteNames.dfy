/** Names that come from Luna: the walk over its folders, the join under the sync folder, and
    the encoding of a path in a request. */
module RemoteNames {
  import opened Options
  import opened Text

  /** A listed entry. `listed` is false when the folder's own listing fails. */
  datatype Entry =
    | Dir(name: string, listed: bool, entries: seq<Entry>)
    | File(name: string)
    | Other(name: string)

  /** `valid_remote_name`. */
  predicate ValidName(name: string) {
    && name != "" && name != "." && name != ".."
    && '/' !in name && '\\' !in name && '\0' !in name
  }

  predicate Hidden(name: string) {
    name != "" && name[0] == '.'
  }

  function Child(parent: string, name: string): string {
    if parent == "" then name else parent + "/" + name
  }

  /** A file found: its path below the synced folder and on the drive. */
  datatype Found = Found(rel: string, abs: string)

  /** `walk_remote_rec` on the entries of one folder; one bad name refuses the whole walk. */
  function Walk(abs: string, rel: string, entries: seq<Entry>): Option<seq<Found>>
    decreases entries
  {
    if entries == [] then Some([])
    else
      match WalkEntry(abs, rel, entries[0])
      case None => None
      case Some(first) =>
        match Walk(abs, rel, entries[1..])
        case None => None
        case Some(rest) => Some(first + rest)
  }

  function WalkEntry(abs: string, rel: string, e: Entry): Option<seq<Found>>
    decreases e
  {
    if Hidden(e.name) then Some([])
    else if !ValidName(e.name) then None
    else
      match e
      case Dir(name, listed, entries) => if listed then Walk(Child(abs, name), Child(rel, name), entries) else None
      case File(name) => Some([Found(Child(rel, name), Child(abs, name))])
      case Other(_) => Some([])
  }

  /** `join_remote`. */
  function JoinRemote(root: string, rel: string): string {
    if root == "" then rel
    else if rel == "" then root
    else root + "/" + rel
  }

  /** A local path, as its components. */
  type Path = seq<string>

  /** How the platform reads a name: one ordinary component, or anything else. */
  type Platform = string -> bool

  /** On Unix every valid name is one. */
  ghost predicate Unixlike(ordinary: Platform) {
    forall name :: ValidName(name) ==> ordinary(name)
  }

  predicate Acceptable(name: string, ordinary: Platform) {
    ValidName(name) && ordinary(name)
  }

  /** `join_under`. */
  function JoinUnder(root: Path, rel: string, ordinary: Platform): Option<Path> {
    var parts := Split(rel, '/');
    if forall part :: part in parts ==> Acceptable(part, ordinary) then Some(root + parts) else None
  }

  /** The path of a folder within the walk: the names on the way to it. */
  predicate Through(names: seq<string>) {
    forall name :: name in names ==> ValidName(name)
  }

  function Chain(names: seq<string>): string {
    Join(names, '/')
  }

  lemma ChainParts(names: seq<string>)
    requires Through(names) && names != []
    ensures Split(Chain(names), '/') == names && Chain(names) != ""
  {
    JoinSplit(names, '/');
    assert names[0] in names;
  }

  lemma ChainChild(names: seq<string>, name: string)
    requires Through(names)
    ensures Child(Chain(names), name) == Chain(names + [name])
  {
    if names != [] {
      ChainParts(names);
      JoinConcat(names, [name], '/');
    } else {
      assert names + [name] == [name];
    }
  }

  lemma JoinRemoteChild(root: string, rel: string, name: string)
    requires name != ""
    ensures Child(JoinRemote(root, rel), name) == JoinRemote(root, Child(rel, name))
  {
    if root != "" && rel != "" {
      assert root + "/" + rel + "/" + name == root + "/" + (rel + "/" + name);
    }
  }

  /** A file the walk reports lies below the folder it was in, by valid names only, and its
      path on the drive is the synced folder joined with its path below it. */
  ghost predicate Sound(root: string, names: seq<string>, f: Found) {
    && f.abs == JoinRemote(root, f.rel)
    && exists more :: Through(more) && more != [] && f.rel == Chain(names + more)
  }

  lemma {:induction false} WalkSound(root: string, abs: string, names: seq<string>, entries: seq<Entry>, f: Found)
    requires Through(names) && abs == JoinRemote(root, Chain(names))
    requires Walk(abs, Chain(names), entries).Some? && f in Walk(abs, Chain(names), entries).value
    ensures Sound(root, names, f)
    decreases entries
  {
    if entries != [] {
      if f in WalkEntry(abs, Chain(names), entries[0]).value {
        WalkEntrySound(root, abs, names, entries[0], f);
      } else {
        WalkSound(root, abs, names, entries[1..], f);
      }
    }
  }

  lemma {:induction false} WalkEntrySound(root: string, abs: string, names: seq<string>, e: Entry, f: Found)
    requires Through(names) && abs == JoinRemote(root, Chain(names))
    requires WalkEntry(abs, Chain(names), e).Some? && f in WalkEntry(abs, Chain(names), e).value
    ensures Sound(root, names, f)
    decreases e
  {
    var name := e.name;
    JoinRemoteChild(root, Chain(names), name);
    ChainChild(names, name);
    hide Chain, Child, Sound, JoinRemote;
    match e
    case Dir(_, _, entries) =>
      ThroughMore(names, name);
      WalkSound(root, Child(abs, name), names + [name], entries, f);
      SoundBelow(root, names, name, f);
    case File(_) => FileSound(root, names, name, f);
  }

  lemma ThroughMore(names: seq<string>, name: string)
    requires Through(names) && ValidName(name)
    ensures Through(names + [name])
  {
    hide ValidName;
  }

  lemma SoundBelow(root: string, names: seq<string>, name: string, f: Found)
    requires Sound(root, names + [name], f) && ValidName(name)
    ensures Sound(root, names, f)
  {
    hide Chain, JoinRemote, ValidName;
    var more :| Through(more) && more != [] && f.rel == Chain(names + [name] + more);
    Regroup(names, [name], more);
    assert Through([name] + more);
  }

  lemma FileSound(root: string, names: seq<string>, name: string, f: Found)
    requires ValidName(name) && f == Found(Chain(names + [name]), JoinRemote(root, Chain(names + [name])))
    ensures Sound(root, names, f)
  {
    hide Chain, JoinRemote, ValidName;
    assert Through([name]);
  }

  /** Every path the walk of a folder reports names the listed file when joined with the folder
      again. It is accepted for this computer exactly if the platform takes each of its names as
      an ordinary one, as on Unix it always does, and then lands strictly under the sync folder. */
  lemma WalkedPathsLand(root: string, entries: seq<Entry>, local: Path, ordinary: Platform, f: Found)
    requires Walk(root, "", entries).Some? && f in Walk(root, "", entries).value
    ensures f.abs == JoinRemote(root, f.rel)
    ensures var p := JoinUnder(local, f.rel, ordinary);
            && (p.Some? <==> forall part :: part in Split(f.rel, '/') ==> ordinary(part))
            && (Unixlike(ordinary) ==> p.Some?)
            && (p.Some? ==> local < p.value && p.value[|local|..] == Split(f.rel, '/'))
  {
    assert Chain([]) == "";
    WalkSound(root, root, [], entries, f);
    var more :| Through(more) && more != [] && f.rel == Chain([] + more);
    assert [] + more == more;
    ChainParts(more);
  }

  /** Different accepted paths land in different places, and nothing that climbs is accepted. */
  lemma JoinUnderInjective(root: Path, a: string, b: string, ordinary: Platform)
    requires JoinUnder(root, a, ordinary).Some? && JoinUnder(root, a, ordinary) == JoinUnder(root, b, ordinary)
    ensures a == b
    ensures ".." !in Split(a, '/')
  {
    var p := JoinUnder(root, a, ordinary).value;
    assert p[|root|..] == Split(a, '/') == Split(b, '/');
    SplitJoin(a, '/');
    SplitJoin(b, '/');
  }

  newtype Byte = b: int | 0 <= b < 256

  const SLASH: Byte := 0x2F
  const PERCENT: Byte := 0x25

  /** The unreserved characters of section 2.3 of RFC 3986. */
  predicate Unreserved(b: Byte) {
    0x41 <= b <= 0x5A || 0x61 <= b <= 0x7A || 0x30 <= b <= 0x39 || b == 0x2D || b == 0x5F || b == 0x2E || b == 0x7E
  }

  function HexDigit(n: Byte): Byte
    requires n < 16
  {
    if n < 10 then 0x30 + n else 0x41 + (n - 10)
  }

  function HexValue(c: Byte): Option<Byte> {
    if 0x30 <= c <= 0x39 then Some(c - 0x30)
    else if 0x41 <= c <= 0x46 then Some(c - 0x41 + 10)
    else if 0x61 <= c <= 0x66 then Some(c - 0x61 + 10)
    else None
  }

  function EncodeByte(b: Byte): seq<Byte> {
    if Unreserved(b) then [b] else [PERCENT, HexDigit(b / 16), HexDigit(b % 16)]
  }

  function EncodePart(part: seq<Byte>): seq<Byte> {
    if part == [] then [] else EncodeByte(part[0]) + EncodePart(part[1..])
  }

  function EncodeParts(parts: seq<seq<Byte>>): seq<seq<Byte>> {
    if parts == [] then [] else [EncodePart(parts[0])] + EncodeParts(parts[1..])
  }

  function JoinWith(parts: seq<seq<Byte>>, glue: seq<Byte>): seq<Byte> {
    if parts == [] then []
    else if |parts| == 1 then parts[0]
    else parts[0] + glue + JoinWith(parts[1..], glue)
  }

  /** `urlencoding_path`: encode between slashes, and write each slash as "%2F". */
  function EncodePath(path: seq<Byte>): seq<Byte> {
    JoinWith(EncodeParts(Split(path, SLASH)), [PERCENT, 0x32, 0x46])
  }

  /** Percent-decoding, section 2.1 of RFC 3986. */
  function Decode(text: seq<Byte>): Option<seq<Byte>> {
    if text == [] then Some([])
    else if text[0] == PERCENT then
      if |text| < 3 || HexValue(text[1]).None? || HexValue(text[2]).None? then None
      else
        match Decode(text[3..])
        case None => None
        case Some(rest) =>
          var high, low := HexValue(text[1]).value as int, HexValue(text[2]).value as int;
          Some([(high * 16 + low) as Byte] + rest)
    else
      match Decode(text[1..])
      case None => None
      case Some(rest) => Some([text[0]] + rest)
  }

  /** Only characters that mean themselves in a query, and percent signs. */
  predicate QuerySafe(text: seq<Byte>) {
    forall c :: c in text ==> Unreserved(c) || c == PERCENT
  }

  lemma DecodeOne(b: Byte, rest: seq<Byte>)
    requires Decode(rest).Some?
    ensures Decode(EncodeByte(b) + rest) == Some([b] + Decode(rest).value)
  {
    var text := EncodeByte(b) + rest;
    HexRoundTrip(b);
    hide HexDigit, HexValue;
    if Unreserved(b) {
      assert text[1..] == rest;
    } else {
      assert text[3..] == rest;
    }
  }

  lemma HexRoundTrip(b: Byte)
    ensures HexValue(HexDigit(b / 16)) == Some(b / 16) && HexValue(HexDigit(b % 16)) == Some(b % 16)
    ensures (b / 16) as int * 16 + (b % 16) as int == b as int
    ensures Unreserved(b) ==> b != PERCENT
  {
  }

  lemma {:induction false} DecodePart(part: seq<Byte>, rest: seq<Byte>)
    requires Decode(rest).Some?
    ensures Decode(EncodePart(part) + rest) == Some(part + Decode(rest).value)
  {
    if part == [] {
      assert EncodePart(part) + rest == rest;
      assert part + Decode(rest).value == Decode(rest).value;
    } else {
      assert EncodePart(part) == EncodeByte(part[0]) + EncodePart(part[1..]);
      DecodePart(part[1..], rest);
      hide *;
      assert [part[0]] + part[1..] == part;
      DecodeOne(part[0], EncodePart(part[1..]) + rest);
      Regroup(EncodeByte(part[0]), EncodePart(part[1..]), rest);
      Regroup([part[0]], part[1..], Decode(rest).value);
    }
  }

  lemma {:induction false} DecodeJoined(parts: seq<seq<Byte>>)
    requires parts != []
    ensures Decode(JoinWith(EncodeParts(parts), [PERCENT, 0x32, 0x46])) == Some(Join(parts, SLASH))
  {
    var glue := [PERCENT, 0x32, 0x46];
    if |parts| == 1 {
      assert EncodeParts(parts) == [EncodePart(parts[0])];
      DecodePart(parts[0], []);
      hide Decode, EncodePart;
      assert EncodePart(parts[0]) + [] == EncodePart(parts[0]);
      assert parts[0] + [] == parts[0];
    } else {
      var rest := JoinWith(EncodeParts(parts[1..]), glue);
      DecodeJoined(parts[1..]);
      DecodeStep(parts[0], rest);
      JoinWithStep(parts, glue);
      hide *;
      Regroup(parts[0], [SLASH], Join(parts[1..], SLASH));
      JoinStep(parts);
    }
  }

  lemma JoinStep(parts: seq<seq<Byte>>)
    requires |parts| > 1
    ensures Join(parts, SLASH) == parts[0] + [SLASH] + Join(parts[1..], SLASH)
  {
  }

  lemma JoinWithStep(parts: seq<seq<Byte>>, glue: seq<Byte>)
    requires |parts| > 1
    ensures JoinWith(EncodeParts(parts), glue) == EncodePart(parts[0]) + glue + JoinWith(EncodeParts(parts[1..]), glue)
  {
    hide EncodePart;
    assert EncodeParts(parts)[1..] == EncodeParts(parts[1..]);
  }

  lemma DecodeStep(part: seq<Byte>, rest: seq<Byte>)
    requires Decode(rest).Some?
    ensures Decode(EncodePart(part) + [PERCENT, 0x32, 0x46] + rest) == Some(part + ([SLASH] + Decode(rest).value))
  {
    var glue := [PERCENT, 0x32, 0x46];
    assert EncodeByte(SLASH) == glue;
    DecodeOne(SLASH, rest);
    hide Decode, EncodePart, EncodeByte;
    DecodePart(part, glue + rest);
    Regroup(EncodePart(part), glue, rest);
  }

  /** Decoding the encoded path gives the path back, for every sequence of bytes. */
  lemma EncodingRoundTrips(path: seq<Byte>)
    ensures Decode(EncodePath(path)) == Some(path)
  {
    DecodeJoined(Split(path, SLASH));
    SplitJoin(path, SLASH);
  }

  lemma {:induction false} EncodePartSafe(part: seq<Byte>)
    ensures QuerySafe(EncodePart(part))
  {
    if part != [] {
      EncodePartSafe(part[1..]);
    }
  }

  lemma {:induction false} EncodingSafe(parts: seq<seq<Byte>>)
    ensures QuerySafe(JoinWith(EncodeParts(parts), [PERCENT, 0x32, 0x46]))
  {
    if parts != [] {
      EncodePartSafe(parts[0]);
      EncodingSafe(parts[1..]);
      assert EncodeParts(parts)[1..] == EncodeParts(parts[1..]);
    }
  }

  /** `walk_remote_rec` as the program runs it, pushing onto one list. */
  method WalkInto(abs: string, rel: string, entries: seq<Entry>, found: seq<Found>) returns (ok: bool, all: seq<Found>)
    ensures ok <==> Walk(abs, rel, entries).Some?
    ensures ok ==> all == found + Walk(abs, rel, entries).value
    decreases entries
  {
    all := found;
    for i := 0 to |entries|
      invariant Leads(abs, rel, entries, found, entries[i..], all)
    {
      var e := entries[i];
      ghost var rest := entries[i + 1..];
      assert entries[i..][0] == e && entries[i..][1..] == rest;
      LeadsOn(abs, rel, entries, found, entries[i..], all);
      hide Leads, Walk;
      if Hidden(e.name) {
        continue;
      }
      if !ValidName(e.name) {
        return false, all;
      }
      match e
      case Dir(name, listed, inner) =>
        if !listed {
          return false, all;
        }
        ok, all := WalkInto(Child(abs, name), Child(rel, name), inner, all);
        if !ok {
          return false, all;
        }
      case File(name) => all := all + [Found(Child(rel, name), Child(abs, name))];
      case Other(_) =>
    }
    return true, all;
  }

  /** Halfway through the entries: what is found so far and what the rest will give. */
  ghost predicate Leads(abs: string, rel: string, entries: seq<Entry>, found: seq<Found>, rest: seq<Entry>,
                        all: seq<Found>) {
    && (Walk(abs, rel, entries).Some? <==> Walk(abs, rel, rest).Some?)
    && (Walk(abs, rel, entries).Some? ==> found + Walk(abs, rel, entries).value == all + Walk(abs, rel, rest).value)
  }

  lemma LeadsOn(abs: string, rel: string, entries: seq<Entry>, found: seq<Found>, rest: seq<Entry>, all: seq<Found>)
    requires rest != [] && Leads(abs, rel, entries, found, rest, all)
    ensures var first := WalkEntry(abs, rel, rest[0]);
            && (first.None? ==> Walk(abs, rel, entries).None?)
            && (first.Some? ==> Leads(abs, rel, entries, found, rest[1..], all + first.value))
            && (first == Some([]) ==> Leads(abs, rel, entries, found, rest[1..], all))
  {
    var first, more := WalkEntry(abs, rel, rest[0]), Walk(abs, rel, rest[1..]);
    hide WalkEntry;
    if first.Some? && more.Some? {
      Regroup(all, first.value, more.value);
    }
    assert all + [] == all;
  }

  /** `join_under`: one name after the other is checked and pushed. */
  method PushUnder(root: Path, rel: string, ordinary: Platform) returns (path: Option<Path>)
    ensures path == JoinUnder(root, rel, ordinary)
  {
    var out, pushed := root, false;
    var parts := Split(rel, '/');
    for i := 0 to |parts|
      invariant out == root + parts[..i] && (pushed <==> 0 < i)
      invariant forall part :: part in parts[..i] ==> Acceptable(part, ordinary)
    {
      assert parts[i] in parts;
      if !ValidName(parts[i]) {
        return None;
      }
      if !ordinary(parts[i]) {
        return None;
      }
      assert parts[..i + 1] == parts[..i] + [parts[i]];
      out, pushed := out + [parts[i]], true;
    }
    assert parts[..|parts|] == parts;
    if !pushed || !(root <= out) {
      return None;
    }
    return Some(out);
  }
}
