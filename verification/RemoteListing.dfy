/** What the walk over Luna's folders finds and what makes it stop, told by the names on the way. */
module RemoteListing {
  import opened Options
  import opened RemoteNames
  import opened Text

  /** A name that starts with a dot. */
  predicate Dotted(name: string) {
    name != "" && name[0] == '.'
  }

  /** A name that no file of this computer may have: it is empty, or holds a separator of any platform or the
      end of a text. */
  predicate Bad(name: string) {
    name == "" || exists c :: c in name && (c == '/' || c == '\\' || c == '\0')
  }

  /** These names lead from folder to folder to a file, and none of them starts with a dot. */
  ghost predicate LeadsTo(entries: seq<Entry>, names: seq<string>)
    decreases |names|
  {
    && names != []
    && !Dotted(names[0])
    && exists i :: 0 <= i < |entries| && entries[i].name == names[0] && EntryLeads(entries[i], names)
  }

  ghost predicate EntryLeads(e: Entry, names: seq<string>)
    requires names != []
    decreases |names|, 0
  {
    if |names| == 1 then e.File? else e.Dir? && LeadsTo(e.entries, names[1..])
  }

  /** Somewhere among the folders that do not start with a dot, there is a bad name or a folder that cannot be
      listed. */
  ghost predicate Trouble(entries: seq<Entry>)
    decreases entries
  {
    exists i :: 0 <= i < |entries| && !Dotted(entries[i].name) && EntryTrouble(entries[i])
  }

  ghost predicate EntryTrouble(e: Entry)
    decreases e
  {
    Bad(e.name) || (e.Dir? && (!e.listed || Trouble(e.entries)))
  }

  lemma TroubleFirst(entries: seq<Entry>)
    requires entries != []
    ensures Trouble(entries) <==> (!Dotted(entries[0].name) && EntryTrouble(entries[0])) || Trouble(entries[1..])
  {
    var rest := entries[1..];
    if i :| 0 < i < |entries| && !Dotted(entries[i].name) && EntryTrouble(entries[i]) {
      assert rest[i - 1] == entries[i];
    }
    if i :| 0 <= i < |rest| && !Dotted(rest[i].name) && EntryTrouble(rest[i]) {
      assert entries[i + 1] == rest[i];
    }
  }

  lemma LeadsFirst(entries: seq<Entry>, names: seq<string>)
    requires entries != [] && names != []
    ensures LeadsTo(entries, names)
            <==> (entries[0].name == names[0] && !Dotted(names[0]) && EntryLeads(entries[0], names))
                 || LeadsTo(entries[1..], names)
  {
    var rest := entries[1..];
    if i :| 0 < i < |entries| && entries[i].name == names[0] && !Dotted(names[0]) && EntryLeads(entries[i], names) {
      assert rest[i - 1] == entries[i];
    }
    if i :| 0 <= i < |rest| && rest[i].name == names[0] && !Dotted(names[0]) && EntryLeads(rest[i], names) {
      assert entries[i + 1] == rest[i];
    }
  }

  lemma ValidIs(name: string)
    requires !Dotted(name)
    ensures ValidName(name) <==> !Bad(name)
  {
  }

  /** The walk is refused as a whole exactly if there is such trouble anywhere on its way. */
  lemma {:induction false} RefusedIff(abs: string, rel: string, entries: seq<Entry>)
    ensures Walk(abs, rel, entries).None? <==> Trouble(entries)
    decreases entries
  {
    if entries != [] {
      EntryRefusedIff(abs, rel, entries[0]);
      RefusedIff(abs, rel, entries[1..]);
      TroubleFirst(entries);
      hide WalkEntry, Trouble, EntryTrouble, Dotted;
    }
  }

  lemma {:induction false} EntryRefusedIff(abs: string, rel: string, e: Entry)
    ensures WalkEntry(abs, rel, e).None? <==> !Dotted(e.name) && EntryTrouble(e)
    decreases e
  {
    if !Dotted(e.name) {
      ValidIs(e.name);
      if e.Dir? {
        RefusedIff(Child(abs, e.name), Child(rel, e.name), e.entries);
      }
    }
    hide Walk, Trouble, ValidName, Bad;
  }

  /** The path that goes through these names, from the folder `at` on. */
  function PathAt(at: string, names: seq<string>): string
    decreases |names|
  {
    if names == [] then at else PathAt(if at == "" then names[0] else at + "/" + names[0], names[1..])
  }

  /** The names lead to the file, which has these paths below the synced folder and on the drive. */
  ghost predicate Reaches(abs: string, rel: string, entries: seq<Entry>, f: Found, names: seq<string>) {
    LeadsTo(entries, names) && f == Found(PathAt(rel, names), PathAt(abs, names))
  }

  ghost predicate EntryReaches(abs: string, rel: string, e: Entry, f: Found, names: seq<string>) {
    && names != [] && e.name == names[0] && !Dotted(names[0]) && EntryLeads(e, names)
    && f == Found(PathAt(rel, names), PathAt(abs, names))
  }

  /** The files found are exactly those some names lead to. */
  lemma {:induction false} FoundIff(abs: string, rel: string, entries: seq<Entry>, f: Found)
    requires Walk(abs, rel, entries).Some?
    ensures f in Walk(abs, rel, entries).value <==> exists names :: Reaches(abs, rel, entries, f, names)
    decreases entries
  {
    if entries != [] {
      EntryFoundIff(abs, rel, entries[0], f);
      FoundIff(abs, rel, entries[1..], f);
      forall names
        ensures Reaches(abs, rel, entries, f, names)
                <==> EntryReaches(abs, rel, entries[0], f, names) || Reaches(abs, rel, entries[1..], f, names)
      {
        if names != [] {
          LeadsFirst(entries, names);
        }
      }
      hide WalkEntry, Reaches, EntryReaches;
    }
  }

  lemma {:induction false} EntryFoundIff(abs: string, rel: string, e: Entry, f: Found)
    requires WalkEntry(abs, rel, e).Some?
    ensures f in WalkEntry(abs, rel, e).value <==> exists names :: EntryReaches(abs, rel, e, f, names)
    decreases e
  {
    var down, below := Child(abs, e.name), Child(rel, e.name);
    if Hidden(e.name) {
    } else if e.Dir? {
      FoundIff(down, below, e.entries, f);
      forall names
        ensures Reaches(down, below, e.entries, f, names) ==> EntryReaches(abs, rel, e, f, [e.name] + names)
      {
        assert ([e.name] + names)[1..] == names;
      }
      forall all
        ensures EntryReaches(abs, rel, e, f, all) ==> Reaches(down, below, e.entries, f, all[1..])
      {
      }
      hide Reaches, EntryReaches;
    } else {
      OneName(abs, rel, e, f);
      hide EntryReaches;
    }
  }

  lemma PathAtOne(at: string, name: string)
    ensures PathAt(at, [name]) == Child(at, name)
  {
    assert [name][1..] == [];
    assert PathAt(Child(at, name), []) == Child(at, name);
  }

  lemma OneName(abs: string, rel: string, e: Entry, f: Found)
    requires !e.Dir? && !Dotted(e.name) && e.name != ""
    ensures (exists names :: EntryReaches(abs, rel, e, f, names))
            <==> e.File? && f == Found(Child(rel, e.name), Child(abs, e.name))
  {
    PathAtOne(rel, e.name);
    PathAtOne(abs, e.name);
    forall names | EntryReaches(abs, rel, e, f, names)
      ensures names == [e.name]
    {
    }
    if e.File? && f == Found(Child(rel, e.name), Child(abs, e.name)) {
      assert EntryReaches(abs, rel, e, f, [e.name]);
    }
  }

  /** A path from Luna is taken for this computer exactly if each of its names is good, climbs nowhere and is an
      ordinary one for the platform, and it goes where its names lead from the folder. */
  lemma AcceptedIff(root: Path, rel: string, ordinary: Platform)
    ensures JoinUnder(root, rel, ordinary) ==
              if forall part :: part in Split(rel, '/') ==>
                   part != "." && part != ".." && !Bad(part) && ordinary(part)
              then Some(root + Split(rel, '/')) else None
  {
    SplitJoin(rel, '/');
    forall part | part in Split(rel, '/')
      ensures Acceptable(part, ordinary) <==> part != "." && part != ".." && !Bad(part) && ordinary(part)
    {
    }
    hide Acceptable, Bad, Split;
  }

  const HEX: seq<Byte> :=
    [0x30, 0x31, 0x32, 0x33, 0x34, 0x35, 0x36, 0x37, 0x38, 0x39, 0x41, 0x42, 0x43, 0x44, 0x45, 0x46]

  /** A letter, a digit, or one of "-._~". */
  predicate Plain(b: Byte) {
    var c := b as char;
    'a' <= c <= 'z' || 'A' <= c <= 'Z' || '0' <= c <= '9' || c in "-._~"
  }

  /** How a byte is written in a request: as it is, or as a percent sign and two digits. */
  function Written(b: Byte): seq<Byte> {
    if Plain(b) then [b] else ['%' as Byte, HEX[b / 16], HEX[b % 16]]
  }

  function AllWritten(path: seq<Byte>): seq<Byte> {
    if path == [] then [] else Written(path[0]) + AllWritten(path[1..])
  }

  lemma ByteWritten(b: Byte)
    ensures EncodeByte(b) == Written(b)
  {
  }

  lemma {:induction false} PartWritten(part: seq<Byte>)
    ensures EncodePart(part) == AllWritten(part)
  {
    if part != [] {
      ByteWritten(part[0]);
      PartWritten(part[1..]);
      hide EncodeByte, Written;
    }
  }

  lemma {:induction false} WrittenJoined(a: seq<Byte>, b: seq<Byte>)
    ensures AllWritten(a + b) == AllWritten(a) + AllWritten(b)
  {
    hide Written;
    if a == [] {
      assert a + b == b;
    } else {
      assert (a + b)[1..] == a[1..] + b;
      WrittenJoined(a[1..], b);
    }
  }

  lemma {:induction false} PartsWritten(parts: seq<seq<Byte>>)
    requires parts != []
    ensures JoinWith(EncodeParts(parts), [PERCENT, 0x32, 0x46]) == AllWritten(Join(parts, SLASH))
  {
    PartWritten(parts[0]);
    if |parts| == 1 {
      assert EncodeParts(parts) == [EncodePart(parts[0])];
    } else {
      var glue, rest := [PERCENT, 0x32, 0x46], Join(parts[1..], SLASH);
      PartsWritten(parts[1..]);
      JoinWithStep(parts, glue);
      JoinStep(parts);
      WrittenJoined(parts[0] + [SLASH], rest);
      WrittenJoined(parts[0], [SLASH]);
      SlashWritten();
      hide *;
    }
  }

  lemma SlashWritten()
    ensures AllWritten([SLASH]) == [PERCENT, 0x32, 0x46]
  {
    assert [SLASH][1..] == [];
  }

  /** A path in a request is written byte by byte, slashes among them. */
  lemma PathWritten(path: seq<Byte>)
    ensures EncodePath(path) == AllWritten(path)
  {
    PartsWritten(Split(path, SLASH));
    SplitJoin(path, SLASH);
  }
}
