/** What of a typed address counts: its scheme, host and port, and nothing of white space, case, user, path,
    query or fragment. */
module AddressRules {
  import opened CleartextRule
  import opened LunaUrl
  import opened Names
  import opened Options
  import opened Text

  /** White space goes wherever it stands, and nothing else does. */
  lemma {:induction false} WhiteSpaceGoes(a: string, b: string)
    ensures Collapse(a + b) == Collapse(a) + Collapse(b)
    ensures |a| == 1 ==> Collapse(a) == if IsSpace(a[0]) then "" else a
  {
    hide IsSpace;
    if a == "" {
      assert a + b == b;
    } else {
      assert (a + b)[1..] == a[1..] + b;
      WhiteSpaceGoes(a[1..], b);
    }
  }

  /** Capital letters become the small ones, other characters stay. */
  lemma CapitalsGo(s: string, i: nat)
    requires i < |s|
    ensures |LowerAll(s)| == |s|
    ensures var c, d := s[i], LowerAll(s)[i];
            if c in "ABCDEFGHIJKLMNOPQRSTUVWXYZ" then d as int == c as int + 32 else d == c
  {
    LowerEach(s);
    hide LowerAll;
    var letters := "ABCDEFGHIJKLMNOPQRSTUVWXYZ";
    assert forall k :: 0 <= k < 26 ==> letters[k] as int == 'A' as int + k;
    if 'A' <= s[i] <= 'Z' {
      assert letters[s[i] as int - 'A' as int] == s[i];
    }
  }

  /** A host that is accepted has no white space, no capital letter, and nothing a path, a query, a fragment or
      a user would begin or end with. */
  lemma HostIsClean(raw: string, c: char)
    requires Parse(raw).Some? && c in Parse(raw).value.host
    ensures !IsSpace(c) && !('A' <= c <= 'Z') && c != '/' && c != '?' && c != '#' && c != '@'
  {
    var a := Parse(raw).value;
    ParseGood(raw);
    hide Parse;
    GoodIsClean(a.host, a.port, c);
  }

  lemma GoodIsClean(host: string, port: Option<string>, c: char)
    requires GoodHost(host, port) && c in host
    ensures !IsSpace(c) && !('A' <= c <= 'Z') && c != '/' && c != '?' && c != '#' && c != '@'
  {
    hide ValidPort, SplitUnbracketed, Trim, IsSpace, Alphanumeric;
    LowerEach(host);
    hide LowerAll;
    var i :| 0 <= i < |host| && host[i] == c;
    assert Lower(host[i]) == host[i];
  }

  /** A tail that is a path, a query or a fragment, or nothing. */
  predicate IsTail(tail: string) {
    tail == "" || tail[0] == '/' || tail[0] == '?' || tail[0] == '#'
  }

  /** Nobody, or somebody at: a text up to an "@". */
  predicate IsUser(user: string) {
    || user == ""
    || (user[|user| - 1] == '@' && forall c :: c in user ==> c != '/' && c != '?' && c != '#')
  }

  lemma TailCollapsed(tail: string)
    requires IsTail(tail)
    ensures IsTail(Collapse(tail))
  {
    if tail != "" {
      assert tail == [tail[0]] + tail[1..];
      WhiteSpaceGoes([tail[0]], tail[1..]);
      assert !IsSpace('/') && !IsSpace('?') && !IsSpace('#');
      hide IsSpace, Collapse;
    }
  }

  lemma CutAtTail(body: string, tail: string)
    requires body != "" && body[0] != '/' && (forall c :: c in body ==> !EndsAuthority(c)) && IsTail(tail)
    ensures AuthorityOnly(body + tail) == body
  {
    var all := body + tail;
    assert all[0] == body[0];
    TrimStartNothing(all, Slash());
    assert all[..|body|] == body;
    UpToIs(all, AuthorityStop(), |body|);
  }

  lemma UserCut(user: string, rest: string)
    requires IsUser(user) && '@' !in rest
    ensures AfterUser(user + rest) == rest
  {
    var all := user + rest;
    if user == "" {
      assert all == rest;
      NoneThere(rest, '@');
      assert rest[0..] == rest;
    } else {
      LastIndexIs(all, '@', |user| - 1) by {
        assert forall k :: |user| <= k < |all| ==> all[k] == rest[k - |user|];
      }
      assert all[|user|..] == rest;
    }
    hide LastIndex;
  }

  lemma RestHasNoUser(a: Address)
    requires Good(a)
    ensures '@' !in a.host + PortText(a.port)
  {
    if a.port.Some? {
      PortPlain(a.port.value);
    }
    hide IsSpace, ValidPort, Trim, LowerAll, SplitUnbracketed;
  }

  lemma BodyPlain(user: string, rest: string)
    requires IsUser(user) && rest != "" && rest[0] != '/' && forall c :: c in rest ==> !EndsAuthority(c)
    ensures user + rest != "" && (user + rest)[0] != '/' && forall c :: c in user + rest ==> !EndsAuthority(c)
  {
    assert user != "" ==> user[0] in user;
  }

  lemma FrontKept(a: Address, user: string, rest: string, tail: string)
    requires Good(a) && (forall c :: c in user ==> !IsSpace(c)) && rest == a.host + PortText(a.port)
    requires forall c :: c in Render(a) ==> !IsSpace(c)
    ensures Collapse(a.scheme + "://" + (user + rest + tail)) == a.scheme + "://" + (user + rest + Collapse(tail))
  {
    var scheme := a.scheme + "://";
    assert Render(a) == scheme + rest;
    CollapseIs(scheme);
    CollapseIs(user);
    CollapseIs(rest);
    assert forall c :: c in scheme || c in rest ==> c in scheme + rest;
    hide Collapse, IsSpace;
    WhiteSpaceGoes(scheme, user + rest + tail);
    WhiteSpaceGoes(user + rest, tail);
    WhiteSpaceGoes(user, rest);
  }

  lemma ReadFrom(a: Address, raw: string, after: string, authority: string)
    requires Good(a) && Collapse(raw) != "" && TakeScheme(Collapse(raw)) == (Some(a.scheme), after)
    requires AuthorityOnly(after) == authority != ""
    requires SplitHostPort(authority) == Some((a.host, a.port)) && NormalizeHost(a.host) == a.host
    ensures Parse(raw) == Some(a)
  {
    hide Collapse, TakeScheme, AuthorityOnly, SplitHostPort, NormalizeHost, AllowsCleartext, GoodHost, Bare;
    assert a.host != "" by {
      GoodHostNonEmpty(a);
    }
  }

  lemma OriginRead(a: Address, raw: string, user: string, end: string)
    requires Good(a) && IsUser(user) && IsTail(end)
    requires Collapse(raw) == a.scheme + "://" + (user + (a.host + PortText(a.port)) + end)
    ensures Parse(raw) == Some(a)
  {
    var rest := a.host + PortText(a.port);
    var body := user + rest;
    PlainRest(a);
    RestHasNoUser(a);
    BodyPlain(user, rest);
    assert (body + end)[0] == body[0];
    hide *;
    SchemeOf(a);
    SchemeRead(a.scheme, body + end);
    CutAtTail(body, end);
    UserCut(user, rest);
    SplitBehindUser(a, body);
    ReadFrom(a, raw, body + end, body);
  }

  lemma SchemeOf(a: Address)
    requires Good(a)
    ensures a.scheme == "http" || a.scheme == "https"
  {
    hide GoodHost;
  }

  lemma SplitBehindUser(a: Address, body: string)
    requires Good(a) && AfterUser(body) == a.host + PortText(a.port)
    ensures SplitHostPort(body) == Some((a.host, a.port)) && NormalizeHost(a.host) == a.host
  {
    var rest := a.host + PortText(a.port);
    SplitRead(a.host, a.port);
    NoUser(a.host, a.port);
    hide AfterUser, SplitBracketed, SplitUnbracketed, NormalizeHost, GoodHost;
  }

  /** Only the origin counts: an accepted address, typed with a user before its host and a path, a query or a
      fragment behind it, is read as the same address. */
  lemma OnlyOriginCounts(a: Address, user: string, tail: string)
    requires Good(a) && IsUser(user) && IsTail(tail) && forall c :: c in user ==> !IsSpace(c)
    ensures Parse(a.scheme + "://" + (user + (a.host + PortText(a.port)) + tail)) == Some(a)
  {
    var rest := a.host + PortText(a.port);
    PlainRest(a);
    TailCollapsed(tail);
    hide Good, IsUser, IsTail, Collapse, Render, IsSpace, Parse;
    FrontKept(a, user, rest, tail);
    OriginRead(a, a.scheme + "://" + (user + rest + tail), user, Collapse(tail));
  }

  lemma ColonIsLast(host: string, port: string)
    requires ':' !in port
    ensures LastIndex(host + (":" + port), ':') == |host|
  {
    ColonLast(host);
    hide *;
    Regroup(host, ":", port);
    LastIndexKept(host + ":", port, ':');
  }

  /** What a colon in an authority without brackets means: the one before a port, which has to be in range; none
      at all; or, before something that is no number, a part of the host. More than one is refused, and so is
      one with nothing behind it. */
  lemma ColonsMean(host: string, port: string)
    requires ':' !in port
    ensures SplitUnbracketed(port) == Some((port, None))
    ensures SplitUnbracketed(host + (":" + port)) ==
              if port == "" || ':' in host then None
              else if exists c :: c in port && !('0' <= c <= '9') then Some((host + (":" + port), None))
              else if exists n :: 1 <= n <= 65535 && Writes(port, n) then Some((host, Some(port)))
              else None
  {
    var auth := host + (":" + port);
    NoneThere(port, ':');
    ColonIsLast(host, port);
    assert auth[..|host|] == host && auth[|host| + 1..] == port;
    PortIs(port);
    assert AllDigits(port) <==> !exists c :: c in port && !('0' <= c <= '9');
    hide LastIndex, ValidPort, Writes, AllDigits;
  }

  /** In brackets everything up to the first closing one is the host, and only a port may follow. */
  lemma BracketsMean(inner: string, rest: string)
    requires ']' !in inner
    ensures SplitBracketed(inner).None?
    ensures var host := inner + "]";
            SplitBracketed(host + rest) ==
              if rest == "" then Some((host, None))
              else if rest[0] == ':' && exists n :: 1 <= n <= 65535 && Writes(rest[1..], n)
              then Some((host, Some(rest[1..])))
              else None
  {
    var host := inner + "]";
    assert inner[..|inner|] == inner;
    UpToIs(inner, CloseStop(), |inner|);
    assert (host + rest)[..|inner|] == inner && (host + rest)[|inner|] == ']';
    UpToIs(host + rest, CloseStop(), |inner|);
    assert (host + rest)[..|inner| + 1] == host && (host + rest)[|inner| + 1..] == rest;
    if rest != "" {
      PortIs(rest[1..]);
    }
    hide UpTo, ValidPort, Writes;
  }

  /** A host needs a letter or a digit, or in brackets anything but brackets; it is taken in small letters. */
  lemma HostsTaken(host: string, inner: string)
    requires Unbracketed(host, inner)
    ensures host != "" && host[0] == '[' ==>
              NormalizeHost(host) == if inner == "" then "" else "[" + LowerAll(inner) + "]"
    ensures host == "" || host[0] != '[' ==>
              NormalizeHost(host) ==
                if exists c :: c in host && ('a' <= c <= 'z' || 'A' <= c <= 'Z' || '0' <= c <= '9')
                then LowerAll(host) else ""
  {
    BareIs(host, inner);
    LowerEach(host);
    LowerEach(inner);
    hide Trim, LowerAll, Unbracketed;
    var h := LowerAll(host);
    if c :| c in host && ('a' <= c <= 'z' || 'A' <= c <= 'Z' || '0' <= c <= '9') {
      var i :| 0 <= i < |host| && host[i] == c;
      assert h[i] in h && Alphanumeric(h[i]);
    }
    if c :| c in h && Alphanumeric(c) {
      var i :| 0 <= i < |h| && h[i] == c;
      assert host[i] in host;
    }
  }
}
