/** From what a user types to the address of a Luna: scheme, host and port. */
module LunaUrl {
  import opened Names
  import opened Options
  import opened Text

  datatype Address = Address(scheme: string, host: string, port: Option<string>)

  function Render(a: Address): string {
    a.scheme + "://" + a.host + (if a.port.Some? then ":" + a.port.value else "")
  }

  /** `collapse_whitespace`: all white space goes. */
  function Collapse(raw: string): string {
    if raw == [] then [] else (if IsSpace(raw[0]) then [] else [raw[0]]) + Collapse(raw[1..])
  }

  function Lower(c: char): char {
    if 'A' <= c <= 'Z' then c - 'A' + 'a' else c
  }

  function LowerAll(s: string): string {
    seq(|s|, i requires 0 <= i < |s| => Lower(s[i]))
  }

  /** What follows a scheme's name if it is meant as one: a colon or slashes come after it. */
  function AfterScheme(input: string, name: string): Option<string> {
    if |input| < |name| || LowerAll(input[..|name|]) != name then None
    else
      var rest := input[|name|..];
      var after := if rest != [] && rest[0] == ':' then rest[1..] else rest;
      var bare := TrimStart(after, Slash());
      if bare != rest then Some(bare) else None
  }

  /** `take_scheme`: "https" is tried before "http". */
  function TakeScheme(input: string): (Option<string>, string) {
    match AfterScheme(input, "https")
    case Some(rest) => (Some("https"), rest)
    case None =>
      match AfterScheme(input, "http")
      case Some(rest) => (Some("http"), rest)
      case None => (None, input)
  }

  predicate EndsAuthority(c: char) {
    c == '/' || c == '?' || c == '#'
  }

  function UpTo(s: string, stop: char -> bool): (t: string)
    ensures t <= s
    ensures forall c :: c in t ==> !stop(c)
    ensures t == s || stop(s[|t|])
  {
    if s == [] || stop(s[0]) then [] else [s[0]] + UpTo(s[1..], stop)
  }

  function AuthorityStop(): char -> bool {
    c => EndsAuthority(c)
  }

  /** `authority_only`. */
  function AuthorityOnly(s: string): string {
    UpTo(TrimStart(s, Slash()), AuthorityStop())
  }

  predicate AllDigits(s: string) {
    forall c :: c in s ==> IsDigit(c)
  }

  function Value(digits: string): nat
    requires AllDigits(digits)
  {
    if digits == [] then 0
    else
      var c := digits[|digits| - 1];
      assert c in digits;
      Value(digits[..|digits| - 1]) * 10 + (c as int - '0' as int)
  }

  /** `validate_port`: a leading plus sign is part of what `u32::parse` takes. */
  predicate ValidPort(port: string) {
    var digits := if port != "" && port[0] == '+' then port[1..] else port;
    digits != "" && AllDigits(digits) && 1 <= Value(digits) <= 65535
  }

  function Bracket(): char -> bool {
    c => c == '[' || c == ']'
  }

  /** User info, if any, is dropped. */
  function AfterUser(authority: string): string {
    authority[LastIndex(authority, '@') + 1..]
  }

  function CloseStop(): char -> bool {
    c => c == ']'
  }

  /** "[host]" or "[host]:port". */
  function SplitBracketed(auth: string): Option<(string, Option<string>)> {
    var close := |UpTo(auth, CloseStop())|;
    if close == |auth| then None
    else
      var host, rest := auth[..close + 1], auth[close + 1..];
      if rest == [] then Some((host, None))
      else if rest[0] == ':' && ValidPort(rest[1..]) then Some((host, Some(rest[1..])))
      else None
  }

  /** "host" or "host:port"; a colon before something that is no number stays in the host. */
  function SplitUnbracketed(auth: string): Option<(string, Option<string>)> {
    var i := LastIndex(auth, ':');
    if i == -1 then Some((auth, None))
    else
      var host, port := auth[..i], auth[i + 1..];
      if ':' in host || port == "" then None
      else if AllDigits(port) then (if ValidPort(port) then Some((host, Some(port))) else None)
      else Some((auth, None))
  }

  /** `split_host_port`. */
  function SplitHostPort(authority: string): Option<(string, Option<string>)> {
    var auth := AfterUser(authority);
    if auth != [] && auth[0] == '[' then SplitBracketed(auth) else SplitUnbracketed(auth)
  }

  predicate Alphanumeric(c: char) {
    'a' <= c <= 'z' || 'A' <= c <= 'Z' || '0' <= c <= '9'
  }

  /** `normalize_host`; empty means refused. White space is gone by now. */
  function NormalizeHost(host: string): string {
    if host != [] && host[0] == '[' then
      var inner := LowerAll(Trim(host, Bracket()));
      if inner == [] then [] else "[" + inner + "]"
    else
      var h := LowerAll(host);
      if exists c :: c in h && Alphanumeric(c) then h else []
  }

  function EndsWith(s: string, tail: string): bool {
    |tail| <= |s| && s[|s| - |tail|..] == tail
  }

  /** `u8::parse`, again with an optional plus sign. */
  function Octet(part: string): Option<nat> {
    var digits := if part != "" && part[0] == '+' then part[1..] else part;
    if digits != "" && AllDigits(digits) && Value(digits) <= 255 then Some(Value(digits)) else None
  }

  predicate PrivateV4(a: nat, b: nat) {
    a == 10 || a == 127 || (a == 169 && b == 254) || (a == 192 && b == 168) || (a == 172 && 16 <= b <= 31)
  }

  /** `allows_cleartext`, for a host in lower case. */
  predicate AllowsCleartext(h: string) {
    h == "localhost" || h == "::1" || EndsWith(h, ".local") || EndsWith(h, ".lan") || EndsWith(h, ".home")
    || (var parts := Split(h, '.');
        && |parts| == 4
        && (forall part :: part in parts ==> Octet(part).Some?)
        && assert parts[0] in parts && parts[1] in parts; PrivateV4(Octet(parts[0]).value, Octet(parts[1]).value))
  }

  function Bare(host: string): string {
    Trim(host, Bracket())
  }

  /** `normalize_luna_base_url`, before the address is written out. */
  function Parse(raw: string): Option<Address> {
    var collapsed := Collapse(raw);
    if collapsed == [] then None
    else
      var (scheme, after) := TakeScheme(collapsed);
      var authority := AuthorityOnly(after);
      if authority == [] then None
      else
        match SplitHostPort(authority)
        case None => None
        case Some((rawHost, port)) =>
          var host := NormalizeHost(rawHost);
          if host == [] then None
          else
            var cleartext := AllowsCleartext(Bare(host));
            var s := if scheme == Some("https") || !cleartext then "https" else "http";
            Some(Address(s, host, port))
  }

  function Normalize(raw: string): Option<string> {
    match Parse(raw)
    case None => None
    case Some(a) => Some(Render(a))
  }

  /** No white space, and nothing that ends an authority or splits off user info. */
  predicate PlainText(s: string) {
    forall c :: c in s ==> !IsSpace(c) && !EndsAuthority(c) && c != '@'
  }

  predicate Lowered(s: string) {
    LowerAll(s) == s
  }

  /** A host in brackets, or one that a port could follow or that stands alone. */
  predicate GoodHost(host: string, port: Option<string>) {
    && PlainText(host) && Lowered(host) && host != ""
    && if host[0] == '[' then
         && 2 < |host| && host[|host| - 1] == ']' && ']' !in host[..|host| - 1]
         && Trim(host, Bracket()) == host[1..|host| - 1]
         && (port.Some? ==> ValidPort(port.value))
       else
         && (exists c :: c in host && Alphanumeric(c))
         && (port.Some? ==> ':' !in host && ValidPort(port.value) && AllDigits(port.value))
         && (port.None? ==> SplitUnbracketed(host) == Some((host, None)))
  }

  /** What every accepted address is like. */
  predicate Good(a: Address) {
    && GoodHost(a.host, a.port)
    && (a.scheme == "https" || a.scheme == "http")
    && (a.scheme == "http" ==> AllowsCleartext(Bare(a.host)))
  }

  lemma {:induction false} CollapseIs(raw: string)
    ensures forall c :: c in Collapse(raw) ==> !IsSpace(c)
    ensures (forall c :: c in raw ==> !IsSpace(c)) ==> Collapse(raw) == raw
  {
    if raw != [] {
      CollapseIs(raw[1..]);
      assert raw == [raw[0]] + raw[1..];
      hide IsSpace;
    }
  }

  lemma LowerTwice(s: string)
    ensures Lowered(LowerAll(s))
    ensures forall c :: c in LowerAll(s) ==> c in s || 'a' <= c <= 'z'
  {
  }

  lemma LowerPlain(s: string)
    requires PlainText(s)
    ensures PlainText(LowerAll(s))
  {
    LowerTwice(s);
    forall c | c in LowerAll(s)
      ensures !IsSpace(c) && !EndsAuthority(c) && c != '@'
    {
      assert c in s || 'a' <= c <= 'z';
    }
  }

  /** The authority of a text without white space holds none, and nothing that would end it. */
  lemma AuthorityPlain(input: string)
    requires forall c :: c in input ==> !IsSpace(c)
    ensures forall c :: c in AuthorityOnly(TakeScheme(input).1) ==> !IsSpace(c) && !EndsAuthority(c)
  {
    var after := TakeScheme(input).1;
    AfterSchemeIn(input, "https");
    AfterSchemeIn(input, "http");
    TrimStartSuffix(after, Slash());
    hide IsSpace;
    var s := TrimStart(after, Slash());
    forall c | c in AuthorityOnly(after)
      ensures !IsSpace(c) && !EndsAuthority(c)
    {
      assert c in s;
    }
  }

  lemma AfterSchemeIn(input: string, name: string)
    ensures AfterScheme(input, name).Some? ==> forall c :: c in AfterScheme(input, name).value ==> c in input
  {
    if |name| <= |input| {
      var rest := input[|name|..];
      var after := if rest != [] && rest[0] == ':' then rest[1..] else rest;
      TrimStartSuffix(after, Slash());
    }
  }

  lemma LowerEach(s: string)
    ensures |LowerAll(s)| == |s| && forall i :: 0 <= i < |s| ==> LowerAll(s)[i] == Lower(s[i])
  {
  }

  /** Lower case leaves every character alone that is not a letter. */
  lemma LowerLastIndex(s: string, c: char)
    requires !Alphanumeric(c)
    ensures LastIndex(LowerAll(s), c) == LastIndex(s, c)
  {
    var (t, i) := (LowerAll(s), LastIndex(s, c));
    LowerEach(s);
    hide LowerAll, LastIndex, Lower, Alphanumeric;
    if 0 <= i {
      LowerKeeps(s[i], c);
    }
    forall k | i < k < |t|
      ensures t[k] != c
    {
      NotAfterLast(s, c, k);
      LowerKeeps(s[k], c);
    }
    LastIndexIs(t, c, i);
  }

  lemma LowerKeeps(x: char, c: char)
    requires !Alphanumeric(c)
    ensures (Lower(x) == c) <==> (x == c)
  {
  }

  lemma NoneThere(s: string, c: char)
    requires c !in s
    ensures LastIndex(s, c) == -1
  {
    LastIndexIs(s, c, -1);
  }

  /** What lies between the brackets, whatever extra brackets the text began with. */
  lemma InnerOf(raw: string)
    requires raw != "" && raw[0] == '[' && raw[|raw| - 1] == ']' && ']' !in raw[..|raw| - 1]
    ensures var t := Trim(raw, Bracket());
            && ']' !in t && (forall c :: c in t ==> c in raw)
            && (t != "" ==> t[0] != '[' && t[|t| - 1] != '[')
  {
    var u := TrimStart(raw, Bracket());
    var t := TrimEnd(u, Bracket());
    TrimStartSuffix(raw, Bracket());
    TrimEndPrefix(u, Bracket());
    var k := |raw| - |u|;
    assert u != "" ==> u[|u| - 1] == ']';
    assert t == "" || |t| < |u|;
    forall j | 0 <= j < |t|
      ensures t[j] != ']'
    {
      assert t[j] == raw[k + j] && raw[k + j] in raw[..|raw| - 1];
    }
    if t != "" {
      assert t[0] == u[0];
    }
  }

  lemma TrimOnce(inner: string)
    requires inner != "" && inner[0] != '[' && inner[0] != ']'
    requires inner[|inner| - 1] != '[' && inner[|inner| - 1] != ']'
    ensures Trim("[" + inner + "]", Bracket()) == inner
  {
    var s := "[" + inner + "]";
    assert s[1..] == inner + "]";
    var u := inner + "]";
    assert u[0] == inner[0] && TrimStart(u, Bracket()) == u;
    assert TrimStart(s, Bracket()) == u;
    assert u[..|u| - 1] == inner && u[|u| - 1] == ']';
    assert TrimEnd(u, Bracket()) == TrimEnd(inner, Bracket()) == inner;
  }

  lemma BracketGood(raw: string, port: Option<string>)
    requires PlainText(raw)
    requires raw != "" && raw[0] == '[' && raw[|raw| - 1] == ']' && ']' !in raw[..|raw| - 1]
    requires port.Some? ==> ValidPort(port.value)
    requires NormalizeHost(raw) != ""
    ensures GoodHost(NormalizeHost(raw), port)
  {
    var t := Trim(raw, Bracket());
    InnerOf(raw);
    NormalizeBracketed(raw);
    PlainPart(t, raw);
    hide IsSpace, Trim, LowerAll, NormalizeHost, ValidPort, GoodHost, PlainText, Lowered;
    LowerEach(t);
    InnerLowered(t);
    WrappedGood(LowerAll(t), port);
  }

  lemma NormalizeBracketed(raw: string)
    requires raw != "" && raw[0] == '['
    ensures var inner := LowerAll(Trim(raw, Bracket()));
            NormalizeHost(raw) == if inner == "" then "" else "[" + inner + "]"
  {
    hide Trim, LowerAll;
  }

  lemma PlainPart(t: string, s: string)
    requires PlainText(s) && forall c :: c in t ==> c in s
    ensures PlainText(t)
  {
    hide IsSpace, EndsAuthority;
  }

  lemma InnerLowered(t: string)
    requires PlainText(t) && t != "" && ']' !in t && t[0] != '[' && t[|t| - 1] != '['
    ensures var inner := LowerAll(t);
            && PlainText(inner) && Lowered(inner) && |inner| == |t| && ']' !in inner
            && inner[0] != '[' && inner[|t| - 1] != '['
  {
    LowerPlain(t);
    LowerTwice(t);
    LowerEach(t);
    LowerKeeps(t[0], '[');
    LowerKeeps(t[|t| - 1], '[');
    hide IsSpace, LowerAll, Lower;
  }

  lemma WrappedGood(inner: string, port: Option<string>)
    requires PlainText(inner) && Lowered(inner) && inner != "" && ']' !in inner
    requires inner[0] != '[' && inner[|inner| - 1] != '['
    requires port.Some? ==> ValidPort(port.value)
    ensures GoodHost("[" + inner + "]", port)
  {
    var host := "[" + inner + "]";
    assert inner[0] in inner && inner[|inner| - 1] in inner;
    TrimOnce(inner);
    LowerWrapped(inner);
    assert host[1..|host| - 1] == inner && host[..|host| - 1] == "[" + inner;
    BracketsPlain();
    hide IsSpace, Trim, NormalizeHost, ValidPort, LowerAll;
    assert PlainText(host) by {
      forall c | c in host
        ensures !IsSpace(c) && !EndsAuthority(c) && c != '@'
      {
        assert c == '[' || c == ']' || c in inner;
      }
    }
  }

  lemma BracketsPlain()
    ensures !IsSpace('[') && !IsSpace(']')
  {
  }

  lemma LowerWrapped(inner: string)
    requires Lowered(inner)
    ensures Lowered("[" + inner + "]")
  {
    LowerEach(inner);
    LowerEach("[" + inner + "]");
    forall i | 0 <= i < |inner| + 2
      ensures LowerAll("[" + inner + "]")[i] == ("[" + inner + "]")[i]
    {
      assert 1 <= i <= |inner| ==> ("[" + inner + "]")[i] == inner[i - 1];
    }
  }

  /** A host without brackets that was split off whole is split off whole again. */
  lemma WholeAgain(auth: string)
    requires SplitUnbracketed(auth) == Some((auth, None))
    ensures SplitUnbracketed(LowerAll(auth)) == Some((LowerAll(auth), None))
  {
    var h, i := LowerAll(auth), LastIndex(auth, ':');
    LowerLastIndex(auth, ':');
    if i != -1 {
      var host, port := auth[..i], auth[i + 1..];
      ColonStays(auth, i);
      LowerParts(auth, i);
      LowerLastIndex(host, ':');
      NoneThere(host, ':');
      NoColon(LowerAll(host));
      NotDigits(port);
      LowerEach(port);
    }
    hide ValidPort, LowerAll;
  }

  lemma ColonStays(auth: string, i: nat)
    requires SplitUnbracketed(auth) == Some((auth, None)) && LastIndex(auth, ':') == i
    ensures ':' !in auth[..i] && auth[i + 1..] != "" && !AllDigits(auth[i + 1..])
  {
    hide ValidPort;
  }

  lemma NotDigits(s: string)
    requires !AllDigits(s)
    ensures !AllDigits(LowerAll(s))
  {
    LowerEach(s);
    var c :| c in s && !IsDigit(c);
    var k :| 0 <= k < |s| && s[k] == c;
    assert LowerAll(s)[k] in LowerAll(s) && !IsDigit(LowerAll(s)[k]);
  }

  lemma NoColon(s: string)
    requires LastIndex(s, ':') == -1
    ensures ':' !in s
  {
  }

  lemma LowerParts(s: string, i: nat)
    requires i < |s|
    ensures LowerAll(s)[..i] == LowerAll(s[..i]) && LowerAll(s)[i + 1..] == LowerAll(s[i + 1..])
  {
    LowerEach(s);
    LowerEach(s[..i]);
    LowerEach(s[i + 1..]);
  }

  /** The accepted split of an authority, with the host put in normal form, is good. */
  lemma SplitGood(authority: string)
    requires forall c :: c in authority ==> !IsSpace(c) && !EndsAuthority(c)
    requires SplitHostPort(authority).Some? && NormalizeHost(SplitHostPort(authority).value.0) != ""
    ensures var (raw, port) := SplitHostPort(authority).value; GoodHost(NormalizeHost(raw), port)
  {
    var auth := AfterUser(authority);
    UserDropped(authority);
    EmptyAuthority();
    hide IsSpace, NormalizeHost, GoodHost, ValidPort, SplitBracketed, SplitUnbracketed, AfterUser, Trim, LowerAll;
    if auth != "" && auth[0] == '[' {
      SplitBracket(auth);
      var (raw, port) := SplitBracketed(auth).value;
      PlainPart(raw, auth);
      BracketGood(raw, port);
    } else {
      PlainGood(auth);
    }
  }

  lemma EmptyAuthority()
    ensures NormalizeHost("") == "" && SplitUnbracketed("") == Some(("", None))
  {
    EmptyHost();
  }

  lemma UserDropped(authority: string)
    requires forall c :: c in authority ==> !IsSpace(c) && !EndsAuthority(c)
    ensures PlainText(AfterUser(authority))
  {
    hide IsSpace;
    var auth := AfterUser(authority);
    assert forall c :: c in auth ==> c in authority;
    assert '@' !in auth;
  }

  lemma SplitBracket(auth: string)
    requires auth != "" && auth[0] == '[' && SplitBracketed(auth).Some?
    ensures var (raw, port) := SplitBracketed(auth).value;
            && raw != "" && raw[0] == '[' && raw[|raw| - 1] == ']' && ']' !in raw[..|raw| - 1]
            && (forall c :: c in raw ==> c in auth)
            && (port.Some? ==> ValidPort(port.value))
  {
    var head := UpTo(auth, CloseStop());
    assert auth[..|head|] == head;
    assert auth[..|head| + 1][..|head|] == head;
    hide ValidPort, UpTo;
  }

  lemma PlainGood(auth: string)
    requires PlainText(auth) && auth != "" && auth[0] != '['
    requires SplitUnbracketed(auth).Some? && NormalizeHost(SplitUnbracketed(auth).value.0) != ""
    ensures var (raw, port) := SplitUnbracketed(auth).value; GoodHost(NormalizeHost(raw), port)
  {
    var (raw, port) := SplitUnbracketed(auth).value;
    PlainParts(auth);
    if port.None? {
      WholeAgain(auth);
    }
    hide SplitUnbracketed, ValidPort, IsSpace, NormalizeHost, GoodHost, PlainText, LowerAll, AllDigits, Alphanumeric;
    assert forall c :: c in raw ==> c in auth;
    PlainPart(raw, auth);
    EmptyHost();
    PlainHost(raw, port);
  }

  lemma EmptyHost()
    ensures NormalizeHost("") == ""
  {
    LowerEach("");
  }

  /** What splitting off a port leaves. */
  lemma PlainParts(auth: string)
    requires SplitUnbracketed(auth).Some?
    ensures var (raw, port) := SplitUnbracketed(auth).value;
            && raw <= auth
            && (port.None? ==> raw == auth)
            && (port.Some? ==> ':' !in raw && ValidPort(port.value) && AllDigits(port.value))
  {
    hide ValidPort;
  }

  lemma PlainHost(raw: string, port: Option<string>)
    requires PlainText(raw) && raw != "" && raw[0] != '[' && NormalizeHost(raw) != ""
    requires port.Some? ==> ':' !in raw && ValidPort(port.value) && AllDigits(port.value)
    requires port.None? ==> SplitUnbracketed(LowerAll(raw)) == Some((LowerAll(raw), None))
    ensures GoodHost(NormalizeHost(raw), port)
  {
    var h := LowerAll(raw);
    assert NormalizeHost(raw) == h && exists c :: c in h && Alphanumeric(c) by {
      hide SplitUnbracketed, ValidPort, IsSpace, LowerAll, GoodHost;
    }
    LowerPlain(raw);
    LowerTwice(raw);
    LowerEach(raw);
    LowerKeeps(raw[0], '[');
    hide SplitUnbracketed, ValidPort, IsSpace, NormalizeHost, LowerAll, Trim, Lower, Alphanumeric, AllDigits;
    assert h[0] == Lower(raw[0]);
  }

  /** Whatever is accepted is good. */
  lemma ParseGood(raw: string)
    requires Parse(raw).Some?
    ensures Good(Parse(raw).value)
  {
    var collapsed := Collapse(raw);
    CollapseIs(raw);
    AuthorityPlain(collapsed);
    var authority := AuthorityOnly(TakeScheme(collapsed).1);
    hide IsSpace, Collapse, TakeScheme, AuthorityOnly, AllowsCleartext, GoodHost, SplitHostPort, NormalizeHost;
    SplitGood(authority);
  }

  /** The scheme that was written is the scheme that is read. */
  lemma SchemeRead(scheme: string, rest: string)
    requires scheme == "http" || scheme == "https"
    requires rest != "" && rest[0] != '/'
    ensures TakeScheme(scheme + "://" + rest) == (Some(scheme), rest)
  {
    SchemeMatches(scheme, rest);
    if scheme == "http" {
      NotHttps(rest);
    }
    hide AfterScheme;
    assert scheme == "https" || scheme == "http";
    assert scheme == "http" ==> scheme + "://" + rest == "http://" + rest;
  }

  lemma SchemeMatches(scheme: string, rest: string)
    requires scheme == "http" || scheme == "https"
    requires rest != "" && rest[0] != '/'
    ensures AfterScheme(scheme + "://" + rest, scheme) == Some(rest)
  {
    var text := scheme + "://" + rest;
    assert text[..|scheme|] == scheme;
    LowerScheme(scheme);
    hide LowerAll;
    assert text == scheme + ("://" + rest);
    assert text[|scheme|..] == "://" + rest;
    SlashesDropped(rest);
  }

  lemma SlashesDropped(rest: string)
    requires rest != "" && rest[0] != '/'
    ensures ("://" + rest)[1..] == "//" + rest && TrimStart("//" + rest, Slash()) == rest
  {
    assert ("//" + rest)[1..] == "/" + rest && ("/" + rest)[1..] == rest;
    TrimStartNothing(rest, Slash());
    assert TrimStart("/" + rest, Slash()) == rest;
  }

  lemma LowerScheme(scheme: string)
    requires scheme == "http" || scheme == "https"
    ensures LowerAll(scheme) == scheme
  {
    LowerEach(scheme);
  }

  lemma NotHttps(rest: string)
    ensures AfterScheme("http://" + rest, "https").None?
  {
    var text := "http://" + rest;
    LowerEach(text[..5]);
    assert LowerAll(text[..5])[4] == ':';
  }

  lemma {:induction false} UpToIs(s: string, stop: char -> bool, n: nat)
    requires n <= |s| && (n < |s| ==> stop(s[n])) && forall c :: c in s[..n] ==> !stop(c)
    ensures UpTo(s, stop) == s[..n]
  {
    if n != 0 {
      assert s[0] == s[..n][0];
      assert s[1..][..n - 1] == s[..n][1..];
      UpToIs(s[1..], stop, n - 1);
    }
  }

  lemma AuthorityWhole(rest: string)
    requires rest != "" && forall c :: c in rest ==> !EndsAuthority(c)
    ensures AuthorityOnly(rest) == rest
  {
    assert rest[0] in rest;
    TrimStartNothing(rest, Slash());
    assert rest[..|rest|] == rest;
    UpToIs(rest, AuthorityStop(), |rest|);
  }

  function PortText(port: Option<string>): string {
    if port.Some? then ":" + port.value else ""
  }

  lemma PortPlain(port: string)
    requires ValidPort(port)
    ensures forall c :: c in port ==> IsDigit(c) || c == '+'
  {
    if port[0] == '+' {
      assert port == ['+'] + port[1..];
    }
  }

  /** A good host and port, written out, split into the same two. */
  lemma SplitRead(host: string, port: Option<string>)
    requires GoodHost(host, port)
    ensures SplitHostPort(host + PortText(port)) == Some((host, port))
    ensures NormalizeHost(host) == host
  {
    var auth := host + PortText(port);
    NoUser(host, port);
    assert auth[0] == host[0];
    if host[0] == '[' {
      hide IsSpace, ValidPort, SplitBracketed, SplitUnbracketed, AfterUser, NormalizeHost, Trim, LowerAll;
      BracketRead(host, port);
      InnerRead(host);
    } else {
      hide IsSpace, ValidPort, SplitBracketed, SplitUnbracketed, AfterUser, Trim, LowerAll;
      UnbracketedRead(host, port);
    }
  }

  lemma NoUser(host: string, port: Option<string>)
    requires GoodHost(host, port)
    ensures AfterUser(host + PortText(port)) == host + PortText(port)
  {
    var auth := host + PortText(port);
    assert '@' !in host;
    if port.Some? {
      assert ValidPort(port.value);
      PortPlain(port.value);
    }
    hide *;
    assert '@' !in auth;
    NoneThere(auth, '@');
    assert auth[0..] == auth;
    AfterNone(auth);
  }

  lemma AfterNone(auth: string)
    requires LastIndex(auth, '@') == -1
    ensures AfterUser(auth) == auth
  {
  }

  lemma BracketRead(host: string, port: Option<string>)
    requires host != "" && host[|host| - 1] == ']' && ']' !in host[..|host| - 1]
    requires port.Some? ==> ValidPort(port.value)
    ensures SplitBracketed(host + PortText(port)) == Some((host, port))
  {
    var auth, n := host + PortText(port), |host| - 1;
    assert auth[..n] == host[..n] && auth[n] == ']';
    UpToIs(auth, CloseStop(), n);
    assert auth[..n + 1] == host && auth[n + 1..] == PortText(port);
    assert port.Some? ==> PortText(port)[1..] == port.value;
    hide ValidPort, UpTo;
  }

  lemma InnerRead(host: string)
    requires 2 < |host| && host[0] == '[' && host[|host| - 1] == ']' && Lowered(host)
    requires Trim(host, Bracket()) == host[1..|host| - 1]
    ensures NormalizeHost(host) == host
  {
    var inner := host[1..|host| - 1];
    assert host == "[" + inner + "]";
    LowerEach(host);
    LowerEach(inner);
    hide Trim;
    assert LowerAll(inner) == inner;
  }

  lemma UnbracketedRead(host: string, port: Option<string>)
    requires port.Some? ==> ':' !in host && ValidPort(port.value) && AllDigits(port.value)
    requires port.None? ==> SplitUnbracketed(host) == Some((host, None))
    ensures SplitUnbracketed(host + PortText(port)) == Some((host, port))
  {
    var auth := host + PortText(port);
    if port.Some? {
      PortAtColon(host, port.value);
    } else {
      hide *;
      assert host + "" == host;
      NoPort(host);
    }
  }

  lemma PortAtColon(host: string, port: string)
    requires ':' !in host && ValidPort(port) && AllDigits(port)
    ensures SplitUnbracketed(host + (":" + port)) == Some((host, Some(port)))
  {
    var auth := host + (":" + port);
    assert port != "";
    hide ValidPort, AllDigits, LastIndex;
    LastColon(host, port);
    assert auth[..|host|] == host && auth[|host| + 1..] == port;
  }

  lemma NoPort(host: string)
    ensures host + PortText(None) == host
  {
  }

  lemma LastColon(host: string, port: string)
    requires AllDigits(port)
    ensures LastIndex(host + (":" + port), ':') == |host|
  {
    NoColonInDigits(port);
    ColonLast(host);
    hide *;
    Regroup(host, ":", port);
    LastIndexKept(host + ":", port, ':');
  }

  lemma NoColonInDigits(port: string)
    requires AllDigits(port)
    ensures ':' !in port
  {
  }

  lemma ColonLast(host: string)
    ensures LastIndex(host + ":", ':') == |host|
  {
  }

  /** An address written out is read as the same address: same scheme, host and port. */
  lemma ReadsBack(a: Address)
    requires Good(a)
    ensures Parse(Render(a)) == Some(a)
  {
    var rest := a.host + PortText(a.port);
    if a.port.Some? {
      PortPlain(a.port.value);
    }
    assert Render(a) == a.scheme + "://" + rest;
    PlainRest(a);
    CollapseIs(Render(a));
    SchemeRead(a.scheme, rest);
    AuthorityWhole(rest);
    SplitRead(a.host, a.port);
    hide *;
    ParseSteps(a, rest);
  }

  lemma PlainRest(a: Address)
    requires Good(a)
    ensures var rest := a.host + PortText(a.port);
            && rest != "" && rest[0] != '/'
            && (forall c :: c in rest ==> !EndsAuthority(c))
            && (forall c :: c in Render(a) ==> !IsSpace(c))
  {
    assert a.host[0] in a.host;
    if a.port.Some? {
      PortPlain(a.port.value);
    }
  }

  lemma ParseSteps(a: Address, rest: string)
    requires Good(a) && Collapse(Render(a)) == Render(a) && Render(a) != ""
    requires TakeScheme(Render(a)) == (Some(a.scheme), rest)
    requires AuthorityOnly(rest) == rest != ""
    requires SplitHostPort(rest) == Some((a.host, a.port)) && NormalizeHost(a.host) == a.host
    ensures Parse(Render(a)) == Some(a)
  {
    hide Collapse, TakeScheme, AuthorityOnly, SplitHostPort, NormalizeHost, AllowsCleartext, GoodHost, Bare, Render;
    assert a.host != "" by {
      GoodHostNonEmpty(a);
    }
  }

  lemma GoodHostNonEmpty(a: Address)
    requires GoodHost(a.host, a.port)
    ensures a.host != ""
  {
  }

  /** Normalizing an accepted address again changes nothing, and what it yields is read as the
      very address it was written from. */
  lemma NormalizeTwice(raw: string)
    requires Normalize(raw).Some?
    ensures Normalize(Normalize(raw).value) == Normalize(raw)
    ensures Parse(Normalize(raw).value) == Parse(raw)
  {
    ParseGood(raw);
    hide Good, Render;
    ReadsBack(Parse(raw).value);
  }

  /** A token never travels in the clear to a public host: the result starts with "http:"
      exactly when the host is one that may be spoken to that way and "https" was not asked for. */
  lemma CleartextOnlyWhereAllowed(raw: string)
    requires Parse(raw).Some?
    ensures var (a, url) := (Parse(raw).value, Normalize(raw).value);
            "http:" <= url <==> AllowsCleartext(Bare(a.host)) && TakeScheme(Collapse(raw)).0 != Some("https")
  {
    var a := Parse(raw).value;
    SchemeChosen(raw);
    HttpShows(a);
    hide Parse, Render, TakeScheme, Collapse, AllowsCleartext, Bare;
    assert Normalize(raw).value == Render(a);
  }

  lemma HttpShows(a: Address)
    requires a.scheme == "http" || a.scheme == "https"
    ensures "http:" <= Render(a) <==> a.scheme == "http"
  {
    if a.scheme == "http" {
      assert Render(a)[..5] == "http:";
    } else {
      assert Render(a)[4] == 's';
    }
  }

  lemma SchemeChosen(raw: string)
    requires Parse(raw).Some?
    ensures var a := Parse(raw).value;
            && (a.scheme == "http" || a.scheme == "https")
            && (a.scheme == "http"
                <==> AllowsCleartext(Bare(a.host)) && TakeScheme(Collapse(raw)).0 != Some("https"))
  {
    hide TakeScheme, Collapse, AllowsCleartext, AuthorityOnly, SplitHostPort, NormalizeHost, Bare;
  }

  /** One round of `take_scheme`, counting the colon and the slashes after a scheme's name. */
  method ReadAfter(text: string) returns (rest: Option<string>)
    ensures forall input, name ::
              |name| <= |input| && LowerAll(input[..|name|]) == name && text == input[|name|..]
              ==> rest == AfterScheme(input, name)
  {
    var i, sawColon, slashes := 0, false, 0;
    if text != "" && text[0] == ':' {
      sawColon, i := true, 1;
    }
    ghost var after := text[i..];
    hide LowerAll;
    while i < |text| && text[i] == '/'
      invariant 0 <= i <= |text| && slashes == i - (if sawColon then 1 else 0)
      invariant TrimStart(text[i..], Slash()) == TrimStart(after, Slash())
    {
      assert text[i..][1..] == text[i + 1..];
      slashes, i := slashes + 1, i + 1;
    }
    TrimStartNothing(text[i..], Slash());
    assert text[0..] == text;
    assert i != 0 ==> |text[i..]| < |text|;
    rest := if sawColon || slashes > 0 then Some(text[i..]) else None;
  }

  /** `take_scheme`. */
  method ReadScheme(input: string) returns (scheme: Option<string>, rest: string)
    ensures (scheme, rest) == TakeScheme(input)
  {
    var names, k := ["https", "http"], 0;
    while k < 2
      invariant 0 <= k <= 2
      invariant forall j :: 0 <= j < k ==> AfterScheme(input, names[j]).None?
    {
      var name := names[k];
      if |name| <= |input| && LowerAll(input[..|name|]) == name {
        var after := ReadAfter(input[|name|..]);
        hide LowerAll;
        assert after == AfterScheme(input, name);
        if after.Some? {
          assert k == 1 ==> AfterScheme(input, names[0]).None?;
          hide AfterScheme;
          return Some(name), after.value;
        }
      }
      k := k + 1;
    }
    assert AfterScheme(input, names[0]).None? && AfterScheme(input, names[1]).None?;
    hide AfterScheme;
    return None, input;
  }

  /** `authority_only`, dropping one slash at a time and then looking for the end. */
  method ReadAuthority(after: string) returns (authority: string)
    ensures authority == AuthorityOnly(after)
  {
    var s := after;
    while s != "" && s[0] == '/'
      invariant TrimStart(s, Slash()) == TrimStart(after, Slash())
      decreases |s|
    {
      s := s[1..];
    }
    TrimStartNothing(s, Slash());
    var end := 0;
    while end < |s| && !EndsAuthority(s[end])
      invariant 0 <= end <= |s| && forall c :: c in s[..end] ==> !EndsAuthority(c)
    {
      end := end + 1;
    }
    UpToIs(s, AuthorityStop(), end);
    authority := s[..end];
  }

  /** `normalize_luna_base_url`; None is an address that is turned down. */
  method NormalizeBaseUrl(raw: string) returns (url: Option<string>)
    ensures url == Normalize(raw)
  {
    hide Collapse, TakeScheme, AuthorityOnly, SplitHostPort, NormalizeHost, AllowsCleartext, Bare, Render;
    var collapsed := Collapse(raw);
    if collapsed == "" {
      return None;
    }
    var scheme, after := ReadScheme(collapsed);
    var authority := ReadAuthority(after);
    if authority == "" {
      return None;
    }
    var split := SplitHostPort(authority);
    if split.None? {
      return None;
    }
    var (rawHost, port) := split.value;
    var host := NormalizeHost(rawHost);
    if host == "" {
      return None;
    }
    var cleartext := AllowsCleartext(Bare(host));
    var shown := match scheme
      case Some(s) => (if s == "http" && !cleartext then "https" else s)
      case None => (if cleartext then "http" else "https");
    var out := shown + "://" + host;
    if port.Some? {
      out := out + ":" + port.value;
    }
    SchemeIs(collapsed);
    assert Parse(raw) == Some(Address(shown, host, port));
    RenderIs(shown, host, port);
    url := Some(out);
  }

  lemma RenderIs(scheme: string, host: string, port: Option<string>)
    ensures Render(Address(scheme, host, port))
         == if port.Some? then scheme + "://" + host + ":" + port.value else scheme + "://" + host
  {
    if port.Some? {
      assert scheme + "://" + host + (":" + port.value) == scheme + "://" + host + ":" + port.value;
    }
  }

  lemma SchemeIs(input: string)
    ensures var s := TakeScheme(input).0; s.None? || s == Some("https") || s == Some("http")
  {
  }
}
