/** Which addresses of a Luna are spoken to in the clear, told from the text of the address: names, and
    dotted quads by the numbers they stand for. */
module CleartextRule {
  import opened LunaUrl
  import opened Names
  import opened Options
  import opened Text

  predicate Zeros(s: string) {
    forall c :: c in s ==> c == '0'
  }

  /** A number as the program reads it: a plus sign or none, any zeros, and its decimal digits. */
  ghost predicate Writes(text: string, n: nat) {
    exists plus, zeros :: (plus == "" || plus == "+") && Zeros(zeros) && text == plus + (zeros + Decimal(n))
  }

  lemma {:induction false} ZerosRead(zeros: string)
    requires Zeros(zeros)
    ensures AllDigits(zeros) && Value(zeros) == 0
    decreases |zeros|
  {
    if zeros != "" {
      var init := zeros[..|zeros| - 1];
      InitIn(zeros);
      assert forall c :: c in init ==> c in zeros;
      ZerosRead(init);
    }
  }

  lemma InitIn(s: string)
    requires s != ""
    ensures s[|s| - 1] in s && forall c :: c in s[..|s| - 1] ==> c in s
  {
  }

  lemma OneDigit(init: string, d: nat)
    requires AllDigits(init) && d < 10
    ensures AllDigits(init + [Digit(d)]) && Value(init + [Digit(d)]) == Value(init) * 10 + d
  {
    var text := init + [Digit(d)];
    assert text[..|text| - 1] == init && IsDigit(Digit(d));
  }

  lemma {:induction false} DecimalRead(zeros: string, n: nat)
    requires Zeros(zeros)
    ensures AllDigits(zeros + Decimal(n)) && Value(zeros + Decimal(n)) == n
    decreases n
  {
    hide Value, AllDigits;
    if n < 10 {
      ZerosRead(zeros);
      OneDigit(zeros, n);
    } else {
      DecimalRead(zeros, n / 10);
      OneDigit(zeros + Decimal(n / 10), n % 10);
      assert zeros + Decimal(n) == zeros + Decimal(n / 10) + [Digit(n % 10)];
    }
  }

  /** Digits are zeros and the decimal form of what they stand for. */
  lemma {:induction false} DigitsShow(text: string) returns (zeros: string)
    requires text != "" && AllDigits(text)
    ensures Zeros(zeros) && text == zeros + Decimal(Value(text))
    decreases |text|
  {
    var init, c := text[..|text| - 1], text[|text| - 1];
    var d := c as int - '0' as int;
    InitIn(text);
    assert text == init + [c] && c == Digit(d);
    if init == "" {
      zeros := "";
      assert Value(text) == d;
    } else {
      var z := DigitsShow(init);
      zeros := OneDigitMore(init, z, Value(init), d);
      assert Value(text) == 10 * Value(init) + d;
      hide Decimal;
    }
  }

  lemma OneDigitMore(init: string, z: string, v: nat, d: nat) returns (zeros: string)
    requires Zeros(z) && init == z + Decimal(v) && d < 10
    ensures Zeros(zeros) && init + [Digit(d)] == zeros + Decimal(10 * v + d)
  {
    if v == 0 {
      zeros := z + "0";
      assert Decimal(v) == "0" && Decimal(d) == [Digit(d)];
    } else {
      zeros := z;
      assert (10 * v + d) / 10 == v && (10 * v + d) % 10 == d;
      assert Decimal(10 * v + d) == Decimal(v) + [Digit(d)];
    }
  }

  lemma WritesDigits(text: string, n: nat)
    requires text == "" || text[0] != '+'
    ensures Writes(text, n) <==> text != "" && AllDigits(text) && Value(text) == n
  {
    if Writes(text, n) {
      var plus, zeros :| (plus == "" || plus == "+") && Zeros(zeros) && text == plus + (zeros + Decimal(n));
      DecimalDigits(n);
      DecimalRead(zeros, n);
      assert text == zeros + Decimal(n);
    }
    if text != "" && AllDigits(text) && Value(text) == n {
      var zeros := DigitsShow(text);
      assert text == "" + (zeros + Decimal(n));
    }
  }

  lemma WritesPlus(text: string, n: nat)
    requires text != "" && text[0] == '+'
    ensures Writes(text, n) <==> text[1..] != "" && AllDigits(text[1..]) && Value(text[1..]) == n
  {
    if Writes(text, n) {
      var plus, zeros :| (plus == "" || plus == "+") && Zeros(zeros) && text == plus + (zeros + Decimal(n));
      DecimalDigits(n);
      DecimalRead(zeros, n);
      assert text[0] in text && forall c :: c in zeros + Decimal(n) ==> c != '+';
      assert plus == "+" && text[1..] == zeros + Decimal(n);
    }
    if text[1..] != "" && AllDigits(text[1..]) && Value(text[1..]) == n {
      var zeros := DigitsShow(text[1..]);
      assert text == "+" + (zeros + Decimal(n));
    }
  }

  /** A part of a host is an octet exactly if it writes a number up to 255. */
  lemma OctetIs(text: string, n: nat)
    ensures Octet(text) == Some(n) <==> n <= 255 && Writes(text, n)
  {
    if text != "" && text[0] == '+' {
      WritesPlus(text, n);
    } else {
      WritesDigits(text, n);
    }
    hide Writes, Value, AllDigits;
  }

  /** A port is taken exactly if it writes a number from 1 to 65535. */
  lemma PortIs(port: string)
    ensures ValidPort(port) <==> exists n :: 1 <= n <= 65535 && Writes(port, n)
  {
    forall n: nat
      ensures Writes(port, n) <==> PortDigits(port) != "" && AllDigits(PortDigits(port)) && Value(PortDigits(port)) == n
    {
      if port != "" && port[0] == '+' {
        WritesPlus(port, n);
      } else {
        WritesDigits(port, n);
      }
    }
    hide Writes, Value, AllDigits;
    if ValidPort(port) {
      assert Writes(port, Value(PortDigits(port)));
    }
  }

  function PortDigits(port: string): string {
    if port != "" && port[0] == '+' then port[1..] else port
  }

  /** Four numbers up to 255 with dots between, the first two of which are `a` and `b`. */
  ghost predicate Quad(h: string, a: nat, b: nat) {
    exists p, q, r, s, c, d :: h == Dotted(p, q, r, s) && a <= 255 && b <= 255 && c <= 255 && d <= 255
      && Writes(p, a) && Writes(q, b) && Writes(r, c) && Writes(s, d)
  }

  function Dotted(p: string, q: string, r: string, s: string): string {
    p + "." + q + "." + r + "." + s
  }

  lemma DottedParts(p: string, q: string, r: string, s: string)
    requires '.' !in p && '.' !in q && '.' !in r && '.' !in s
    ensures Split(Dotted(p, q, r, s), '.') == [p, q, r, s]
  {
    SplitPlain(p, '.');
    SplitPlain(q, '.');
    SplitPlain(r, '.');
    SplitPlain(s, '.');
    SplitAt(p, '.', q);
    SplitAt(p + "." + q, '.', r);
    SplitAt(p + "." + q + "." + r, '.', s);
    hide Split;
  }

  lemma PartsDotted(h: string)
    requires |Split(h, '.')| == 4
    ensures var parts := Split(h, '.'); h == Dotted(parts[0], parts[1], parts[2], parts[3])
  {
    var parts := Split(h, '.');
    SplitJoin(h, '.');
    hide Split;
    var last, two, three := parts[3..], parts[2..], parts[1..];
    assert two[1..] == last && three[1..] == two && parts[1..] == three;
    assert Join(last, '.') == parts[3];
    assert Join(two, '.') == parts[2] + "." + parts[3];
    assert Join(three, '.') == parts[1] + "." + (parts[2] + "." + parts[3]);
    assert h == parts[0] + "." + (parts[1] + "." + (parts[2] + "." + parts[3]));
  }

  lemma NoDotInNumber(text: string, n: nat)
    requires Writes(text, n)
    ensures '.' !in text
  {
    var plus, zeros :| (plus == "" || plus == "+") && Zeros(zeros) && text == plus + (zeros + Decimal(n));
    DecimalDigits(n);
  }

  lemma WritesOne(text: string, m: nat, n: nat)
    requires Writes(text, m) && Writes(text, n)
    ensures m == n
  {
    if text != "" && text[0] == '+' {
      WritesPlus(text, m);
      WritesPlus(text, n);
    } else {
      WritesDigits(text, m);
      WritesDigits(text, n);
    }
  }

  /** The networks 10/8, 127/8, 169.254/16, 192.168/16 and 172.16/12, by the first 16 bits. */
  predicate AtHome(a: nat, b: nat) {
    var top := 256 * a + b;
    || 10 * 256 <= top < 11 * 256
    || 127 * 256 <= top < 128 * 256
    || top == 169 * 256 + 254
    || top == 192 * 256 + 168
    || 172 * 256 + 16 <= top < 172 * 256 + 32
  }

  /** Is this one of the names, or does it end like a name, that stays within the home? */
  ghost predicate HomeName(h: string) {
    || h == "localhost" || h == "::1"
    || (exists p :: h == p + ".local") || (exists p :: h == p + ".lan") || (exists p :: h == p + ".home")
  }

  /** Four parts between dots, all of which write octets. */
  predicate FourOctets(h: string) {
    var parts := Split(h, '.');
    && |parts| == 4 && Octet(parts[0]).Some? && Octet(parts[1]).Some? && Octet(parts[2]).Some? && Octet(parts[3]).Some?
  }

  lemma QuadGiven(h: string, a: nat, b: nat)
    requires Quad(h, a, b)
    ensures FourOctets(h) && Octet(Split(h, '.')[0]) == Some(a) && Octet(Split(h, '.')[1]) == Some(b)
    ensures a <= 255 && b <= 255
  {
    var p, q, r, s, c, d :| h == Dotted(p, q, r, s) && a <= 255 && b <= 255 && c <= 255 && d <= 255
        && Writes(p, a) && Writes(q, b) && Writes(r, c) && Writes(s, d);
    NoDotInNumber(p, a);
    NoDotInNumber(q, b);
    NoDotInNumber(r, c);
    NoDotInNumber(s, d);
    DottedParts(p, q, r, s);
    OctetIs(p, a);
    OctetIs(q, b);
    OctetIs(r, c);
    OctetIs(s, d);
    hide *;
    assert Split(h, '.') == [p, q, r, s];
    FourAre(h, p, q, r, s);
  }

  lemma FourAre(h: string, p: string, q: string, r: string, s: string)
    requires Split(h, '.') == [p, q, r, s]
    requires Octet(p).Some? && Octet(q).Some? && Octet(r).Some? && Octet(s).Some?
    ensures FourOctets(h)
  {
    hide Split, Octet;
  }

  lemma QuadFound(h: string)
    requires FourOctets(h)
    ensures Quad(h, Octet(Split(h, '.')[0]).value, Octet(Split(h, '.')[1]).value)
    ensures Octet(Split(h, '.')[0]).value <= 255 && Octet(Split(h, '.')[1]).value <= 255
  {
    var parts := Split(h, '.');
    PartsDotted(h);
    hide Split, Octet, Writes, Dotted;
    OctetIs(parts[0], Octet(parts[0]).value);
    OctetIs(parts[1], Octet(parts[1]).value);
    OctetIs(parts[2], Octet(parts[2]).value);
    OctetIs(parts[3], Octet(parts[3]).value);
  }

  lemma EndsWithIs(s: string, tail: string)
    ensures EndsWith(s, tail) <==> exists p :: s == p + tail
  {
    if EndsWith(s, tail) {
      assert s == s[..|s| - |tail|] + tail;
    }
  }

  lemma QuadIs(h: string)
    ensures (exists a, b :: Quad(h, a, b) && AtHome(a, b)) <==>
              FourOctets(h) && PrivateV4(Octet(Split(h, '.')[0]).value, Octet(Split(h, '.')[1]).value)
  {
    var parts := Split(h, '.');
    hide Split, Octet, Quad;
    if a: nat, b: nat :| Quad(h, a, b) && AtHome(a, b) {
      QuadGiven(h, a, b);
    }
    if FourOctets(h) && PrivateV4(Octet(parts[0]).value, Octet(parts[1]).value) {
      QuadFound(h);
    }
  }

  lemma AllowsParts(h: string)
    ensures AllowsCleartext(h) <==>
              || h == "localhost" || h == "::1"
              || EndsWith(h, ".local") || EndsWith(h, ".lan") || EndsWith(h, ".home")
              || (FourOctets(h) && PrivateV4(Octet(Split(h, '.')[0]).value, Octet(Split(h, '.')[1]).value))
  {
    var parts := Split(h, '.');
    assert |parts| == 4 ==> parts == [parts[0], parts[1], parts[2], parts[3]];
    hide Split, Octet, EndsWith, PrivateV4;
  }

  /** A host may be spoken to in the clear exactly if it is such a name or such a number. */
  lemma AllowedIs(h: string)
    ensures AllowsCleartext(h) <==> HomeName(h) || exists a, b :: Quad(h, a, b) && AtHome(a, b)
  {
    AllowsParts(h);
    QuadIs(h);
    EndsWithIs(h, ".local");
    EndsWithIs(h, ".lan");
    EndsWithIs(h, ".home");
    hide AllowsCleartext, FourOctets, Split, Octet, Quad, EndsWith, AtHome, PrivateV4;
  }

  /** Is "https" asked for, in any case: the word, and then a colon or a slash? */
  predicate AsksHttps(typed: string) {
    5 < |typed| && LowerAll(typed[..5]) == "https" && (typed[5] == ':' || typed[5] == '/')
  }

  lemma AsksIs(typed: string)
    ensures TakeScheme(typed).0 == Some("https") <==> AsksHttps(typed)
  {
    TakesColonOrSlash(typed, "https");
    assert |"http"| != |"https"|;
    hide AfterScheme, AsksHttps;
  }

  /** A scheme's name is taken as one exactly if a colon or a slash comes after it. */
  lemma TakesColonOrSlash(typed: string, name: string)
    ensures AfterScheme(typed, name).Some? <==>
              |name| < |typed| && LowerAll(typed[..|name|]) == name && (typed[|name|] == ':' || typed[|name|] == '/')
  {
    hide LowerAll;
    if |name| <= |typed| {
      var rest := typed[|name|..];
      var after := if rest != [] && rest[0] == ':' then rest[1..] else rest;
      TrimStartSuffix(after, Slash());
      if rest != "" && rest[0] == '/' {
        TrimStartSuffix(rest[1..], Slash());
        assert TrimStart(after, Slash()) == TrimStart(rest[1..], Slash());
      } else if rest == "" || rest[0] != ':' {
        TrimStartNothing(rest, Slash());
      }
    }
  }

  predicate Brackets(s: string) {
    forall c :: c in s ==> c == '[' || c == ']'
  }

  /** A host without the brackets at its ends. */
  ghost predicate Unbracketed(host: string, inner: string) {
    && (inner != "" ==> !Brackets([inner[0]]) && !Brackets([inner[|inner| - 1]]))
    && exists l, r :: Brackets(l) && Brackets(r) && host == l + (inner + r)
  }

  lemma {:induction false} StartDropped(l: string, s: string)
    requires Brackets(l) && (s == "" || !Brackets([s[0]]))
    ensures TrimStart(l + s, Bracket()) == s
    decreases |l|
  {
    if l == "" {
      assert l + s == s && (s != "" ==> s[0] in [s[0]]);
      TrimStartNothing(s, Bracket());
    } else {
      assert l[0] in l && (forall c :: c in l[1..] ==> c in l) && (l + s)[1..] == l[1..] + s;
      StartDropped(l[1..], s);
    }
  }

  lemma {:induction false} EndDropped(s: string, r: string)
    requires Brackets(r) && (s == "" || !Brackets([s[|s| - 1]]))
    ensures TrimEnd(s + r, Bracket()) == s
    decreases |r|
  {
    if r == "" {
      assert s + r == s && (s != "" ==> s[|s| - 1] in [s[|s| - 1]]);
    } else {
      var init := r[..|r| - 1];
      InitIn(r);
      assert (forall c :: c in init ==> c in r) && (s + r)[..|s + r| - 1] == s + init;
      EndDropped(s, init);
    }
  }

  lemma BareIs(host: string, inner: string)
    requires Unbracketed(host, inner)
    ensures Bare(host) == inner
  {
    var l, r :| Brackets(l) && Brackets(r) && host == l + (inner + r);
    if inner == "" {
      assert host == (l + r) + "" && "" + "" == "";
      StartDropped(l + r, "");
      EndDropped("", "");
    } else {
      assert (inner + r)[0] == inner[0];
      StartDropped(l, inner + r);
      EndDropped(inner, r);
    }
  }

  /** A token never travels in the clear to a public host: the result starts with "http:" exactly
      when https was not asked for and the host is one of those names, or writes, in four numbers, an
      address of those networks. */
  lemma CleartextIff(raw: string, inner: string)
    requires Parse(raw).Some? && Unbracketed(Parse(raw).value.host, inner)
    ensures "http:" <= Normalize(raw).value <==>
              && !AsksHttps(Collapse(raw))
              && (HomeName(inner) || exists a, b :: Quad(inner, a, b) && AtHome(a, b))
  {
    CleartextOnlyWhereAllowed(raw);
    AsksIs(Collapse(raw));
    BareIs(Parse(raw).value.host, inner);
    AllowedIs(inner);
    hide *;
  }

  function QuadText(a: nat, b: nat, c: nat, d: nat): string {
    Dotted(Decimal(a), Decimal(b), Decimal(c), Decimal(d))
  }

  predicate DigitsAndDots(s: string) {
    forall c :: c in s ==> '0' <= c <= '9' || c == '.'
  }

  lemma QuadShape(a: nat, b: nat, c: nat, d: nat)
    ensures var h := QuadText(a, b, c, d);
            h != "" && DigitsAndDots(h) && '0' <= h[0] <= '9' && '0' <= h[|h| - 1] <= '9'
  {
    DecimalDigits(a);
    DecimalDigits(b);
    DecimalDigits(c);
    DecimalDigits(d);
    hide Decimal;
    var h := QuadText(a, b, c, d);
    assert h[0] == Decimal(a)[0] && h[|h| - 1] == Decimal(d)[|Decimal(d)| - 1];
  }

  lemma DigitsAreGood(h: string)
    requires h != "" && DigitsAndDots(h) && '0' <= h[0] <= '9'
    ensures GoodHost(h, None) && Unbracketed(h, h)
    ensures TakeScheme(h) == (None, h)
  {
    assert h[0] in h && h[|h| - 1] in h;
    NoneThere(h, ':');
    SameLowered(h);
    assert h[0] in [h[0]] && h[|h| - 1] in [h[|h| - 1]];
    NotAScheme(h, "https");
    NotAScheme(h, "http");
    assert h == "" + (h + "") && Brackets("");
    hide LowerAll, LastIndex, AfterScheme, Trim;
  }

  lemma SameLowered(h: string)
    requires DigitsAndDots(h)
    ensures LowerAll(h) == h
  {
    LowerEach(h);
    hide LowerAll;
    forall i | 0 <= i < |h|
      ensures LowerAll(h)[i] == h[i]
    {
      assert h[i] in h;
    }
  }

  lemma NotAScheme(h: string, name: string)
    requires h != "" && '0' <= h[0] <= '9' && name != "" && name[0] == 'h'
    ensures AfterScheme(h, name).None?
  {
    if |name| <= |h| {
      LowerEach(h[..|name|]);
      assert LowerAll(h[..|name|])[0] == Lower(h[0]);
    }
  }

  /** What is read of a text from which a scheme and an authority were taken. */
  lemma ParseFrom(raw: string, scheme: Option<string>, host: string)
    requires Collapse(raw) == raw && raw != "" && TakeScheme(raw) == (scheme, host)
    requires GoodHost(host, None)
    ensures Parse(raw) ==
              var secure := scheme == Some("https") || !AllowsCleartext(Bare(host));
              Some(Address(if secure then "https" else "http", host, None))
  {
    SplitRead(host, None);
    assert host + PortText(None) == host;
    AuthorityWhole(host) by {
      hide *;
      PlainHost(host);
    }
    hide Collapse, TakeScheme, AuthorityOnly, SplitHostPort, NormalizeHost, AllowsCleartext, GoodHost, Bare;
    assert host != "" by {
      PlainHost(host);
    }
  }

  lemma PlainHost(host: string)
    requires GoodHost(host, None)
    ensures host != "" && forall c :: c in host ==> !EndsAuthority(c)
  {
  }

  lemma QuadAllowed(a: nat, b: nat, c: nat, d: nat)
    requires a <= 255 && b <= 255 && c <= 255 && d <= 255
    ensures AllowsCleartext(QuadText(a, b, c, d)) <==> AtHome(a, b)
  {
    var h := QuadText(a, b, c, d);
    AllowedIs(h);
    QuadShape(a, b, c, d);
    assert !HomeName(h) by {
      assert h[|h| - 1] != 'l' && h[|h| - 1] != 'n' && h[|h| - 1] != 'e' && h[|h| - 1] != 't' && h[0] != ':';
    }
    WritesItself(a);
    WritesItself(b);
    WritesItself(c);
    WritesItself(d);
    assert Quad(h, a, b);
    QuadGiven(h, a, b);
    forall m: nat, n: nat | Quad(h, m, n)
      ensures m == a && n == b
    {
      QuadGiven(h, m, n);
    }
    hide *;
  }

  lemma WritesItself(n: nat)
    ensures Writes(Decimal(n), n)
  {
    assert Decimal(n) == "" + ("" + Decimal(n));
  }

  lemma Spaceless(prefix: string, h: string)
    requires (forall c :: c in prefix ==> !IsSpace(c)) && (forall c :: c in h ==> !IsSpace(c))
    ensures Collapse(prefix + h) == prefix + h
  {
    CollapseIs(prefix + h);
    hide Collapse, IsSpace;
  }

  lemma SchemeSpaceless(scheme: string)
    requires scheme == "http" || scheme == "https"
    ensures forall c :: c in scheme + "://" ==> !IsSpace(c)
  {
    assert forall c :: c in "://" ==> !IsSpace(c);
    assert forall c :: c in scheme ==> !IsSpace(c);
    hide IsSpace;
  }

  lemma PlainTyped(h: string)
    requires h != "" && DigitsAndDots(h) && '0' <= h[0] <= '9'
    ensures Parse(h) == Some(Address(if AllowsCleartext(h) then "http" else "https", h, None))
  {
    DigitsAreGood(h);
    BareIs(h, h);
    CollapseIs(h);
    hide AllowsCleartext, TakeScheme, GoodHost, Parse, Collapse, Bare;
    ParseFrom(h, None, h);
  }

  lemma SchemeTyped(scheme: string, h: string)
    requires h != "" && DigitsAndDots(h) && '0' <= h[0] <= '9' && (scheme == "http" || scheme == "https")
    ensures Parse(scheme + "://" + h)
         == Some(Address(if scheme == "http" && AllowsCleartext(h) then "http" else "https", h, None))
  {
    DigitsAreGood(h);
    BareIs(h, h);
    SchemeSpaceless(scheme);
    Spaceless(scheme + "://", h);
    SchemeRead(scheme, h);
    hide AllowsCleartext, TakeScheme, GoodHost, Parse, Collapse, Bare, IsSpace;
    ParseFrom(scheme + "://" + h, Some(scheme), h);
  }

  lemma NormalizedTo(raw: string, scheme: string, h: string)
    requires Parse(raw) == Some(Address(scheme, h, None))
    ensures Normalize(raw) == Some(scheme + "://" + h)
  {
    hide Parse;
    assert scheme + "://" + h + "" == scheme + "://" + h;
  }

  /** An address typed as four numbers, with a scheme or without one: private ones are spoken to in
      the clear unless https was asked for, public ones never. */
  lemma QuadTyped(a: nat, b: nat, c: nat, d: nat, scheme: string)
    requires a <= 255 && b <= 255 && c <= 255 && d <= 255
    requires scheme == "" || scheme == "http" || scheme == "https"
    ensures var h := QuadText(a, b, c, d);
            Normalize(if scheme == "" then h else scheme + "://" + h)
            == Some((if AtHome(a, b) && scheme != "https" then "http" else "https") + "://" + h)
  {
    var h := QuadText(a, b, c, d);
    QuadShape(a, b, c, d);
    QuadAllowed(a, b, c, d);
    hide *;
    if scheme == "" {
      PlainTyped(h);
      NormalizedTo(h, if AtHome(a, b) then "http" else "https", h);
    } else {
      SchemeTyped(scheme, h);
      NormalizedTo(scheme + "://" + h, if AtHome(a, b) && scheme == "http" then "http" else "https", h);
    }
  }
}
