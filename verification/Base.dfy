/** Base URLs of the form scheme://authority/path with a query or fragment, as net/url takes
    them apart, and the text to which the generated client adds its slash. */
module BaseUrl {
  import opened Wrappers
  import opened Decimal
  import opened Url

  // ----- the parts of a text

  predicate Letter(c: char) {
    'a' <= c <= 'z' || 'A' <= c <= 'Z'
  }

  predicate ValidScheme(s: string) {
    s != "" && Letter(s[0]) && forall i :: 0 <= i < |s| ==> Letter(s[i]) || IsDigit(s[i]) || s[i] in "+-."
  }

  /** A query or a fragment begins here. */
  predicate Mark(c: char) {
    c == '?' || c == '#'
  }

  predicate NoMarks(s: string) {
    forall i :: 0 <= i < |s| ==> !Mark(s[i])
  }

  /** The parts as written: `segments` are those of the path, `suffix` is the query and the
      fragment with their marks. */
  datatype Base = Base(scheme: string, authority: string, segments: seq<string>, suffix: string) {
    predicate Valid() {
      && ValidScheme(scheme) && '/' !in authority && NoMarks(authority)
      && NoSlashes(segments) && NoMarks(Join(segments))
      && (suffix == "" || Mark(suffix[0]))
    }

    function Text(): string {
      scheme + ([':'] + ("//" + (authority + Join(segments) + suffix)))
    }

    predicate TrailingSlash() {
      segments != [] && segments[|segments| - 1] == ""
    }
  }

  function UpToMark(s: string): (n: nat)
    ensures n <= |s|
  {
    if s == "" || Mark(s[0]) then 0 else 1 + UpToMark(s[1..])
  }

  function SplitBase(text: string): Option<Base> {
    var (scheme, rest, found) := Cut(text, ':');
    if !found || !ValidScheme(scheme) || !("//" <= rest) then None
    else
      var s := rest[2..];
      var n := UpToMark(s);
      var k := UpToSlash(s[..n]);
      PathAhead(s[..n]);
      Some(Base(scheme, s[..n][..k], Split(s[..n][k..]), s[n..]))
  }

  lemma PathAhead(s: string)
    ensures var k := UpToSlash(s); '/' !in s[..k] && (s[k..] == "" || s[k..][0] == '/')
  {
    UpToSlashEnds(s);
  }

  lemma {:induction false} UpToMarkEnds(s: string)
    ensures var n := UpToMark(s); NoMarks(s[..n]) && (n < |s| ==> Mark(s[n]))
  {
    if s != "" && !Mark(s[0]) {
      UpToMarkEnds(s[1..]);
      assert s[..UpToMark(s)] == [s[0]] + s[1..][..UpToMark(s[1..])];
    }
  }

  lemma {:induction false} UpToMarkOf(s: string, rest: string)
    requires NoMarks(s) && (rest == "" || Mark(rest[0]))
    ensures UpToMark(s + rest) == |s|
  {
    if s == "" {
      assert s + rest == rest;
    } else {
      assert (s + rest)[1..] == s[1..] + rest;
      UpToMarkOf(s[1..], rest);
    }
  }

  lemma {:induction false} CutWhole(s: string, c: char)
    ensures var (a, b, found) := Cut(s, c); c !in a && s == (if found then a + ([c] + b) else a)
  {
    if s != "" && s[0] != c {
      CutWhole(s[1..], c);
      assert s == [s[0]] + s[1..];
    }
  }

  lemma {:induction false} SplitOfJoin(segments: seq<string>)
    requires NoSlashes(segments)
    ensures Join(segments) == "" || Join(segments)[0] == '/'
    ensures Split(Join(segments)) == segments
  {
    if segments != [] {
      SplitOfJoin(segments[1..]);
      SplitOfNext(segments[0], Join(segments[1..]));
      assert segments == [segments[0]] + segments[1..];
    }
  }

  lemma SplitOfNext(s: string, rest: string)
    requires '/' !in s && (rest == "" || rest[0] == '/')
    ensures Split("/" + s + rest) == [s] + Split(rest)
  {
    UpToSlashOf(s, rest);
    assert "/" + s + rest == "/" + (s + rest);
    Parts("/", s + rest);
    Parts(s, rest);
    Parts("/" + s, rest);
  }

  /** A text is its parts put together again. */
  lemma TextOfSplit(text: string)
    requires SplitBase(text).Some?
    ensures SplitBase(text).value.Valid() && SplitBase(text).value.Text() == text
  {
    var (scheme, rest, _) := Cut(text, ':');
    CutWhole(text, ':');
    PartsOfRest(scheme, rest[2..]);
    assert rest == "//" + rest[2..];
  }

  lemma Rejoins(s: string, n: nat)
    requires n <= |s|
    ensures s == s[..n] + s[n..]
  {
  }

  lemma PartsOfRest(scheme: string, s: string)
    requires ValidScheme(scheme)
    ensures var place := s[..UpToMark(s)];
            var k := UpToSlash(place);
            && (place[k..] == "" || place[k..][0] == '/')
            && var base := Base(scheme, place[..k], Split(place[k..]), s[UpToMark(s)..]);
               base.Valid() && base.authority + Join(base.segments) + base.suffix == s
  {
    var place, suffix := s[..UpToMark(s)], s[UpToMark(s)..];
    var k := UpToSlash(place);
    UpToMarkEnds(s);
    PathAhead(place);
    Rejoins(s, UpToMark(s));
    Rejoins(place, k);
    MarksInParts(place[..k], place[k..]);
  }

  lemma MarksInParts(a: string, b: string)
    ensures NoMarks(a + b) <==> NoMarks(a) && NoMarks(b)
  {
    assert forall i :: 0 <= i < |b| ==> b[i] == (a + b)[|a| + i];
    assert forall i :: 0 <= i < |a| ==> a[i] == (a + b)[i];
  }

  /** And parts are found again in their text; so bases and texts of this form are the same. */
  lemma SplitOfText(base: Base)
    requires base.Valid()
    ensures SplitBase(base.Text()) == Some(base)
  {
    var path := Join(base.segments);
    var s := base.authority + path + base.suffix;
    SchemeHasNoColon(base.scheme);
    CutFinds(base.scheme, ':', "//" + s);
    Parts("//", s);
    MarksInParts(base.authority, path);
    UpToMarkOf(base.authority + path, base.suffix);
    Parts(base.authority + path, base.suffix);
    SplitOfJoin(base.segments);
    UpToSlashOf(base.authority, path);
    Parts(base.authority, path);
  }

  lemma SchemeHasNoColon(scheme: string)
    requires ValidScheme(scheme)
    ensures ':' !in scheme
  {
  }

  // ----- what net/url makes of the parts

  function Lower(s: string): string {
    seq(|s|, i requires 0 <= i < |s| => if 'A' <= s[i] <= 'Z' then s[i] - 'A' + 'a' else s[i])
  }

  predicate NoControls(s: string) {
    forall i :: 0 <= i < |s| ==> ' ' <= s[i] && s[i] != 0x7f as char
  }

  /** Just behind the last c, or 0. */
  function Past(s: string, c: char): (n: nat)
    ensures n <= |s| && (n > 0 ==> s[n - 1] == c)
  {
    if s == "" then 0 else if s[|s| - 1] == c then |s| else Past(s[..|s| - 1], c)
  }

  predicate ValidUserinfo(s: string) {
    forall i :: 0 <= i < |s| ==> Letter(s[i]) || IsDigit(s[i]) || s[i] in "-._:~!$&'()*+,;=%@"
  }

  /** User information, decoded and printed again, with the sign behind it. */
  function PrintedUser(info: string): Option<string> {
    var (name, password, more) := Cut(info, ':');
    match (Unescape(name, false), Unescape(password, false))
    case (Some(n), Some(p)) =>
      if !ValidUserinfo(info) then None
      else Some(Escape(n, UserPart) + (if more then ":" + Escape(p, UserPart) else "") + "@")
    case _ => None
  }

  predicate ValidOptionalPort(s: string) {
    s == "" || (s[0] == ':' && forall i :: 1 <= i < |s| ==> IsDigit(s[i]))
  }

  /** In a host only non-ASCII bytes and the percent sign may be escaped; in a zone also a
      space and what a host may hold anyway.  Other ASCII characters must not occur. */
  function DecodeHost(s: string, zone: bool): Option<string> {
    if s == "" then Some("")
    else if s[0] == '%' then
      match EscapeValue(s)
      case None => None
      case Some(c) =>
        if c == '%' || (if zone then c == ' ' || Keeps(HostName, c) else c as int >= 128)
        then Prepend(c, DecodeHost(s[3..], zone)) else None
    else if (s[0] as int) < 128 && !Keeps(HostName, s[0]) then None
    else Prepend(s[0], DecodeHost(s[1..], zone))
  }

  const ZONE_SIGN := "%25"

  function UpToZone(s: string): (n: nat)
    ensures n <= |s| && (n < |s| ==> ZONE_SIGN <= s[n..])
  {
    if s == "" || ZONE_SIGN <= s then 0 else 1 + UpToZone(s[1..])
  }

  function Concat(a: Option<string>, b: Option<string>): Option<string> {
    if a.Some? && b.Some? then Some(a.value + b.value) else None
  }

  /** An IP literal up to its bracket at `end`, with its port. */
  function DecodeLiteral(h: string, end: nat): Option<string>
    requires end <= |h|
  {
    var zone := UpToZone(h[..end]);
    if zone == end then DecodeHost(h, false)
    else Concat(Concat(DecodeHost(h[..zone], false), DecodeHost(h[zone..end], true)), DecodeHost(h[end..], false))
  }

  function ParseHost(h: string): Option<string> {
    if h != "" && h[0] == '[' then
      var end := Past(h, ']');
      if end == 0 || !ValidOptionalPort(h[end..]) then None else DecodeLiteral(h, end - 1)
    else if Past(h, ':') > 0 && !ValidOptionalPort(h[Past(h, ':') - 1..]) then None
    else DecodeHost(h, false)
  }

  /** What the builders use of a parsed URL: `user` as it is printed, host and path decoded. */
  datatype Parsed = Parsed(scheme: string, user: string, host: string, path: string)

  function UserOf(authority: string): Option<string> {
    var at := Past(authority, '@');
    if at == 0 then Some("") else PrintedUser(authority[..at - 1])
  }

  function HostOf(authority: string): Option<string> {
    ParseHost(authority[Past(authority, '@')..])
  }

  predicate SuffixAccepted(suffix: string) {
    var (query, fragment, _) := Cut(suffix, '#');
    NoControls(query) && Unescape(fragment, false).Some?
  }

  function Assemble(scheme: string, user: Option<string>, host: Option<string>, path: Option<string>): Option<Parsed> {
    if user.Some? && host.Some? && path.Some? then Some(Parsed(Lower(scheme), user.value, host.value, path.value))
    else None
  }

  /** url.Parse. */
  function Parse(base: Base): Option<Parsed> {
    ParseParts(base.scheme, base.authority, Join(base.segments), base.suffix)
  }

  function ParseParts(scheme: string, authority: string, path: string, suffix: string): Option<Parsed> {
    if !NoControls(authority) || !NoControls(path) || !SuffixAccepted(suffix) then None
    else Assemble(scheme, UserOf(authority), HostOf(authority), Unescape(path, false))
  }

  // ----- the authority

  lemma {:induction false} DecodedChars(s: string, zone: bool)
    requires DecodeHost(s, zone).Some?
    ensures var d := DecodeHost(s, zone).value; '/' !in d && '@' !in d
    decreases |s|
  {
    if s != "" {
      var d := DecodeHost(s, zone).value;
      var k := if s[0] == '%' then 3 else 1;
      DecodedChars(s[k..], zone);
      HostSigns();
      assert d == [d[0]] + DecodeHost(s[k..], zone).value;
    }
  }

  lemma {:induction false} DecodedHost(s: string, zone: bool)
    requires DecodeHost(s, zone).Some?
    ensures var d := DecodeHost(s, zone).value;
            && '/' !in d && '@' !in d
            && (AllKept(s, HostName) ==> d == s)
            && (!zone && AllKept(d, HostName) ==> AllKept(s, HostName))
            && (ZONE_SIGN <= s ==> !AllKept(d, HostName))
    decreases |s|
  {
    DecodedChars(s, zone);
    HostSigns();
    assert ZONE_SIGN[0] == '%';
    if s != "" {
      var d := DecodeHost(s, zone).value;
      if s[0] == '%' {
        assert !AllKept(s, HostName);
        DecodedSign(s, zone);
      } else {
        DecodedHost(s[1..], zone);
        var t := DecodeHost(s[1..], zone).value;
        assert d == [s[0]] + t && s == [s[0]] + s[1..];
        AllKeptParts([s[0]], t, HostName);
        AllKeptParts([s[0]], s[1..], HostName);
      }
    }
  }

  lemma DecodedSign(s: string, zone: bool)
    requires DecodeHost(s, zone).Some? && s != "" && s[0] == '%'
    ensures !zone || ZONE_SIGN <= s ==> !AllKept(DecodeHost(s, zone).value, HostName)
  {
    HostSigns();
    var d := DecodeHost(s, zone).value;
    assert d[0] == EscapeValue(s).value;
    if ZONE_SIGN <= s {
      assert s[1] == '2' && s[2] == '5';
    }
  }

  lemma HostSigns()
    ensures !Keeps(HostName, '/') && !Keeps(HostName, '@') && !Keeps(HostName, '%')
    ensures forall c: char :: c as int >= 128 ==> !Keeps(HostName, c)
  {
  }

  lemma AllKeptParts(a: string, b: string, mode: Mode)
    ensures AllKept(a + b, mode) <==> AllKept(a, mode) && AllKept(b, mode)
  {
    assert forall i :: 0 <= i < |b| ==> b[i] == (a + b)[|a| + i];
    assert forall i :: 0 <= i < |a| ==> a[i] == (a + b)[i];
  }

  ghost predicate PrintedAlike(h: string, d: string) {
    && '/' !in d && '@' !in d
    && (AllKept(d, HostName) <==> AllKept(h, HostName)) && (AllKept(h, HostName) ==> d == h)
  }

  /** A decoded host has no slash and no at sign, and it is printed as it was written
      exactly if that holds nothing net/url would escape. */
  lemma HostParses(h: string)
    requires ParseHost(h).Some?
    ensures PrintedAlike(h, ParseHost(h).value)
  {
    if h != "" && h[0] == '[' {
      LiteralParses(h, Past(h, ']') - 1);
    } else {
      DecodedHost(h, false);
    }
  }

  lemma LiteralParses(h: string, end: nat)
    requires end <= |h| && DecodeLiteral(h, end).Some?
    ensures PrintedAlike(h, DecodeLiteral(h, end).value)
  {
    var zone := UpToZone(h[..end]);
    if zone == end {
      DecodedHost(h, false);
    } else {
      ThreeParts(h, zone, end);
      ZonedHost(h[..zone], h[zone..end], h[end..]);
    }
  }

  lemma ZonedHost(a: string, z: string, b: string)
    requires ZONE_SIGN <= z
    requires DecodeHost(a, false).Some? && DecodeHost(z, true).Some? && DecodeHost(b, false).Some?
    ensures var d := DecodeHost(a, false).value + DecodeHost(z, true).value + DecodeHost(b, false).value;
            '/' !in d && '@' !in d && !AllKept(d, HostName) && !AllKept(a + z + b, HostName)
  {
    DecodedHost(a, false);
    DecodedHost(z, true);
    DecodedHost(b, false);
    var da, dz, db := DecodeHost(a, false).value, DecodeHost(z, true).value, DecodeHost(b, false).value;
    AllKeptParts(da + dz, db, HostName);
    AllKeptParts(da, dz, HostName);
    ZoneIsEscaped(a, z, b);
  }

  lemma ZoneIsEscaped(a: string, z: string, b: string)
    requires ZONE_SIGN <= z
    ensures !AllKept(a + z + b, HostName)
  {
    HostSigns();
    assert z[0] == '%';
    assert (a + z + b)[|a|] == '%';
  }

  lemma {:induction false} PastLast(s: string, c: char)
    ensures c !in s[Past(s, c)..]
    ensures Past(s, c) > 0 <==> c in s
  {
    if s != "" {
      var n := |s| - 1;
      assert s == s[..n] + [s[n]];
      PastLast(s[..n], c);
      if s[n] != c {
        assert s[Past(s, c)..] == s[..n][Past(s, c)..] + [s[n]];
      }
    }
  }

  /** Printed user information ends in an at sign and has no slash. */
  lemma UserShape(info: string)
    requires PrintedUser(info).Some?
    ensures '@' in PrintedUser(info).value && '/' !in PrintedUser(info).value
  {
    var (name, password, more) := Cut(info, ':');
    var n, p := Unescape(name, false).value, Unescape(password, false).value;
    EscapeChars(n, UserPart);
    EscapeChars(p, UserPart);
    var u := PrintedUser(info).value;
    assert u[|u| - 1] == '@';
    assert '/' !in Escape(n, UserPart) && '/' !in Escape(p, UserPart) by { assert !Keeps(UserPart, '/'); }
  }

  /** Both builders print the same authority exactly if it has nothing that net/url would
      escape in a host; in particular no user information. */
  lemma AuthorityAgrees(authority: string)
    requires UserOf(authority).Some? && HostOf(authority).Some?
    ensures var user, host := UserOf(authority).value, HostOf(authority).value;
            && '/' !in host && '/' !in user + Escape(host, HostName)
            && (user + Escape(host, HostName) == host <==> AllKept(authority, HostName))
  {
    var user, host := UserOf(authority).value, HostOf(authority).value;
    var at := Past(authority, '@');
    PastLast(authority, '@');
    HostParses(authority[at..]);
    EscapeChars(host, HostName);
    EscapeFixpoint(host, HostName);
    HostSigns();
    if at == 0 {
      assert authority[0..] == authority && user + Escape(host, HostName) == Escape(host, HostName);
    } else {
      UserShape(authority[..at - 1]);
      assert authority[at - 1] == '@';
      assert '@' in user + Escape(host, HostName);
    }
  }

  /** A host of characters it may be printed with is accepted, and found again as written;
      a port behind it is, too, exactly if it is made of digits. */
  lemma HostAccepted(h: string)
    requires AllKept(h, HostName) && ':' !in h && '[' !in h
    ensures HostOf(h) == Some(h) && UserOf(h) == Some("")
  {
    KeptHost(h);
    PastLast(h, ':');
    assert h != "" ==> h[0] in h;
  }

  lemma PortAccepted(h: string, port: string)
    requires AllKept(h, HostName) && AllKept(port, HostName) && ':' !in h && ':' !in port && '[' !in h
    ensures var a := h + [':'] + port;
            && UserOf(a) == Some("")
            && HostOf(a) == if forall i :: 0 <= i < |port| ==> IsDigit(port[i]) then Some(a) else None
  {
    var a := h + [':'] + port;
    AllKeptParts(h + [':'], port, HostName);
    AllKeptParts(h, [':'], HostName);
    KeptHost(a);
    PastOf(h, ':', port);
    PortAt(h, port);
    assert h != "" ==> h[0] in h && a[0] == h[0];
  }

  lemma PortAt(h: string, port: string)
    ensures var a := h + [':'] + port;
            ValidOptionalPort(a[|h|..]) <==> forall i :: 0 <= i < |port| ==> IsDigit(port[i])
  {
    var p := [':'] + port;
    assert h + [':'] + port == h + p;
    Parts(h, p);
    assert forall i :: 0 <= i < |port| ==> port[i] == p[i + 1];
    assert forall i :: 1 <= i < |p| ==> p[i] == port[i - 1];
  }

  /** User information without anything to escape is printed as it was written. */
  lemma UserAccepted(name: string, password: string)
    requires AllKept(name, UserPart) && AllKept(password, UserPart)
    ensures PrintedUser(name) == Some(name + "@")
    ensures PrintedUser(name + ([':'] + password)) == Some(name + (":" + password) + "@")
  {
    UserSigns();
    CutFinds(name, ':', password);
    CutFinds("", ':', "");
    EscapeUnchanged(name, UserPart);
    EscapeUnchanged(password, UserPart);
    UnescapePlain(name);
    UnescapePlain(password);
    UnescapePlain("");
    UserChars(name, password);
    assert name + "" == name;
  }

  lemma UserSigns()
    ensures !Keeps(UserPart, '%') && !Keeps(UserPart, ':')
  {
  }

  lemma UserChars(name: string, password: string)
    requires AllKept(name, UserPart) && AllKept(password, UserPart)
    ensures ValidUserinfo(name) && ValidUserinfo(name + ([':'] + password))
  {
    forall c: char | Keeps(UserPart, c)
      ensures Letter(c) || IsDigit(c) || c in "-._:~!$&'()*+,;=%@"
    {
    }
  }

  /** A base with a control character before its fragment is refused. */
  lemma ControlsRefused(base: Base, c: char)
    requires (c as int) < 32 || c as int == 127
    requires c in base.authority || c in Join(base.segments) || c in Cut(base.suffix, '#').0
    ensures Parse(base) == None
  {
  }

  lemma KeptHost(a: string)
    requires AllKept(a, HostName)
    ensures Past(a, '@') == 0 && a[0..] == a && DecodeHost(a, false) == Some(a)
  {
    HostSigns();
    PastLast(a, '@');
    KeptDecodes(a);
  }

  lemma {:induction false} KeptDecodes(a: string)
    requires AllKept(a, HostName)
    ensures DecodeHost(a, false) == Some(a)
  {
    if a != "" {
      HostSigns();
      assert a == [a[0]] + a[1..];
      KeptDecodes(a[1..]);
    }
  }

  lemma {:induction false} PastOf(a: string, c: char, b: string)
    requires c !in b
    ensures Past(a + [c] + b, c) == |a| + 1
  {
    if b != "" {
      var n := |b| - 1;
      assert (a + [c] + b)[..|a| + 1 + n] == a + [c] + b[..n];
      PastOf(a, c, b[..n]);
    }
  }

  // ----- the slash of the generated client

  /** Is the slash added to the path?  Behind a query or fragment it is added to that. */
  predicate Appends(base: Base) {
    base.suffix == "" && !base.TrailingSlash() && !(base.segments == [] && base.authority == "")
  }

  /** The server text of the client, by parts. */
  function Slashed(base: Base): Base {
    if Appends(base) then base.(segments := base.segments + [""])
    else if base.suffix == "" || base.suffix[|base.suffix| - 1] == '/' then base
    else base.(suffix := base.suffix + "/")
  }

  lemma {:induction false} JoinLast(segments: seq<string>)
    requires NoSlashes(segments) && segments != []
    ensures Join(segments)[|Join(segments)| - 1] == '/' <==> segments[|segments| - 1] == ""
  {
    if |segments| > 1 {
      JoinLast(segments[1..]);
    } else {
      assert Join(segments) == "/" + segments[0];
    }
  }

  lemma SlashedPath(base: Base)
    ensures Join(Slashed(base).segments) == Join(base.segments) + (if Appends(base) then "/" else "")
  {
    JoinAppend(base.segments, [""]);
    assert Join([""]) == "/";
    assert Join(base.segments) + "" == Join(base.segments);
  }

  /** By parts or on the text: a slash is added unless there is one at the end. */
  lemma ServerIsSlashed(base: Base, server: string)
    requires base.Valid()
    requires var text := base.Text(); server == if text[|text| - 1] == '/' then text else text + "/"
    ensures server == Slashed(base).Text() && Slashed(base).Valid()
  {
    SlashedPath(base);
    TextEnds(base);
    SlashedRest(base.authority, Join(base.segments), base.suffix);
    Four(base.scheme, [':'], "//", base.authority + Join(base.segments) + base.suffix);
  }

  lemma TextEnds(base: Base)
    requires base.Valid()
    ensures base.Text()[|base.Text()| - 1] == '/' <==> Slashed(base) == base
  {
    var path := Join(base.segments);
    if base.segments != [] {
      JoinLast(base.segments);
    }
    assert base.suffix == "" ==> base.authority + path + base.suffix == base.authority + path;
    LastOf(base.authority, path);
    LastOf(base.authority + path, base.suffix);
    LastOf("//", base.authority + path + base.suffix);
    LastOf([':'], "//" + (base.authority + path + base.suffix));
    LastOf(base.scheme, [':'] + ("//" + (base.authority + path + base.suffix)));
    assert base.authority != "" ==> base.authority[|base.authority| - 1] in base.authority;
  }

  lemma LastOf(a: string, b: string)
    ensures b != "" ==> (a + b)[|a + b| - 1] == b[|b| - 1]
    ensures b == "" ==> a + b == a
  {
  }

  lemma Four(a: string, b: string, c: string, d: string)
    ensures a + (b + (c + d)) == a + b + c + d
    ensures a + (b + (c + (d + "/"))) == a + b + c + d + "/"
  {
  }

  lemma SlashedRest(authority: string, path: string, suffix: string)
    ensures authority + path + (suffix + "/") == authority + path + suffix + "/"
    ensures authority + (path + "/") + "" == authority + path + "" + "/"
  {
  }

  lemma SlashIsNoControl(a: string)
    ensures NoControls(a + "/") <==> NoControls(a)
  {
    assert forall i :: 0 <= i < |a| ==> a[i] == (a + "/")[i];
  }

  lemma {:induction false} CutAppend(s: string, t: string, c: char)
    requires c !in t
    ensures var (a, b, found) := Cut(s, c); Cut(s + t, c) == (if found then (a, b + t, true) else (a + t, b, false))
  {
    if s == "" {
      assert s + t == t;
      CutFinds(t, c, "");
    } else {
      assert (s + t)[1..] == s[1..] + t;
      if s[0] != c {
        CutAppend(s[1..], t, c);
        var a := Cut(s[1..], c).0;
        assert [s[0]] + (a + t) == [s[0]] + a + t;
      }
    }
  }

  lemma SlashDecodes(s: string)
    ensures Unescape(s + "/", false) == if Unescape(s, false).Some? then Some(Unescape(s, false).value + "/") else None
  {
    UnescapePlain("/");
    UnescapeSplits(s, "/");
  }

  lemma SuffixSlashed(suffix: string)
    ensures SuffixAccepted(suffix + "/") <==> SuffixAccepted(suffix)
  {
    var (query, fragment, _) := Cut(suffix, '#');
    CutAppend(suffix, "/", '#');
    SlashDecodes(fragment);
    SlashIsNoControl(query);
  }

  /** A parsed URL with a slash added to its path. */
  function WithSlash(p: Option<Parsed>): Option<Parsed> {
    if p.None? then None else Some(p.value.(path := p.value.path + "/"))
  }

  lemma PathSlashed(scheme: string, authority: string, path: string, suffix: string)
    ensures ParseParts(scheme, authority, path + "/", suffix) == WithSlash(ParseParts(scheme, authority, path, suffix))
  {
    SlashDecodes(path);
    SlashIsNoControl(path);
    AssembleSlash(scheme, UserOf(authority), HostOf(authority), Unescape(path, false));
  }

  lemma AssembleSlash(scheme: string, user: Option<string>, host: Option<string>, path: Option<string>)
    ensures Assemble(scheme, user, host, if path.Some? then Some(path.value + "/") else None)
         == WithSlash(Assemble(scheme, user, host, path))
  {
  }

  /** The client's server text is accepted exactly if the base is, and differs in the slash. */
  lemma SlashedParses(base: Base)
    ensures Parse(Slashed(base)) == if Appends(base) then WithSlash(Parse(base)) else Parse(base)
  {
    if Appends(base) {
      SlashedPath(base);
      PathSlashed(base.scheme, base.authority, Join(base.segments), base.suffix);
    } else {
      SuffixSlashed(base.suffix);
    }
  }
}
