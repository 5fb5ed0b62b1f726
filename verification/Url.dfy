/** The pieces of URL syntax the two port-forward builders rely on: percent-encoding and
    reference resolution (sections 2.1 and 5.2 of RFC 3986).  A Go string is a sequence of
    bytes; each char below stands for one byte. */
module Url {
  import opened Wrappers

  /** A concatenation comes apart again. */
  lemma Parts(a: string, b: string)
    ensures (a + b)[..|a|] == a && (a + b)[|a|..] == b
  {
  }

  lemma ThreeParts(s: string, i: nat, j: nat)
    requires i <= j <= |s|
    ensures s == s[..i] + s[i..j] + s[j..] && s[..j][i..] == s[i..j]
  {
  }

  // ----- percent-encoding

  predicate IsBytes(s: string) {
    forall i :: 0 <= i < |s| ==> s[i] as int < 256
  }

  predicate Unreserved(c: char) {
    'a' <= c <= 'z' || 'A' <= c <= 'Z' || '0' <= c <= '9' || c in "-_.~"
  }

  /** What a text is escaped for: one segment of a path, a whole path, a part of the user
      information, or a host. */
  datatype Mode = Segment | WholePath | UserPart | HostName

  /** The characters beside the unreserved ones that are left alone. */
  function Extra(mode: Mode): string {
    match mode
    case Segment => "$&+=:@"
    case WholePath => "$&+=:@/;,"
    case UserPart => "$&+=;,"
    case HostName => "!$&'()*+,;=:[]<>\""
  }

  predicate Keeps(mode: Mode, c: char) {
    Unreserved(c) || c in Extra(mode)
  }

  function HexDigit(n: nat): char
    requires n < 16
  {
    if n < 10 then '0' + n as char else 'A' + (n - 10) as char
  }

  function HexValue(c: char): (v: Option<nat>)
    ensures v.Some? ==> v.value < 16
  {
    if '0' <= c <= '9' then Some((c - '0') as nat)
    else if 'A' <= c <= 'F' then Some((c - 'A') as nat + 10)
    else if 'a' <= c <= 'f' then Some((c - 'a') as nat + 10)
    else None
  }

  function EncodeByte(b: nat): string
    requires b < 256
  {
    ['%', HexDigit(b / 16), HexDigit(b % 16)]
  }

  function PercentEncode(c: char): string {
    EncodeByte(c as int % 256)
  }

  function Escape(s: string, mode: Mode): string {
    if s == "" then ""
    else (if Keeps(mode, s[0]) then [s[0]] else PercentEncode(s[0])) + Escape(s[1..], mode)
  }

  function PathEscape(s: string): string {
    Escape(s, Segment)
  }

  /** url.QueryEscape keeps the unreserved characters only. */
  function QueryEscape(s: string): string {
    if s == "" then ""
    else (if Unreserved(s[0]) then [s[0]] else if s[0] == ' ' then "+" else PercentEncode(s[0])) + QueryEscape(s[1..])
  }

  /** The byte that an escape at the front stands for. */
  function EscapeValue(s: string): Option<char> {
    if |s| < 3 then None else
    match (HexValue(s[1]), HexValue(s[2]))
    case (Some(h), Some(l)) => Some((16 * h + l) as char)
    case _ => None
  }

  function Prepend(c: char, rest: Option<string>): Option<string> {
    if rest.Some? then Some([c] + rest.value) else None
  }

  /** url.PathUnescape, or with `plus` url.QueryUnescape. */
  function Unescape(s: string, plus: bool): Option<string> {
    if s == "" then Some("")
    else if s[0] == '%' then
      match EscapeValue(s)
      case None => None
      case Some(c) => Prepend(c, Unescape(s[3..], plus))
    else Prepend(if plus && s[0] == '+' then ' ' else s[0], Unescape(s[1..], plus))
  }

  /** Section 2.3 of RFC 3986: letters, digits and four signs, by their ASCII codes. */
  predicate AsciiUnreserved(n: int) {
    65 <= n <= 90 || 97 <= n <= 122 || 48 <= n <= 57 || n in {45, 46, 95, 126}
  }

  lemma UnreservedTable(c: char)
    ensures Unreserved(c) <==> AsciiUnreserved(c as int)
  {
  }

  /** What is left alone where. */
  lemma KeptTable(c: char)
    ensures Keeps(Segment, c) <==> AsciiUnreserved(c as int) || c in "$&+=:@"
    ensures Keeps(WholePath, c) <==> AsciiUnreserved(c as int) || c in "$&+,/:;=@"
    ensures Keeps(UserPart, c) <==> AsciiUnreserved(c as int) || c in "$&+,;="
    ensures Keeps(HostName, c) <==> AsciiUnreserved(c as int) || c in "!$&'()*+,;=:[]<>\""
    ensures ValidInPath(c) <==> AsciiUnreserved(c as int) || c in "$&+,/:;=@!'()*[]%"
  {
    UnreservedTable(c);
  }

  const HEX := "0123456789ABCDEF"

  lemma ByteTable(b: nat, h: nat, l: nat)
    requires b < 256 && h == b / 16 && l == b % 16
    ensures EncodeByte(b) == ['%', HEX[h], HEX[l]]
  {
    DigitTable(h);
    DigitTable(l);
  }

  lemma PercentTable(c: char)
    requires c as int < 256
    ensures PercentEncode(c) == ['%', HEX[c as int / 16], HEX[c as int % 16]]
  {
    var b := c as int;
    assert b % 256 == b;
    ByteTable(b, b / 16, b % 16);
  }

  /** Everything else becomes a percent sign and two upper-case hexadecimal digits; in a
      query a space becomes a plus sign. */
  lemma EscapedAs(c: char, mode: Mode)
    requires c as int < 256
    ensures var e := ['%', HEX[c as int / 16], HEX[c as int % 16]];
            && Escape([c], mode) == (if Keeps(mode, c) then [c] else e)
            && QueryEscape([c]) == (if AsciiUnreserved(c as int) then [c] else if c == ' ' then "+" else e)
  {
    UnreservedTable(c);
    PercentTable(c);
    assert [c][1..] == "";
  }

  lemma DigitTable(n: nat)
    requires n < 16
    ensures HexDigit(n) == HEX[n]
  {
  }

  lemma HexRoundTrip(n: nat)
    requires n < 16
    ensures HexValue(HexDigit(n)) == Some(n)
  {
  }

  lemma TwoDigits(h: nat, l: nat, t: string)
    requires h < 16 && l < 16
    ensures var s := ['%', HexDigit(h), HexDigit(l)] + t; EscapeValue(s) == Some((16 * h + l) as char) && s[3..] == t
  {
    HexRoundTrip(h);
    HexRoundTrip(l);
    var s := ['%', HexDigit(h), HexDigit(l)] + t;
    assert s[1] == HexDigit(h) && s[2] == HexDigit(l);
  }

  lemma EncodedByte(b: nat, t: string)
    requires b < 256
    ensures EscapeValue(EncodeByte(b) + t) == Some(b as char) && (EncodeByte(b) + t)[3..] == t
  {
    TwoDigits(b / 16, b % 16, t);
    assert 16 * (b / 16) + b % 16 == b;
  }

  lemma EncodedValue(c: char, t: string)
    requires (c as int) < 256
    ensures EscapeValue(PercentEncode(c) + t) == Some(c) && (PercentEncode(c) + t)[3..] == t
  {
    assert c as int % 256 == c as int;
    EncodedByte(c as int, t);
  }

  lemma {:induction false} EscapeRoundTrip(s: string, mode: Mode)
    requires IsBytes(s)
    ensures Unescape(Escape(s, mode), false) == Some(s)
  {
    if s != "" {
      EscapeRoundTrip(s[1..], mode);
      var t := Escape(s[1..], mode);
      assert [s[0]] + s[1..] == s;
      if Keeps(mode, s[0]) {
        assert s[0] != '%' by { KeptIsNoSign(mode); }
        assert ([s[0]] + t)[1..] == t;
      } else {
        EncodedValue(s[0], t);
      }
    }
  }

  lemma KeptIsNoSign(mode: Mode)
    ensures !Keeps(mode, '%')
  {
  }

  /** An escaped segment holds nothing but kept characters and percent signs; so it has no
      slash, question mark or number sign. */
  lemma {:induction false} EscapeChars(s: string, mode: Mode)
    ensures forall i :: 0 <= i < |Escape(s, mode)| ==>
              var c := Escape(s, mode)[i]; c == '%' || (Keeps(mode, c) && (c == '/' ==> '/' in s))
  {
    if s != "" {
      EscapeChars(s[1..], mode);
      assert '/' in s[1..] ==> '/' in s;
    }
  }

  lemma EscapedDots(s: string, mode: Mode)
    ensures IsDots(Escape(s, mode)) <==> IsDots(s)
  {
    EscapeLength(s, mode);
    if |s| == 1 {
      assert Escape(s[1..], mode) == "";
    } else if |s| == 2 {
      assert Escape(s[1..][1..], mode) == "";
      assert s == [s[0], s[1]];
    }
  }

  predicate AllKept(s: string, mode: Mode) {
    forall i :: 0 <= i < |s| ==> Keeps(mode, s[i])
  }

  lemma {:induction false} EscapeLength(s: string, mode: Mode)
    ensures |Escape(s, mode)| >= |s| + (if AllKept(s, mode) then 0 else 2)
  {
    if s != "" {
      EscapeLength(s[1..], mode);
      assert AllKept(s, mode) <==> Keeps(mode, s[0]) && AllKept(s[1..], mode) by {
        assert s == [s[0]] + s[1..];
      }
    }
  }

  lemma {:induction false} EscapeAppends(a: string, b: string, mode: Mode)
    ensures Escape(a + b, mode) == Escape(a, mode) + Escape(b, mode)
  {
    if a == "" {
      assert a + b == b;
    } else {
      assert (a + b)[1..] == a[1..] + b;
      EscapeAppends(a[1..], b, mode);
    }
  }

  lemma {:induction false} QueryEscapeUnchanged(s: string)
    requires forall i :: 0 <= i < |s| ==> Unreserved(s[i])
    ensures QueryEscape(s) == s && Unescape(s, true) == Some(s)
  {
    if s != "" {
      QueryEscapeUnchanged(s[1..]);
      assert [s[0]] + s[1..] == s;
    }
  }

  // ----- strings.Cut

  /** The text before and after the first `c`, if there is one. */
  function Cut(s: string, c: char): (string, string, bool) {
    if s == "" then ("", "", false)
    else if s[0] == c then ("", s[1..], true)
    else var r := Cut(s[1..], c); ([s[0]] + r.0, r.1, r.2)
  }

  lemma {:induction false} CutFinds(a: string, c: char, b: string)
    requires c !in a
    ensures Cut(a + ([c] + b), c) == (a, b, true)
    ensures Cut(a, c) == (a, "", false)
  {
    if a == "" {
      assert a + ([c] + b) == [c] + b;
    } else {
      assert (a + ([c] + b))[1..] == a[1..] + ([c] + b);
      CutFinds(a[1..], c, b);
      assert [a[0]] + a[1..] == a;
    }
  }

  // ----- dot segments

  predicate IsDots(segment: string) {
    segment == "." || segment == ".."
  }

  predicate NoDots(segments: seq<string>) {
    forall i :: 0 <= i < |segments| ==> !IsDots(segments[i])
  }

  predicate NoSlashes(segments: seq<string>) {
    forall i :: 0 <= i < |segments| ==> '/' !in segments[i]
  }

  /** An absolute path from its segments. */
  function Join(segments: seq<string>): string {
    if segments == [] then "" else "/" + segments[0] + Join(segments[1..])
  }

  function UpToSlash(s: string): (n: nat)
    ensures n <= |s|
  {
    if s == "" || s[0] == '/' then 0 else 1 + UpToSlash(s[1..])
  }

  lemma {:induction false} UpToSlashEnds(s: string)
    ensures var n := UpToSlash(s); '/' !in s[..n] && (n < |s| ==> s[n] == '/')
  {
    if s != "" && s[0] != '/' {
      UpToSlashEnds(s[1..]);
      assert s[..UpToSlash(s)] == [s[0]] + s[1..][..UpToSlash(s[1..])];
    }
  }

  lemma FirstAndRest(path: string, n: nat)
    requires n < |path| && path[0] == '/'
    ensures path == "/" + path[1..][..n] + path[n + 1..]
  {
    var t := path[1..];
    assert t == t[..n] + t[n..] && t[n..] == path[n + 1..] && path == "/" + t;
  }

  /** The segments of an absolute path. */
  function Split(path: string): (segments: seq<string>)
    requires path == "" || path[0] == '/'
    ensures Join(segments) == path && NoSlashes(segments)
  {
    if path == "" then []
    else
      var n := UpToSlash(path[1..]);
      UpToSlashEnds(path[1..]);
      FirstAndRest(path, n);
      [path[1..][..n]] + Split(path[n + 1..])
  }

  /** The output buffer without its last segment and the slash before it. */
  function DropLast(output: string): (r: string)
    ensures |r| <= |output|
  {
    if output == "" || output[|output| - 1] == '/' then output[..if output == "" then 0 else |output| - 1]
    else DropLast(output[..|output| - 1])
  }

  /** Section 5.2.4 of RFC 3986, rule by rule, on its input and output buffers. */
  function RemoveDotSegments(input: string, output: string): string
    decreases |input|
  {
    if input == "" then output
    else if "../" <= input then RemoveDotSegments(input[3..], output)
    else if "./" <= input then RemoveDotSegments(input[2..], output)
    else if "/./" <= input then RemoveDotSegments("/" + input[3..], output)
    else if input == "/." then RemoveDotSegments("/", output)
    else if "/../" <= input then RemoveDotSegments("/" + input[4..], DropLast(output))
    else if input == "/.." then RemoveDotSegments("/", DropLast(output))
    else if IsDots(input) then RemoveDotSegments("", output)
    else
      var n := if input[0] == '/' then 1 + UpToSlash(input[1..]) else UpToSlash(input);
      RemoveDotSegments(input[n..], output + input[..n])
  }

  /** The same on whole segments. */
  function Fold(segments: seq<string>, output: string): string {
    if segments == [] then output
    else
      var s, t := segments[0], segments[1..];
      if s == "." then Fold(t, output) + (if t == [] then "/" else "")
      else if s == ".." then Fold(t, DropLast(output)) + (if t == [] then "/" else "")
      else Fold(t, output + ("/" + s))
  }

  lemma {:induction false} UpToSlashOf(s: string, rest: string)
    requires '/' !in s && (rest == "" || rest[0] == '/')
    ensures UpToSlash(s + rest) == |s|
  {
    if s == "" {
      assert s + rest == rest;
    } else {
      assert (s + rest)[1..] == s[1..] + rest;
      UpToSlashOf(s[1..], rest);
    }
  }

  lemma JoinStarts(segments: seq<string>)
    ensures Join(segments) == "" <==> segments == []
    ensures segments != [] ==> Join(segments)[0] == '/'
  {
  }

  lemma SameFirst(s: string, rest: string, d: string, tail: string)
    requires '/' !in s && '/' !in d && (rest == "" || rest[0] == '/') && (tail == "" || tail[0] == '/')
    requires s + rest == d + tail
    ensures s == d && rest == tail
  {
    UpToSlashOf(s, rest);
    UpToSlashOf(d, tail);
    Parts(s, rest);
    Parts(d, tail);
  }

  /** A prefix "/d/" of a joined path means that d is its first segment. */
  lemma FirstSegment(s: string, rest: string, d: string)
    requires '/' !in s && '/' !in d && (rest == "" || rest[0] == '/')
    ensures "/" + d + "/" <= "/" + s + rest <==> s == d && rest != ""
    ensures "/" + d == "/" + s + rest <==> s == d && rest == ""
  {
    var a, b := "/" + d + "/", "/" + s + rest;
    assert b == "/" + (s + rest);
    Parts("/", s + rest);
    if a <= b {
      var t := b[|a|..];
      assert b == a + t && a + t == "/" + (d + ("/" + t));
      Parts("/", d + ("/" + t));
      SameFirst(s, rest, d, "/" + t);
    }
    if s == d && rest != "" {
      assert a == b[..|a|];
    }
    if "/" + d == b {
      assert b[1..] == d + "";
      SameFirst(s, rest, d, "");
    }
  }

  lemma RemoveDots(s: string, rest: string, output: string)
    requires IsDots(s) && (rest == "" || rest[0] == '/')
    ensures RemoveDotSegments("/" + s + rest, output)
         == (if rest == "" then Popped(s, output) + "/" else RemoveDotSegments(rest, Popped(s, output)))
  {
    var input := "/" + s + rest;
    assert input[0] == '/' && "../"[0] == '.' && "./"[0] == '.';
    DotLiterals();
    FirstSegment(s, rest, ".");
    FirstSegment(s, rest, "..");
    if rest == "" {
      Slash(output);
      Slash(DropLast(output));
    } else {
      assert "/" + input[|s| + 2..] == rest;
    }
  }

  /** The output after a dot segment. */
  function Popped(s: string, output: string): string {
    if s == "." then output else DropLast(output)
  }

  lemma NoDotPrefix(s: string, rest: string, d: string)
    requires '/' !in s && (rest == "" || rest[0] == '/') && IsDots(d) && s != d
    ensures !("/" + d + "/" <= "/" + s + rest) && "/" + d != "/" + s + rest
  {
    FirstSegment(s, rest, d);
  }

  lemma RemovePlain(s: string, rest: string, output: string)
    requires '/' !in s && !IsDots(s) && (rest == "" || rest[0] == '/')
    ensures RemoveDotSegments("/" + s + rest, output) == RemoveDotSegments(rest, output + ("/" + s))
  {
    var input := "/" + s + rest;
    NoDotPrefix(s, rest, ".");
    NoDotPrefix(s, rest, "..");
    DotLiterals();
    FirstTaken(s, rest);
    MoveSegment(input, |s| + 1, output);
  }

  lemma DotLiterals()
    ensures "/" + "." + "/" == "/./" && "/" + ".." + "/" == "/../" && "/" + "." == "/." && "/" + ".." == "/.."
  {
  }

  lemma FirstTaken(s: string, rest: string)
    requires '/' !in s && (rest == "" || rest[0] == '/')
    ensures var input := "/" + s + rest;
            UpToSlash(input[1..]) == |s| && input[..|s| + 1] == "/" + s && input[|s| + 1..] == rest
  {
    UpToSlashOf(s, rest);
    assert ("/" + s + rest)[1..] == s + rest;
  }

  /** The last rule of section 5.2.4, on an absolute path. */
  lemma MoveSegment(input: string, n: nat, output: string)
    requires input != "" && input[0] == '/' && n == 1 + UpToSlash(input[1..])
    requires !("/./" <= input) && !("/../" <= input) && input != "/." && input != "/.."
    ensures RemoveDotSegments(input, output) == RemoveDotSegments(input[n..], output + input[..n])
  {
    assert !("../" <= input) && !("./" <= input) && !IsDots(input);
  }

  /** The two formulations of dot-segment removal agree on absolute paths. */
  lemma {:induction false} RemoveIsFold(segments: seq<string>, output: string)
    requires NoSlashes(segments)
    ensures RemoveDotSegments(Join(segments), output) == Fold(segments, output)
    decreases |segments|
  {
    if segments != [] {
      var s, t := segments[0], segments[1..];
      JoinStarts(t);
      if IsDots(s) {
        RemoveDots(s, Join(t), output);
        RemoveIsFold(t, Popped(s, output));
      } else {
        RemovePlain(s, Join(t), output);
        RemoveIsFold(t, output + ("/" + s));
      }
    }
  }

  lemma Slash(output: string)
    ensures RemoveDotSegments("/", output) == output + "/"
  {
    assert UpToSlash("/"[1..]) == 0;
    assert "/"[..1] == "/" && "/"[1..] == "";
  }

  /** Dot-segment removal keeps a path without dot segments and shortens every other. */
  lemma {:induction false} FoldLength(segments: seq<string>, output: string)
    ensures NoDots(segments) ==> Fold(segments, output) == output + Join(segments)
    ensures !NoDots(segments) ==> |Fold(segments, output)| < |output| + |Join(segments)|
  {
    if segments != [] {
      var s, t := segments[0], segments[1..];
      assert segments == [s] + t;
      FoldLength(t, if s == "." then output else if s == ".." then DropLast(output) else output + ("/" + s));
    }
  }

  /** The path is a fixed point exactly when it has no dot segments. */
  lemma RemoveDotSegmentsFixpoint(segments: seq<string>)
    requires NoSlashes(segments)
    ensures RemoveDotSegments(Join(segments), "") == Join(segments) <==> NoDots(segments)
  {
    RemoveIsFold(segments, "");
    FoldLength(segments, "");
  }

  // ----- where dot segments can occur

  /** The segment behind the slash at position i. */
  function SegmentAt(s: string, i: nat): string
    requires i < |s|
  {
    s[i + 1..][..UpToSlash(s[i + 1..])]
  }

  ghost predicate DotsAt(s: string, i: nat) {
    i < |s| && s[i] == '/' && IsDots(SegmentAt(s, i))
  }

  ghost predicate HasDots(s: string) {
    exists i: nat :: DotsAt(s, i)
  }

  lemma DotsShift(prefix: string, s: string, i: nat)
    ensures DotsAt(prefix + s, |prefix| + i) <==> DotsAt(s, i)
  {
    if i < |s| {
      assert (prefix + s)[|prefix| + i + 1..] == s[i + 1..];
    }
  }

  lemma DotsBehind(prefix: string, s: string)
    requires HasDots(s)
    ensures HasDots(prefix + s)
  {
    var i: nat :| DotsAt(s, i);
    DotsShift(prefix, s, i);
    assert DotsAt(prefix + s, |prefix| + i);
  }

  lemma FirstIsAt(s: string, rest: string)
    requires '/' !in s && (rest == "" || rest[0] == '/')
    ensures SegmentAt("/" + s + rest, 0) == s
  {
    assert ("/" + s + rest)[1..] == s + rest;
    UpToSlashOf(s, rest);
  }

  /** A path joined from segments has the dot segments it was joined from, and no others. */
  lemma {:induction false} JoinHasDots(segments: seq<string>)
    requires NoSlashes(segments)
    ensures HasDots(Join(segments)) <==> !NoDots(segments)
  {
    if segments != [] {
      var s, t := segments[0], segments[1..];
      var p := "/" + s;
      assert segments == [s] + t;
      JoinStarts(t);
      JoinHasDots(t);
      FirstIsAt(s, Join(t));
      assert forall j :: 0 < j < |p| ==> Join(segments)[j] == s[j - 1];
      if IsDots(s) {
        assert DotsAt(Join(segments), 0);
      } else if HasDots(Join(segments)) {
        var i: nat :| DotsAt(Join(segments), i);
        DotsShift(p, Join(t), i - |p|);
      }
      if !NoDots(t) {
        DotsBehind(p, Join(t));
      }
    }
  }

  /** What a pass over the segments keeps. */
  function Kept(segments: seq<string>, kept: seq<string>): seq<string> {
    if segments == [] then kept
    else
      var s, t := segments[0], segments[1..];
      if s == "." then Kept(t, kept)
      else if s == ".." then Kept(t, if kept == [] then [] else kept[..|kept| - 1])
      else Kept(t, kept + [s])
  }

  lemma {:induction false} DropLastOf(a: string, s: string)
    requires '/' !in s
    ensures DropLast(a + ("/" + s)) == a
  {
    if s == "" {
      assert a + ("/" + s) == a + "/";
    } else {
      var n := |s| - 1;
      assert (a + ("/" + s))[..|a| + 1 + n] == a + ("/" + s[..n]);
      DropLastOf(a, s[..n]);
    }
  }

  lemma DropLastJoin(kept: seq<string>)
    requires NoSlashes(kept)
    ensures DropLast(Join(kept)) == Join(if kept == [] then [] else kept[..|kept| - 1])
  {
    if kept != [] {
      var n := |kept| - 1;
      assert kept == kept[..n] + [kept[n]];
      JoinAppend(kept[..n], [kept[n]]);
      assert Join([kept[n]]) == "/" + kept[n];
      DropLastOf(Join(kept[..n]), kept[n]);
    }
  }

  /** If the last segment is an ordinary one, the result is a joined path again, and one
      without dot segments. */
  lemma {:induction false} FoldIsJoin(segments: seq<string>, kept: seq<string>)
    requires NoSlashes(segments) && NoSlashes(kept) && NoDots(kept)
    requires segments != [] ==> !IsDots(segments[|segments| - 1])
    ensures Fold(segments, Join(kept)) == Join(Kept(segments, kept))
    ensures NoSlashes(Kept(segments, kept)) && NoDots(Kept(segments, kept))
    decreases |segments|
  {
    if segments != [] {
      var s, t := segments[0], segments[1..];
      if s == "." {
        FoldIsJoin(t, kept);
      } else if s == ".." {
        DropLastJoin(kept);
        FoldIsJoin(t, if kept == [] then [] else kept[..|kept| - 1]);
      } else {
        JoinAppend(kept, [s]);
        assert Join([s]) == "/" + s;
        FoldIsJoin(t, kept + [s]);
      }
    }
  }

  // ----- decoding a path

  lemma EscapeValueSplits(a: string, b: string)
    requires a != "" && (b == "" || b[0] == '/')
    ensures EscapeValue(a + b) == EscapeValue(a)
  {
  }

  /** `whole` is the decoded `a` followed by the decoded `b`. */
  predicate Concatenates(whole: Option<string>, a: Option<string>, b: Option<string>) {
    whole == if a.Some? && b.Some? then Some(a.value + b.value) else None
  }

  lemma PrependConcatenates(c: char, whole: Option<string>, a: Option<string>, b: Option<string>)
    requires Concatenates(whole, a, b)
    ensures Concatenates(Prepend(c, whole), Prepend(c, a), b)
  {
    if a.Some? && b.Some? {
      assert [c] + (a.value + b.value) == [c] + a.value + b.value;
    }
  }

  lemma {:induction false} UnescapeSplits(a: string, b: string)
    requires b == "" || b[0] == '/'
    ensures Concatenates(Unescape(a + b, false), Unescape(a, false), Unescape(b, false))
    decreases |a|
  {
    if a == "" {
      assert a + b == b;
      assert Unescape(b, false).Some? ==> "" + Unescape(b, false).value == Unescape(b, false).value;
    } else if a[0] != '%' {
      assert (a + b)[1..] == a[1..] + b;
      UnescapeSplits(a[1..], b);
      PrependConcatenates(a[0], Unescape(a[1..] + b, false), Unescape(a[1..], false), Unescape(b, false));
    } else {
      EscapeValueSplits(a, b);
      if EscapeValue(a).Some? {
        assert (a + b)[3..] == a[3..] + b;
        UnescapeSplits(a[3..], b);
        PrependConcatenates(EscapeValue(a).value, Unescape(a[3..] + b, false), Unescape(a[3..], false), Unescape(b, false));
      }
    }
  }

  lemma {:induction false} UnescapePlain(s: string)
    requires '%' !in s
    ensures Unescape(s, false) == Some(s)
  {
    if s != "" {
      assert s == [s[0]] + s[1..];
      UnescapePlain(s[1..]);
    }
  }

  /** Decoding takes away two characters per escape. */
  lemma {:induction false} UnescapeLength(s: string)
    ensures Unescape(s, false).Some? ==>
              var n := |Unescape(s, false).value|; n <= |s| && (|s| - n) % 2 == 0 && ('%' in s ==> n < |s|)
    decreases |s|
  {
    if s != "" {
      assert s == [s[0]] + s[1..];
      if s[0] == '%' {
        if |s| >= 3 { UnescapeLength(s[3..]); }
      } else {
        UnescapeLength(s[1..]);
      }
    }
  }

  lemma DotsFirst(s: string, rest: string)
    requires IsDots(s) && (rest == "" || rest[0] == '/')
    ensures HasDots("/" + s + rest)
  {
    FirstIsAt(s, rest);
    assert DotsAt("/" + s + rest, 0);
  }

  /** Decoding keeps the dot segments of a path. */
  lemma {:induction false} DecodedHasDots(segments: seq<string>, tail: string)
    requires NoSlashes(segments) && !NoDots(segments) && (tail == "" || tail[0] == '/')
    requires Unescape(Join(segments), false).Some?
    ensures HasDots(Unescape(Join(segments), false).value + tail)
  {
    var s, t := segments[0], segments[1..];
    assert segments == [s] + t;
    JoinStarts(t);
    UnescapeSplits("/" + s, Join(t));
    var rest := Unescape(Join(t), false).value + tail;
    var head := Unescape("/" + s, false).value;
    assert Unescape(Join(segments), false).value + tail == head + rest;
    if IsDots(s) {
      UnescapePlain("/" + s);
      assert rest == "" || rest[0] == '/' by {
        if t != [] { assert Join(t)[0] == '/'; }
      }
      DotsFirst(s, rest);
    } else {
      DecodedHasDots(t, tail);
      DotsBehind(head, rest);
    }
  }

  lemma {:induction false} JoinAppend(a: seq<string>, b: seq<string>)
    ensures Join(a + b) == Join(a) + Join(b)
  {
    if a == [] {
      assert a + b == b;
    } else {
      assert (a + b)[1..] == a[1..] + b;
      JoinAppend(a[1..], b);
    }
  }

  // ----- net/url's encoded form of a path

  /** What net/url accepts in an encoded path. */
  predicate ValidInPath(c: char) {
    Keeps(WholePath, c) || c in "!'()*[]%"
  }

  predicate ValidEncoded(path: string) {
    forall i :: 0 <= i < |path| ==> ValidInPath(path[i])
  }

  /** (*URL).EscapedPath of a URL parsed with this path: kept if it is a valid encoding,
      else decoded and escaped afresh.  The parser has rejected paths that do not decode. */
  function EscapedPath(path: string): string {
    if ValidEncoded(path) then path
    else
      match Unescape(path, false)
      case None => path
      case Some(decoded) => Escape(decoded, WholePath)
  }

  /** A character that makes an encoding invalid is still there after decoding, where it
      has to be escaped. */
  lemma {:induction false} InvalidSurvives(s: string)
    requires !ValidEncoded(s) && Unescape(s, false).Some?
    ensures !AllKept(Unescape(s, false).value, WholePath)
    decreases |s|
  {
    var d := Unescape(s, false).value;
    var k := if s[0] == '%' then 3 else 1;
    if ValidEncoded(s[..k]) {
      assert s == s[..k] + s[k..];
      InvalidSurvives(s[k..]);
      assert d[1..] == Unescape(s[k..], false).value;
    } else if k == 3 {
      HexIsValid(s[1]);
      HexIsValid(s[2]);
    } else {
      assert d[0] == s[0];
    }
  }

  lemma HexIsValid(c: char)
    ensures HexValue(c).Some? ==> ValidInPath(c)
  {
  }

  function EscapeAll(segments: seq<string>): seq<string> {
    seq(|segments|, i requires 0 <= i < |segments| => Escape(segments[i], WholePath))
  }

  lemma {:induction false} EscapeJoins(segments: seq<string>)
    ensures Escape(Join(segments), WholePath) == Join(EscapeAll(segments))
  {
    if segments != [] {
      var s, t := segments[0], segments[1..];
      EscapeAppends("/" + s, Join(t), WholePath);
      EscapeAppends("/", s, WholePath);
      assert Escape("/", WholePath) == "/";
      EscapeJoins(t);
      assert EscapeAll(segments) == [Escape(s, WholePath)] + EscapeAll(t);
    }
  }

  lemma EscapedSegments(segments: seq<string>)
    requires NoSlashes(segments)
    ensures NoSlashes(EscapeAll(segments)) && (NoDots(EscapeAll(segments)) <==> NoDots(segments))
  {
    var e := EscapeAll(segments);
    forall i | 0 <= i < |segments|
      ensures '/' !in e[i] && (IsDots(e[i]) <==> IsDots(segments[i]))
    {
      EscapeChars(segments[i], WholePath);
      EscapedDots(segments[i], WholePath);
    }
  }

  /** Resolution makes no character up. */
  lemma {:induction false} FoldValid(segments: seq<string>, output: string)
    requires ValidEncoded(output) && ValidEncoded(Join(segments))
    ensures ValidEncoded(Fold(segments, output))
    decreases |segments|
  {
    if segments != [] {
      var s, t := segments[0], segments[1..];
      assert Join(segments) == ("/" + s) + Join(t);
      ValidParts("/" + s, Join(t));
      if IsDots(s) {
        DropLastValid(output);
        FoldValid(t, Popped(s, output));
      } else {
        FoldValid(t, output + ("/" + s));
      }
    }
  }

  lemma ValidParts(a: string, b: string)
    ensures ValidEncoded(a + b) <==> ValidEncoded(a) && ValidEncoded(b)
  {
    assert forall i :: 0 <= i < |b| ==> b[i] == (a + b)[|a| + i];
    assert forall i :: 0 <= i < |a| ==> a[i] == (a + b)[i];
  }

  lemma {:induction false} DropLastValid(output: string)
    requires ValidEncoded(output)
    ensures ValidEncoded(DropLast(output))
  {
    if output != "" && output[|output| - 1] != '/' {
      DropLastValid(output[..|output| - 1]);
    }
  }

  lemma {:induction false} EscapeUnchanged(s: string, mode: Mode)
    requires AllKept(s, mode)
    ensures Escape(s, mode) == s
  {
    if s != "" {
      assert s == [s[0]] + s[1..];
      EscapeUnchanged(s[1..], mode);
    }
  }

  /** Exactly the texts without anything to escape are left alone. */
  lemma EscapeFixpoint(s: string, mode: Mode)
    ensures Escape(s, mode) == s <==> AllKept(s, mode)
  {
    EscapeLength(s, mode);
    if AllKept(s, mode) { EscapeUnchanged(s, mode); }
  }

  lemma EscapedSlash(path: string)
    requires Unescape(path, false).Some?
    ensures EscapedPath(path + "/") == EscapedPath(path) + "/"
  {
    UnescapePlain("/");
    UnescapeSplits(path, "/");
    ValidParts(path, "/");
    SlashKept();
    EscapeAppends(Unescape(path, false).value, "/", WholePath);
  }

  lemma SlashKept()
    ensures ValidEncoded("/") && Escape("/", WholePath) == "/"
  {
    assert "/"[1..] == "";
  }

  lemma EscapedPathValid(path: string)
    requires Unescape(path, false).Some?
    ensures ValidEncoded(EscapedPath(path))
  {
    if !ValidEncoded(path) {
      EscapeChars(Unescape(path, false).value, WholePath);
    }
  }

  /** A path that is printed as it was written, and without escapes. */
  predicate Plain(path: string) {
    ValidEncoded(path) && '%' !in path
  }

  /** Decoded and encoded form of a path coincide exactly if it is plain. */
  lemma PlainIff(path: string)
    requires Unescape(path, false).Some?
    ensures Unescape(path, false).value == EscapedPath(path) <==> Plain(path)
    ensures Plain(path) ==> EscapedPath(path) == path
  {
    if !ValidEncoded(path) {
      InvalidSurvives(path);
      EscapeFixpoint(Unescape(path, false).value, WholePath);
    } else if '%' in path {
      UnescapeLength(path);
    } else {
      UnescapePlain(path);
    }
  }

  // ----- slashes

  function Slashes(s: string): nat {
    if s == "" then 0 else (if s[0] == '/' then 1 else 0) + Slashes(s[1..])
  }

  lemma {:induction false} SlashesAppend(a: string, b: string)
    ensures Slashes(a + b) == Slashes(a) + Slashes(b)
  {
    if a == "" {
      assert a + b == b;
    } else {
      assert (a + b)[1..] == a[1..] + b;
      SlashesAppend(a[1..], b);
    }
  }

  lemma {:induction false} NoSlashesIn(s: string)
    requires '/' !in s
    ensures Slashes(s) == 0
  {
    if s != "" { NoSlashesIn(s[1..]); }
  }

  lemma {:induction false} SlashesJoin(segments: seq<string>)
    requires NoSlashes(segments)
    ensures Slashes(Join(segments)) == |segments|
  {
    if segments != [] {
      SlashesAppend("/" + segments[0], Join(segments[1..]));
      assert ("/" + segments[0])[1..] == segments[0];
      NoSlashesIn(segments[0]);
      SlashesJoin(segments[1..]);
    }
  }

  /** Escaping a path leaves its slashes. */
  lemma {:induction false} SlashesEscaped(s: string)
    ensures Slashes(Escape(s, WholePath)) == Slashes(s)
  {
    if s != "" {
      var e := if Keeps(WholePath, s[0]) then [s[0]] else PercentEncode(s[0]);
      SlashesAppend(e, Escape(s[1..], WholePath));
      if Keeps(WholePath, s[0]) {
        assert e[1..] == "";
      } else {
        NoSlashesIn(e);
      }
      SlashesEscaped(s[1..]);
    }
  }

  /** Decoding a path leaves its slashes, and may add some. */
  lemma {:induction false} SlashesDecoded(s: string)
    requires Unescape(s, false).Some?
    ensures Slashes(Unescape(s, false).value) >= Slashes(s)
    decreases |s|
  {
    if s != "" {
      var d := Unescape(s, false).value;
      var k := if s[0] == '%' then 3 else 1;
      assert d[1..] == Unescape(s[k..], false).value;
      SlashesDecoded(s[k..]);
      if s[0] == '%' {
        assert s == s[..3] + s[3..];
        SlashesAppend(s[..3], s[3..]);
        HexIsNoSlash(s[1]);
        HexIsNoSlash(s[2]);
        NoSlashesIn(s[..3]);
      }
    }
  }

  lemma HexIsNoSlash(c: char)
    ensures HexValue(c).Some? ==> c != '/'
  {
  }

  lemma EncodedSlashes(path: string)
    requires Unescape(path, false).Some?
    ensures Slashes(EscapedPath(path)) <= Slashes(Unescape(path, false).value)
  {
    SlashesDecoded(path);
    SlashesEscaped(Unescape(path, false).value);
  }

  // ----- merging a relative path with the base (section 5.2.3)

  function LastSlash(s: string): (n: nat)
    ensures n <= |s|
  {
    if s == "" || s[|s| - 1] == '/' then |s| else LastSlash(s[..|s| - 1])
  }

  /** `base` up to and including its last slash, then the reference. */
  function Merge(base: string, reference: string): string {
    if base == "" then "/" + reference else base[..LastSlash(base)] + reference
  }

  /** The path of a reference resolved against a base with an authority (section 5.2.2,
      the case of a relative path). */
  function ResolvePath(base: string, reference: string): string {
    RemoveDotSegments(Merge(base, reference), "")
  }
}
