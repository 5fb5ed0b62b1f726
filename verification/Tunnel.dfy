/** The two builders of the port-forward URL: the hand-written one for the tunnel and the
    one of the generated API client. */
module Tunnel {
  import opened Wrappers
  import opened Decimal
  import opened Url
  import opened BaseUrl

  // ----- internal/ssh/tunnel.go

  function WsScheme(scheme: string): string {
    if scheme == "https" then "wss" else "ws"
  }

  function WaitSuffix(waitSeconds: int): string {
    if waitSeconds > 0 then "&wait=" + Itoa(waitSeconds) else ""
  }

  /** The tunnel URL behind its scheme. */
  function TunnelTail(base: Base, name: string, port: int, waitSeconds: int): Option<string> {
    match Parse(base)
    case None => None
    case Some(p) => Some("://" + p.host + p.path + TargetPart(name, port, waitSeconds))
  }

  function TargetPart(name: string, port: int, waitSeconds: int): string {
    "/vms/" + PathEscape(name) + "/port-forward?port=" + Itoa(port) + WaitSuffix(waitSeconds)
  }

  function BuildWebSocketURL(base: Base, name: string, port: int, waitSeconds: int): Option<string> {
    match (Parse(base), TunnelTail(base, name, port, waitSeconds))
    case (Some(p), Some(tail)) => Some(WsScheme(p.scheme) + tail)
    case _ => None
  }

  // ----- internal/clients/orchard/client.go

  class Client {
    var server: string

    /** The server URL always gets a trailing slash. */
    constructor (server: string)
      ensures server <= this.server && |this.server| <= |server| + 1
      ensures this.server != "" && this.server[|this.server| - 1] == '/'
      ensures server != "" && server[|server| - 1] == '/' ==> this.server == server
    {
      this.server := if server != "" && server[|server| - 1] == '/' then server else server + "/";
    }
  }

  type Values = map<string, seq<string>>

  function Add(values: Values, key: string, value: string): Values {
    values[key := (if key in values then values[key] else []) + [value]]
  }

  /** url.ParseQuery of a fragment that holds one key=value pair. */
  function ParsePair(fragment: string): Option<Values> {
    var (k, v, _) := Cut(fragment, '=');
    match (Unescape(k, true), Unescape(v, true))
    case (Some(key), Some(value)) => Some(map[key := [value]])
    case _ => None
  }

  function EncodeValues(key: string, values: seq<string>, buf: string): string {
    if values == [] then buf
    else EncodeValues(key, values[1..],
                      buf + (if buf == "" then "" else "&") + QueryEscape(key) + "=" + QueryEscape(values[0]))
  }

  /** Values.Encode; `keys` are the possible keys in sorted order. */
  function Encode(keys: seq<string>, values: Values, buf: string): string {
    if keys == [] then buf
    else Encode(keys[1..], values, if keys[0] in values then EncodeValues(keys[0], values[keys[0]], buf) else buf)
  }

  const KEYS := ["port", "wait"]

  /** Adds one styled integer parameter to the query, as the generated code does: print the
      fragment, parse it, add every pair it holds. */
  method AddParameter(values: Values, key: string, n: int) returns (r: Values)
    requires key in KEYS
    ensures r == Add(values, key, Itoa(n))
  {
    var parsed := ParsePair(key + "=" + QueryEscape(Itoa(n)));
    ParsePairOf(key, n);
    r := values;
    var pairs := parsed.value;
    var keys := pairs.Keys;
    assert key in pairs && keys == {key};
    while keys != {}
      invariant keys <= {key}
      invariant r == if keys == {} then Add(values, key, Itoa(n)) else values
      decreases keys
    {
      var k :| k in keys;
      assert k == key;
      for i := 0 to |pairs[k]|
        invariant r == if i == 0 then values else Add(values, key, Itoa(n))
      {
        r := Add(r, k, pairs[k][i]);
      }
      keys := keys - {k};
    }
  }

  /** The query the generated client asks for. */
  function PortForwardValues(port: int, wait: Option<int>): Values {
    var values := Add(map[], "port", Itoa(port));
    if wait.Some? then Add(values, "wait", Itoa(wait.value)) else values
  }

  function OperationPath(name: string): string {
    "./vms/" + PathEscape(name) + "/port-forward"
  }

  /** The path of the generated URL: the encoded forms of both paths are resolved, and the
      result is printed in its encoded form. */
  function RequestPath(server: Base, name: string): string {
    EscapedPath(ResolvePath(EscapedPath(Join(server.segments)), EscapedPath(OperationPath(name))))
  }

  /** The generated URL behind its scheme; query and fragment of the server are dropped. */
  function GeneratedTail(server: Base, name: string, port: int, wait: Option<int>): Option<string> {
    match Parse(server)
    case None => None
    case Some(p) =>
      Some("://" + (p.user + Escape(p.host, HostName)) + RequestPath(server, name)
             + "?" + Encode(KEYS, PortForwardValues(port, wait), ""))
  }

  method RelativePath(name: string) returns (operationPath: string)
    ensures operationPath == OperationPath(name)
  {
    operationPath := "/vms/" + PathEscape(name) + "/port-forward";
    if operationPath[0] == '/' {
      operationPath := "." + operationPath;
    }
  }

  method NewGetVmsNamePortForwardRequest(server: Base, name: string, port: int, wait: Option<int>)
    returns (url: Option<string>)
    ensures url.Some? <==> Parse(server).Some?
    ensures url.Some? ==> url.value == Parse(server).value.scheme + GeneratedTail(server, name, port, wait).value
  {
    var parsed := Parse(server);
    if parsed.None? {
      return None;
    }
    var operationPath := RelativePath(name);
    var path := EscapedPath(ResolvePath(EscapedPath(Join(server.segments)), EscapedPath(operationPath)));
    var queryValues: Values := map[];
    queryValues := AddParameter(queryValues, "port", port);
    if wait.Some? {
      queryValues := AddParameter(queryValues, "wait", wait.value);
    }
    var authority := parsed.value.user + Escape(parsed.value.host, HostName);
    url := Some(parsed.value.scheme + ("://" + authority + path + "?" + Encode(KEYS, queryValues, "")));
  }

  // ----- the query

  lemma ItoaUnchanged(n: int)
    ensures QueryEscape(Itoa(n)) == Itoa(n) && Unescape(Itoa(n), true) == Some(Itoa(n))
  {
    ItoaChars(n);
    QueryEscapeUnchanged(Itoa(n));
  }

  lemma KeyUnchanged(key: string)
    requires key in KEYS
    ensures QueryEscape(key) == key && Unescape(key, true) == Some(key) && '=' !in key
  {
    assert key == "port" || key == "wait";
    QueryEscapeUnchanged(key);
  }

  lemma PairText(key: string, value: string)
    ensures key + "=" + value == key + (['='] + value)
  {
  }

  lemma ParsePairOf(key: string, n: int)
    requires key in KEYS
    ensures ParsePair(key + "=" + QueryEscape(Itoa(n))) == Some(map[key := [Itoa(n)]])
  {
    KeyUnchanged(key);
    ItoaUnchanged(n);
    PairText(key, Itoa(n));
    CutFinds(key, '=', Itoa(n));
  }

  function WaitOption(waitSeconds: int): Option<int> {
    if waitSeconds > 0 then Some(waitSeconds) else None
  }

  lemma EncodeTwo(k1: string, v1: string, k2: string, v2: Option<string>)
    requires k1 != k2 && k1 != "" && QueryEscape(k1) == k1 && QueryEscape(k2) == k2 && QueryEscape(v1) == v1
    requires v2.Some? ==> QueryEscape(v2.value) == v2.value
    ensures Encode([k1, k2], if v2.Some? then map[k1 := [v1], k2 := [v2.value]] else map[k1 := [v1]], "")
         == k1 + "=" + v1 + (if v2.Some? then "&" + k2 + "=" + v2.value else "")
  {
    var values: Values := if v2.Some? then map[k1 := [v1], k2 := [v2.value]] else map[k1 := [v1]];
    var buf := k1 + "=" + v1;
    EncodeOne(k1, v1, "");
    Leading(k1, v1);
    assert [k1, k2][1..] == [k2];
    assert Encode([k1, k2], values, "") == Encode([k2], values, buf);
    EncodeSecond(k2, v2, values, buf);
  }

  lemma Leading(k: string, v: string)
    ensures "" + "" + k + "=" + v == k + "=" + v
  {
  }

  lemma EncodeSecond(k: string, v: Option<string>, values: Values, buf: string)
    requires buf != "" && QueryEscape(k) == k && (v.Some? ==> QueryEscape(v.value) == v.value)
    requires if v.Some? then k in values && values[k] == [v.value] else k !in values
    ensures Encode([k], values, buf) == buf + (if v.Some? then "&" + k + "=" + v.value else "")
  {
    assert [k][1..] == [] && buf + "" == buf;
    if v.Some? {
      EncodeOne(k, v.value, buf);
      Five(buf, k, v.value);
    }
  }

  lemma Five(buf: string, k: string, v: string)
    ensures buf + "&" + k + "=" + v == buf + ("&" + k + "=" + v)
  {
  }

  lemma EncodedQuery(port: int, waitSeconds: int)
    ensures Encode(KEYS, PortForwardValues(port, WaitOption(waitSeconds)), "") == "port=" + Itoa(port) + WaitSuffix(waitSeconds)
  {
    KeyUnchanged("port");
    KeyUnchanged("wait");
    ItoaUnchanged(port);
    ItoaUnchanged(waitSeconds);
    KeysDiffer();
    ValuesOf(port, waitSeconds);
    EncodeTwo("port", Itoa(port), "wait", if waitSeconds > 0 then Some(Itoa(waitSeconds)) else None);
    Literals();
  }

  lemma Literals()
    ensures "port" + "=" == "port=" && "&" + "wait" + "=" == "&wait="
  {
  }

  lemma KeysDiffer()
    ensures "port" != "wait"
  {
    assert "port"[0] != "wait"[0];
  }

  lemma ValuesOf(port: int, waitSeconds: int)
    ensures PortForwardValues(port, WaitOption(waitSeconds))
         == if waitSeconds > 0 then map["port" := [Itoa(port)], "wait" := [Itoa(waitSeconds)]] else map["port" := [Itoa(port)]]
  {
    KeysDiffer();
    assert [] + [Itoa(port)] == [Itoa(port)] && [] + [Itoa(waitSeconds)] == [Itoa(waitSeconds)];
  }

  lemma EncodeOne(key: string, value: string, buf: string)
    requires QueryEscape(key) == key && QueryEscape(value) == value
    ensures EncodeValues(key, [value], buf) == buf + (if buf == "" then "" else "&") + key + "=" + value
  {
    assert [value][1..] == [];
  }

  // ----- the path

  function Operation(name: string): seq<string> {
    ["vms", PathEscape(name), "port-forward"]
  }

  lemma JoinThree(a: string, b: string, c: string)
    ensures Join([a, b, c]) == ("/" + a + "/") + b + ("/" + c)
  {
    assert [a, b, c][1..] == [b, c] && [b, c][1..] == [c] && [c][1..] == [];
    assert Join([c]) == "/" + c;
    assert Join([b, c]) == "/" + b + ("/" + c);
    assert ("/" + a + "/") + b + ("/" + c) == "/" + a + ("/" + b + ("/" + c));
  }

  lemma OperationJoins(name: string)
    ensures Join(Operation(name)) == "/vms/" + PathEscape(name) + "/port-forward"
  {
    JoinThree("vms", PathEscape(name), "port-forward");
    LiteralSegments();
  }

  lemma OperationSegments(name: string)
    ensures NoSlashes(Operation(name))
    ensures NoDots(Operation(name)) <==> !IsDots(name)
  {
    LiteralSegments();
    EscapeChars(name, Segment);
    EscapedDots(name, Segment);
    ThreeSegments("vms", PathEscape(name), "port-forward");
  }

  lemma ThreeSegments(a: string, b: string, c: string)
    ensures NoSlashes([a, b, c]) <==> '/' !in a && '/' !in b && '/' !in c
    ensures NoDots([a, b, c]) <==> !IsDots(a) && !IsDots(b) && !IsDots(c)
  {
    var s := [a, b, c];
    assert s[0] == a && s[1] == b && s[2] == c;
  }

  lemma LiteralSegments()
    ensures "/" + "vms" + "/" == "/vms/" && "/" + "port-forward" == "/port-forward"
    ensures '/' !in "vms" && '/' !in "port-forward"
    ensures !IsDots("vms") && !IsDots("port-forward")
  {
    assert "vms"[0] != '.' && "port-forward"[0] != '.';
  }

  /** The leading "./" of the reference disappears, wherever it is merged. */
  lemma {:induction false} FoldSkipsDot(a: seq<string>, b: seq<string>, output: string)
    requires b != []
    ensures Fold(a + ["."] + b, output) == Fold(a + b, output)
  {
    if a == [] {
      assert a + ["."] + b == ["."] + b && (["."] + b)[1..] == b && a + b == b;
    } else {
      var s := a[0];
      assert (a + ["."] + b)[1..] == a[1..] + ["."] + b && (a + b)[1..] == a[1..] + b;
      FoldSkipsDot(a[1..], b, if s == "." || s == ".." then Popped(s, output) else output + ("/" + s));
    }
  }

  /** All but the last. */
  function Front(segments: seq<string>): seq<string> {
    if segments == [] then [] else segments[..|segments| - 1]
  }

  lemma {:induction false} LastSlashOf(a: string, s: string)
    requires '/' !in s
    ensures LastSlash(a + "/" + s) == |a| + 1
  {
    if s != "" {
      var n := |s| - 1;
      assert (a + "/" + s)[..|a| + 1 + n] == a + "/" + s[..n];
      LastSlashOf(a, s[..n]);
    }
  }

  /** A reference that begins with "./" replaces the last segment. */
  lemma ResolvedOnto(k: seq<string>, o: seq<string>, reference: string)
    requires NoSlashes(k) && NoSlashes(o) && o != [] && reference == "." + Join(o)
    ensures ResolvePath(Join(k), reference) == Fold(Front(k) + o, "")
  {
    var stem := Front(k);
    MergedPath(k, o, reference);
    DottedSegments(stem, o);
    RemoveIsFold(stem + ["."] + o, "");
    FoldSkipsDot(stem, o, "");
  }

  lemma DottedSegments(stem: seq<string>, o: seq<string>)
    requires NoSlashes(stem) && NoSlashes(o)
    ensures NoSlashes(stem + ["."] + o)
  {
  }

  lemma MergedLast(a: string, s: string, reference: string)
    requires '/' !in s
    ensures Merge(a + "/" + s, reference) == a + ("/" + reference)
  {
    LastSlashOf(a, s);
    Parts(a + "/", s);
    assert a + "/" + reference == a + ("/" + reference);
  }

  lemma MergedFront(k: seq<string>, reference: string)
    requires NoSlashes(k)
    ensures Merge(Join(k), reference) == Join(Front(k)) + ("/" + reference)
  {
    if k != [] {
      var s := k[|k| - 1];
      assert k == Front(k) + [s];
      JoinAppend(Front(k), [s]);
      JoinOne(s);
      assert Join(Front(k)) + ("/" + s) == Join(Front(k)) + "/" + s;
      MergedLast(Join(Front(k)), s, reference);
    }
  }

  lemma Regroup4(a: string, b: string, c: string, d: string)
    ensures a + (b + (c + d)) == a + (b + c) + d
  {
  }

  lemma MergedPath(k: seq<string>, o: seq<string>, reference: string)
    requires NoSlashes(k) && reference == "." + Join(o)
    ensures Merge(Join(k), reference) == Join(Front(k) + ["."] + o)
  {
    var stem := Front(k);
    MergedFront(k, reference);
    JoinAppend(stem + ["."], o);
    JoinAppend(stem, ["."]);
    JoinOne(".");
    Regroup4(Join(stem), "/", ".", Join(o));
  }

  lemma OperationPathDot(name: string)
    ensures OperationPath(name) == "." + Join(Operation(name))
  {
    OperationJoins(name);
    Associates(".", "/vms/", PathEscape(name), "/port-forward");
    assert "." + "/vms/" == "./vms/";
  }

  lemma LiteralsValid()
    ensures ValidEncoded("/") && ValidEncoded(".") && ValidEncoded("vms") && ValidEncoded("port-forward")
  {
  }

  lemma OperationValid(name: string)
    ensures ValidEncoded(Join(Operation(name))) && ValidEncoded(OperationPath(name))
  {
    var o := Operation(name);
    OperationPathDot(name);
    EscapeChars(name, Segment);
    LiteralsValid();
    ThreeValid("vms", PathEscape(name), "port-forward");
    ValidParts(".", Join(o));
  }

  lemma ThreeValid(a: string, b: string, c: string)
    requires ValidEncoded(a) && ValidEncoded(b) && ValidEncoded(c)
    ensures ValidEncoded(Join([a, b, c]))
  {
    LiteralsValid();
    JoinThree(a, b, c);
    ValidParts("/" + a + "/", b);
    ValidParts("/" + a + "/" + b, "/" + c);
  }

  // ----- the encoded form of the base path

  lemma EncodedStarts(path: string)
    requires path == "" || path[0] == '/'
    requires Unescape(path, false).Some?
    ensures EscapedPath(path) == "" <==> path == ""
    ensures path != "" ==> EscapedPath(path)[0] == '/' && Unescape(path, false).value[0] == '/'
  {
  }

  /** The segments of the base path in its encoded form; decoding and escaping it afresh can
      yield more than were written. */
  function Encoded(base: Base): seq<string>
    requires Unescape(Join(base.segments), false).Some?
  {
    JoinStarts(base.segments);
    EncodedStarts(Join(base.segments));
    Split(EscapedPath(Join(base.segments)))
  }

  /** The segments onto which the generated client resolves the operation path. */
  function Stem(base: Base): seq<string>
    requires Unescape(Join(base.segments), false).Some?
  {
    Front(Encoded(base) + (if Appends(base) then [""] else []))
  }

  lemma StemIs(base: Base)
    requires Unescape(Join(base.segments), false).Some?
    ensures Stem(base) == if Appends(base) then Encoded(base) else Front(Encoded(base))
    ensures ValidEncoded(Join(Stem(base))) && NoSlashes(Stem(base))
  {
    var k, stem := Encoded(base), Stem(base);
    EscapedPathValid(Join(base.segments));
    if k != stem && k != [] {
      assert k == stem + [k[|k| - 1]];
      JoinAppend(stem, [k[|k| - 1]]);
      ValidParts(Join(stem), Join([k[|k| - 1]]));
    }
  }

  /** The encoded form of the server path has the added slash at its end. */
  lemma ServerPath(base: Base)
    requires Unescape(Join(base.segments), false).Some?
    ensures EscapedPath(Join(Slashed(base).segments)) == Join(Encoded(base) + (if Appends(base) then [""] else []))
  {
    var path, k := Join(base.segments), Encoded(base);
    SlashedPath(base);
    assert Join([""]) == "/";
    JoinAppend(k, [""]);
    EscapedSlash(path);
    assert k + [] == k && path + "" == path;
  }

  /** Where the operation path ends up: behind all of the base path if the slash was added
      to it, else in place of its last segment; its leading dot vanishes. */
  lemma GeneratedPath(base: Base, name: string)
    requires Unescape(Join(base.segments), false).Some?
    ensures RequestPath(Slashed(base), name) == Fold(Stem(base) + Operation(name), "")
  {
    var stem, o := Stem(base), Operation(name);
    ServerPath(base);
    StemIs(base);
    OperationSegments(name);
    OperationPathDot(name);
    ResolvedOnto(Encoded(base) + (if Appends(base) then [""] else []), o, OperationPath(name));
    OperationValid(name);
    JoinAppend(stem, o);
    ValidParts(Join(stem), Join(o));
    FoldValid(stem + o, "");
  }

  lemma Associates(a: string, b: string, c: string, d: string)
    ensures a + b + c + d == a + (b + c + d) == a + b + (c + d) == a + (b + c) + d
  {
  }

  /** Up to its first slash a URL tail is the authority. */
  lemma SameTails(a1: string, p1: string, a2: string, p2: string)
    requires '/' !in a1 && '/' !in a2 && p1 != "" && p2 != "" && p1[0] == '/' && p2[0] == '/'
    ensures a1 + p1 == a2 + p2 <==> a1 == a2 && p1 == p2
  {
    UpToSlashOf(a1, p1);
    UpToSlashOf(a2, p2);
    assert (a1 + p1)[..|a1|] == a1 && (a1 + p1)[|a1|..] == p1;
    assert (a2 + p2)[..|a2|] == a2 && (a2 + p2)[|a2|..] == p2;
  }

  lemma SameEnds(p1: string, p2: string, query: string)
    ensures p1 + query == p2 + query <==> p1 == p2
  {
    if p1 + query == p2 + query {
      assert |p1| == |p2|;
      assert p1 == (p1 + query)[..|p1|] && p2 == (p2 + query)[..|p1|];
    }
  }

  lemma Behind(a: string, b: string, c: string)
    ensures a + b == a + c <==> b == c
  {
    assert (a + b)[|a|..] == b && (a + c)[|a|..] == c;
  }

  /** The tails agree exactly if authorities and paths do. */
  lemma TailsAgree(a1: string, p1: string, a2: string, p2: string, query: string)
    requires '/' !in a1 && '/' !in a2 && p1 != "" && p2 != "" && p1[0] == '/' && p2[0] == '/'
    ensures "://" + a1 + p1 + query == "://" + a2 + p2 + query <==> a1 == a2 && p1 == p2
  {
    SameTails(a1, p1 + query, a2, p2 + query);
    SameEnds(p1, p2, query);
    Behind("://", a1 + (p1 + query), a2 + (p2 + query));
    assert "://" + a1 + p1 + query == "://" + (a1 + (p1 + query));
    assert "://" + a2 + p2 + query == "://" + (a2 + (p2 + query));
  }

  lemma TailsByParts(base: Base, name: string, port: int, waitSeconds: int)
    requires Parse(base).Some?
    ensures TunnelTail(base, name, port, waitSeconds)
         == GeneratedTail(Slashed(base), name, port, WaitOption(waitSeconds))
       <==> && AllKept(base.authority, HostName)
            && Parse(base).value.path + Join(Operation(name)) == Fold(Stem(base) + Operation(name), "")
  {
    var query := "?" + ("port=" + Itoa(port) + WaitSuffix(waitSeconds));
    var p, o := Parse(base).value, Operation(name);
    var printed, generated := p.user + Escape(p.host, HostName), Fold(Stem(base) + o, "");
    SlashedParses(base);
    EncodedQuery(port, waitSeconds);
    GeneratedPath(base, name);
    AuthorityAgrees(base.authority);
    JoinStarts(base.segments);
    EncodedStarts(Join(base.segments));
    JoinStarts(o);
    GeneratedStarts(base, name);
    TailsAgree(p.host, p.path + Join(o), printed, generated, query);
    TargetPartJoins(name, port, waitSeconds);
    Regroup("://" + p.host, p.path, Join(o), query);
    Regroup("://" + printed, generated, "?", Encode(KEYS, PortForwardValues(port, WaitOption(waitSeconds)), ""));
  }

  lemma GeneratedStarts(base: Base, name: string)
    requires Unescape(Join(base.segments), false).Some?
    ensures var g := Fold(Stem(base) + Operation(name), ""); g != "" && g[0] == '/'
  {
    var stem, o := Stem(base), Operation(name);
    StemIs(base);
    OperationSegments(name);
    LiteralSegments();
    assert (stem + o)[|stem + o| - 1] == "port-forward";
    FoldIsJoin(stem + o, []);
    LastKept(stem + o, []);
    JoinStarts(Kept(stem + o, []));
  }

  lemma {:induction false} LastKept(segments: seq<string>, kept: seq<string>)
    requires if segments == [] then kept != [] else !IsDots(segments[|segments| - 1])
    ensures Kept(segments, kept) != []
    decreases |segments|
  {
    if segments != [] {
      var s, t := segments[0], segments[1..];
      LastKept(t, if s == "." then kept else if s == ".." then (if kept == [] then [] else kept[..|kept| - 1]) else kept + [s]);
    }
  }

  lemma Regroup(a: string, b: string, c: string, d: string)
    ensures a + b + (c + d) == a + (b + c) + d == a + b + c + d
  {
  }

  /** The target part of the tunnel URL is the operation's path and its query. */
  lemma TargetPartJoins(name: string, port: int, waitSeconds: int)
    ensures TargetPart(name, port, waitSeconds)
         == Join(Operation(name)) + ("?" + ("port=" + Itoa(port) + WaitSuffix(waitSeconds)))
  {
    OperationJoins(name);
    Spliced("/vms/" + PathEscape(name), "/port-forward", "?", "port=", Itoa(port), WaitSuffix(waitSeconds));
    LiteralTarget();
  }

  lemma LiteralTarget()
    ensures "/port-forward" + "?" + "port=" == "/port-forward?port="
    ensures ['/'] + "port-forward?port=" == "/port-forward?port="
  {
  }

  lemma Spliced(a: string, b: string, c: string, d: string, e: string, f: string)
    ensures a + (b + c + d) + e + f == (a + b) + (c + (d + e + f))
  {
  }

  lemma NoDotsAppend(a: seq<string>, b: seq<string>)
    ensures NoDots(a + b) <==> NoDots(a) && NoDots(b)
  {
    assert NoDots(a + b) ==> forall i :: 0 <= i < |a| ==> a[i] == (a + b)[i];
    assert NoDots(a + b) ==> forall i :: 0 <= i < |b| ==> b[i] == (a + b)[|a| + i];
  }

  /** Segments that are resolved together with the operation path leave no dot segment. */
  lemma ResolvedHasNoDots(stem: seq<string>, name: string)
    requires NoSlashes(stem)
    ensures !HasDots(Fold(stem + Operation(name), ""))
  {
    var o := Operation(name);
    OperationSegments(name);
    LiteralSegments();
    assert (stem + o)[|stem + o| - 1] == "port-forward";
    FoldIsJoin(stem + o, []);
    JoinHasDots(Kept(stem + o, []));
  }

  lemma AppendHasDots(segments: seq<string>, o: seq<string>)
    requires NoSlashes(segments) && NoSlashes(o) && (!NoDots(segments) || !NoDots(o))
    ensures HasDots(Join(segments) + Join(o))
  {
    JoinAppend(segments, o);
    NoDotsAppend(segments, o);
    JoinHasDots(segments + o);
  }

  /** The tunnel keeps every dot segment: one written in the base, one that appears in its
      encoded form, and a dot for a name. */
  lemma TunnelKeepsDots(base: Base, name: string)
    requires base.Valid() && Unescape(Join(base.segments), false).Some?
    requires !NoDots(base.segments) || !NoDots(Encoded(base)) || IsDots(name)
    ensures HasDots(Unescape(Join(base.segments), false).value + Join(Operation(name)))
  {
    var path, o := Join(base.segments), Operation(name);
    var decoded := Unescape(path, false).value;
    OperationSegments(name);
    JoinStarts(base.segments);
    JoinStarts(o);
    EncodedStarts(path);
    if !NoDots(base.segments) {
      DecodedHasDots(base.segments, Join(o));
    } else {
      if !IsDots(name) { EncodedDots(base); }
      AppendHasDots(Split(decoded), o);
    }
  }

  /** A dot segment in the encoded form is one as written, or one of the decoded path. */
  lemma EncodedDots(base: Base)
    requires base.Valid() && Unescape(Join(base.segments), false).Some? && !NoDots(Encoded(base))
    requires Unescape(Join(base.segments), false).value == "" || Unescape(Join(base.segments), false).value[0] == '/'
    ensures !NoDots(base.segments) || !NoDots(Split(Unescape(Join(base.segments), false).value))
  {
    var path := Join(base.segments);
    var m := Split(Unescape(path, false).value);
    JoinHasDots(Encoded(base));
    if ValidEncoded(path) {
      JoinHasDots(base.segments);
    } else {
      EscapeJoins(m);
      EscapedSegments(m);
      JoinHasDots(EscapeAll(m));
    }
  }

  /** With a dot segment, or a dot for a name, the paths differ: resolution never leaves one. */
  lemma DotsDisagree(base: Base, name: string)
    requires base.Valid() && Unescape(Join(base.segments), false).Some?
    requires !NoDots(base.segments) || !NoDots(Encoded(base)) || IsDots(name)
    ensures Unescape(Join(base.segments), false).value + Join(Operation(name)) != Fold(Stem(base) + Operation(name), "")
  {
    TunnelKeepsDots(base, name);
    StemIs(base);
    ResolvedHasNoDots(Stem(base), name);
  }

  /** Is the whole base path kept, as it is written? */
  predicate KeepsPath(base: Base) {
    (base.segments == [] || (base.suffix == "" && !base.TrailingSlash())) && Plain(Join(base.segments))
  }

  /** The decoded path is what the client resolves onto exactly if the slash was added to a
      plain path, or there is no path: else the client's has fewer slashes, or escapes. */
  lemma StemAgrees(base: Base)
    requires base.Valid() && Unescape(Join(base.segments), false).Some?
    ensures Unescape(Join(base.segments), false).value == Join(Stem(base)) <==> KeepsPath(base)
  {
    var path, k := Join(base.segments), Encoded(base);
    JoinStarts(base.segments);
    EncodedStarts(path);
    StemIs(base);
    PlainIff(path);
    EncodedSlashes(path);
    SlashesJoin(k);
    SlashesJoin(Stem(base));
  }

  lemma PathsAgreeIff(base: Base, name: string)
    requires base.Valid() && Unescape(Join(base.segments), false).Some?
    ensures Unescape(Join(base.segments), false).value + Join(Operation(name)) == Fold(Stem(base) + Operation(name), "")
       <==> KeepsPath(base) && NoDots(base.segments) && !IsDots(name)
  {
    if !NoDots(base.segments) || !NoDots(Encoded(base)) || IsDots(name) {
      DotsDisagree(base, name);
      if KeepsPath(base) && !NoDots(Encoded(base)) {
        PlainIff(Join(base.segments));
        JoinHasDots(Encoded(base));
        JoinHasDots(base.segments);
      }
    } else {
      var stem, o := Stem(base), Operation(name);
      StemIs(base);
      OperationSegments(name);
      NoDotsAppend(stem, o);
      FoldLength(stem + o, "");
      JoinAppend(stem, o);
      assert "" + Join(stem + o) == Join(stem) + Join(o);
      SameEnds(Unescape(Join(base.segments), false).value, Join(stem), Join(o));
      StemAgrees(base);
    }
  }

  /** For every base, the two builders agree up to the scheme (or both reject it) exactly if
      net/url rejects the base, or its authority has nothing but characters a host is printed
      with (so no user information), its path is plain, has no dot segment and no slash at
      its end, and is empty if there is a query or fragment, and the VM is not named "."
      or "..". */
  lemma BuildersAgreeIff(base: Base, name: string, port: int, waitSeconds: int)
    requires base.Valid()
    ensures TunnelTail(base, name, port, waitSeconds)
         == GeneratedTail(Slashed(base), name, port, WaitOption(waitSeconds))
       <==> || Parse(base).None?
            || (&& AllKept(base.authority, HostName)
                && (base.segments == [] || (base.suffix == "" && !base.TrailingSlash()))
                && Plain(Join(base.segments)) && NoDots(base.segments) && !IsDots(name))
  {
    SlashedParses(base);
    if Parse(base).Some? {
      TailsByParts(base, name, port, waitSeconds);
      PathsAgreeIff(base, name);
    }
  }

  /** The whole generated URL. */
  function GeneratedURL(server: Base, name: string, port: int, wait: Option<int>): Option<string> {
    match (Parse(server), GeneratedTail(server, name, port, wait))
    case (Some(p), Some(tail)) => Some(p.scheme + tail)
    case _ => None
  }

  predicate IsHttp(scheme: string) {
    && |scheme| == 4 && (scheme[0] == 'h' || scheme[0] == 'H') && (scheme[1] == 't' || scheme[1] == 'T')
    && (scheme[2] == 't' || scheme[2] == 'T') && (scheme[3] == 'p' || scheme[3] == 'P')
  }

  predicate IsHttps(scheme: string) {
    |scheme| == 5 && IsHttp(scheme[..4]) && (scheme[4] == 's' || scheme[4] == 'S')
  }

  lemma LowerAt(s: string, i: nat, lower: char)
    requires i < |s| && 'a' <= lower <= 'z'
    ensures Lower(s)[i] == lower <==> s[i] == lower || s[i] == lower - 'a' + 'A'
  {
  }

  lemma LowerIsHttp(s: string)
    ensures Lower(s) == "http" <==> IsHttp(s)
  {
    if |s| == 4 {
      LowerAt(s, 0, 'h');
      LowerAt(s, 1, 't');
      LowerAt(s, 2, 't');
      LowerAt(s, 3, 'p');
      FourChars(Lower(s));
    }
  }

  lemma FourChars(s: string)
    requires |s| == 4
    ensures s == "http" <==> s[0] == 'h' && s[1] == 't' && s[2] == 't' && s[3] == 'p'
  {
  }

  lemma LowerIsHttps(s: string)
    ensures Lower(s) == "https" <==> IsHttps(s)
  {
    if |s| == 5 {
      var l := Lower(s);
      LowerIsHttp(s[..4]);
      LowerAt(s, 4, 's');
      assert l[..4] == Lower(s[..4]) && l == l[..4] + [l[4]];
      assert "https" == "http" + ['s'] && "https"[..4] == "http";
    }
  }

  lemma SchemeFirst(scheme: string, host: string, path: string, target: string)
    ensures scheme + "://" <= scheme + ("://" + host + path + target)
  {
    assert scheme + ("://" + host + path + target) == scheme + "://" + (host + path + target);
  }

  lemma WsLiterals()
    ensures "ws" + "://" == "ws://" && "wss" + "://" == "wss://"
  {
  }

  /** The tunnel is encrypted exactly for an https base, in any letter case. */
  lemma TunnelScheme(base: Base, name: string, port: int, waitSeconds: int)
    requires Parse(base).Some?
    ensures var url := BuildWebSocketURL(base, name, port, waitSeconds);
            url.Some? && (if IsHttps(base.scheme) then "wss://" <= url.value else "ws://" <= url.value)
  {
    LowerIsHttps(base.scheme);
    var p := Parse(base).value;
    WsLiterals();
    SchemeFirst(WsScheme(p.scheme), p.host, p.path, TargetPart(name, port, waitSeconds));
  }

  /** Where nothing has to be escaped, the tunnel URL is its parts put together. */
  lemma PlainTunnel(base: Base, name: string, port: int, waitSeconds: int)
    requires Parse(base).Some? && AllKept(base.authority, HostName) && Plain(Join(base.segments))
    requires AllKept(name, Segment) && waitSeconds > 0
    ensures BuildWebSocketURL(base, name, port, waitSeconds)
         == Some((if IsHttps(base.scheme) then "wss" else "ws")
                 + ("://" + base.authority + Join(base.segments)
                    + ("/vms/" + name + "/port-forward?port=" + Itoa(port) + ("&wait=" + Itoa(waitSeconds)))))
  {
    LowerIsHttps(base.scheme);
    EscapeUnchanged(name, Segment);
    UnescapePlain(Join(base.segments));
    HostSigns();
    PastLast(base.authority, '@');
    assert base.authority[0..] == base.authority;
    HostParses(base.authority);
  }

  lemma SchemeReplaced(tail: string)
    ensures ("http" + tail)[..4] == "http" && ("http" + tail)[4..] == tail
    ensures ("https" + tail)[..4] == "http" && ("https" + tail)[4..] == "s" + tail
    ensures "wss" + tail == "ws" + ("s" + tail)
  {
    Parts("http", tail);
    assert "https" + tail == "http" + ("s" + tail);
    Parts("http", "s" + tail);
  }

  /** On an http or https base where the tails agree the tunnel URL is the client's whole URL
      with its http replaced by ws; so https becomes wss. */
  lemma WholeUrlsAgree(base: Base, name: string, port: int, waitSeconds: int)
    requires base.Valid() && Parse(base).Some? && (IsHttp(base.scheme) || IsHttps(base.scheme))
    requires AllKept(base.authority, HostName)
    requires base.segments == [] || (base.suffix == "" && !base.TrailingSlash())
    requires Plain(Join(base.segments)) && NoDots(base.segments) && !IsDots(name)
    ensures var u := GeneratedURL(Slashed(base), name, port, WaitOption(waitSeconds));
            && u.Some? && |u.value| >= 4 && u.value[..4] == "http"
            && BuildWebSocketURL(base, name, port, waitSeconds) == Some("ws" + u.value[4..])
  {
    LowerIsHttp(base.scheme);
    LowerIsHttps(base.scheme);
    SlashedParses(base);
    BuildersAgreeIff(base, name, port, waitSeconds);
    SchemeReplaced(TunnelTail(base, name, port, waitSeconds).value);
  }

  /** Both builders accept the base and make different URLs of it. */
  predicate Differ(base: Base, name: string, port: int, waitSeconds: int) {
    && base.Valid() && TunnelTail(base, name, port, waitSeconds).Some?
    && TunnelTail(base, name, port, waitSeconds) != GeneratedTail(Slashed(base), name, port, WaitOption(waitSeconds))
  }

  /** User information and a non-ASCII host make the URLs differ, for every target. */
  lemma AuthoritiesDiffer(name: string, port: int, waitSeconds: int)
    ensures Differ(Base("https", "u@h", [], ""), name, port, waitSeconds)
    ensures Differ(Base("https", [0xfc as char], [], ""), name, port, waitSeconds)
  {
    var user, host := Base("https", "u@h", [], ""), Base("https", [0xfc as char], [], "");
    HostSigns();
    WithUser("u", "h");
    assert "u" + "@" + "h" == "u@h" && "u@h"[1] == '@';
    SingleHost(host.authority);
    assert host.authority[0] == 0xfc as char;
    SimpleParses(user);
    SimpleParses(host);
    BuildersAgreeIff(user, name, port, waitSeconds);
    BuildersAgreeIff(host, name, port, waitSeconds);
  }

  /** So does a query behind a path, even an empty one. */
  lemma QueryDiffers(name: string, port: int, waitSeconds: int)
    ensures Differ(Base("https", "h", ["v"], "?"), name, port, waitSeconds)
  {
    var base := Base("https", "h", ["v"], "?");
    SingleHost("h");
    JoinOne("v");
    SegmentChars("v");
    UnescapePlain("/" + "v");
    SimpleParses(base);
    BuildersAgreeIff(base, name, port, waitSeconds);
  }

  /** And so do a slash at the end, a space, an escape and a dot segment. */
  lemma PathsDiffer(segment: string, name: string, port: int, waitSeconds: int)
    requires segment in ["", " ", "%20", "."]
    ensures Differ(Base("https", "h", [segment], ""), name, port, waitSeconds)
  {
    var base := Base("https", "h", [segment], "");
    SingleHost("h");
    JoinOne(segment);
    SegmentChars(segment);
    if segment == "%20" { EscapedSpace(); } else { UnescapePlain("/" + segment); }
    SimpleParses(base);
    NotClean(segment);
    BuildersAgreeIff(base, name, port, waitSeconds);
  }

  lemma SimpleParses(base: Base)
    requires base.scheme == "https" && '/' !in base.authority && NoMarks(base.authority) && NoControls(base.authority)
    requires UserOf(base.authority).Some? && HostOf(base.authority).Some?
    requires NoSlashes(base.segments) && NoMarks(Join(base.segments)) && NoControls(Join(base.segments))
    requires Unescape(Join(base.segments), false).Some?
    requires base.suffix == "" || base.suffix == "?"
    ensures base.Valid() && Parse(base).Some?
  {
    HttpsIsScheme();
    CutFinds(base.suffix, '#', "");
  }

  lemma HttpsIsScheme()
    ensures ValidScheme("https")
  {
  }

  lemma SingleHost(h: string)
    requires |h| == 1 && (Letter(h[0]) || h[0] as int >= 128)
    ensures UserOf(h) == Some("") && HostOf(h) == Some(h) && NoMarks(h) && NoControls(h)
    ensures Letter(h[0]) ==> AllKept(h, HostName)
  {
    assert h[..0] == "" && h[0..] == h && h[1..] == "";
    assert DecodeHost(h[1..], false) == Some("") && [h[0]] + "" == h;
  }

  lemma WithUser(u: string, h: string)
    requires |u| == |h| == 1 && Letter(u[0]) && Letter(h[0])
    ensures var a := u + "@" + h;
            UserOf(a).Some? && HostOf(a).Some? && '/' !in a && NoMarks(a) && NoControls(a)
  {
    var a := u + "@" + h;
    SingleHost(h);
    SingleUser(u);
    Parts(u + "@", h);
    Parts(u, "@");
    assert a[..1] == u && a[2] == h[0] && (u + "@")[1] == '@';
    assert Past(a, '@') == Past(a[..2], '@') == 2;
    assert h[0..] == h;
  }

  lemma SingleUser(u: string)
    requires |u| == 1 && Letter(u[0])
    ensures PrintedUser(u).Some?
  {
    CutFinds(u, ':', "");
    UnescapePlain(u);
  }

  lemma JoinOne(segment: string)
    ensures Join([segment]) == "/" + segment
  {
    assert [segment][1..] == [];
  }

  lemma NotClean(segment: string)
    requires segment in ["", " ", "%20", "."]
    ensures segment == "" || !Plain("/" + segment) || !NoDots([segment])
  {
    assert segment != "" ==> ("/" + segment)[1] == segment[0];
    assert [segment][0] == segment;
  }

  lemma SegmentChars(segment: string)
    requires segment in ["v", "", " ", "%20", "."]
    ensures '/' !in segment && NoMarks("/" + segment) && NoControls("/" + segment)
    ensures '%' in "/" + segment ==> segment == "%20"
  {
  }

  lemma EscapedSpace()
    ensures Unescape("/" + "%20", false).Some?
  {
    EscapeDecodes(2, 0);
    assert "%20" == ['%', HexDigit(2), HexDigit(0)];
  }

  lemma EscapeDecodes(h: nat, l: nat)
    requires h < 16 && l < 16
    ensures Unescape("/" + ['%', HexDigit(h), HexDigit(l)], false).Some?
  {
    var e := ['%', HexDigit(h), HexDigit(l)];
    TwoDigits(h, l, "");
    assert e + "" == e;
    Parts("/", e);
    assert Unescape(e, false).Some?;
  }

  // ----- reading the tunnel URL back

  /** What a tunnel URL says about the VM, behind a known prefix. */
  datatype Target = Target(name: string, port: int, wait: Option<int>)

  function ParseQueryPart(s: string): Option<(int, Option<int>)> {
    var (port, rest, more) := Cut(s, '&');
    match Atoi(port)
    case None => None
    case Some(p) =>
      if !more then Some((p, None))
      else if !("wait=" <= rest) then None
      else match Atoi(rest[5..])
        case None => None
        case Some(w) => Some((p, Some(w)))
  }

  function ParseTarget(s: string): Option<Target> {
    if !("/vms/" <= s) then None else
    var (name, rest, _) := Cut(s[5..], '/');
    if !("port-forward?port=" <= rest) then None else
    match (Unescape(name, false), ParseQueryPart(rest[18..]))
    case (Some(n), Some((p, w))) => Some(Target(n, p, w))
    case _ => None
  }

  lemma ParseQueryPartOf(port: string, wait: string)
    requires '&' !in port
    ensures ParseQueryPart(port) == (match Atoi(port) case None => None case Some(p) => Some((p, None)))
    ensures ParseQueryPart(port + (['&'] + ("wait=" + wait)))
         == match (Atoi(port), Atoi(wait)) case (Some(p), Some(w)) => Some((p, Some(w))) case _ => None
  {
    var rest := "wait=" + wait;
    CutFinds(port, '&', rest);
    assert rest[5..] == wait;
  }

  lemma QueryPartRoundTrip(port: int, waitSeconds: int)
    ensures ParseQueryPart(Itoa(port) + WaitSuffix(waitSeconds)) == Some((port, WaitOption(waitSeconds)))
  {
    ItoaChars(port);
    AtoiItoa(port);
    AtoiItoa(waitSeconds);
    ParseQueryPartOf(Itoa(port), Itoa(waitSeconds));
    if waitSeconds > 0 {
      WaitText(Itoa(port), Itoa(waitSeconds));
    } else {
      assert Itoa(port) + "" == Itoa(port);
    }
  }

  lemma WaitText(port: string, wait: string)
    ensures port + ("&wait=" + wait) == port + (['&'] + ("wait=" + wait))
  {
    assert "&wait=" == ['&'] + "wait=";
  }

  lemma ParseTargetOf(e: string, query: string)
    requires '/' !in e
    ensures ParseTarget("/vms/" + (e + (['/'] + ("port-forward?port=" + query))))
         == match (Unescape(e, false), ParseQueryPart(query))
            case (Some(n), Some((p, w))) => Some(Target(n, p, w))
            case _ => None
  {
    var rest := "port-forward?port=" + query;
    var s := "/vms/" + (e + (['/'] + rest));
    assert s[5..] == e + (['/'] + rest);
    CutFinds(e, '/', rest);
    assert rest[18..] == query;
  }

  /** Name, port and positive wait are recovered from the URL, for every VM name. */
  lemma TargetRoundTrip(name: string, port: int, waitSeconds: int)
    requires IsBytes(name)
    ensures ParseTarget(TargetPart(name, port, waitSeconds)) == Some(Target(name, port, WaitOption(waitSeconds)))
  {
    var e := PathEscape(name);
    EscapeChars(name, Segment);
    TargetPartSplit(name, port, waitSeconds);
    ParseTargetOf(e, Itoa(port) + WaitSuffix(waitSeconds));
    EscapeRoundTrip(name, Segment);
    QueryPartRoundTrip(port, waitSeconds);
  }

  lemma TargetPartSplit(name: string, port: int, waitSeconds: int)
    ensures TargetPart(name, port, waitSeconds)
         == "/vms/" + (PathEscape(name) + (['/'] + ("port-forward?port=" + (Itoa(port) + WaitSuffix(waitSeconds)))))
  {
    Nested("/vms/", PathEscape(name), ['/'], "port-forward?port=", Itoa(port), WaitSuffix(waitSeconds));
    LiteralTarget();
  }

  lemma Nested(a: string, b: string, c: string, d: string, e: string, f: string)
    ensures a + b + (c + d) + e + f == a + (b + (c + (d + (e + f))))
  {
  }

  /** On a fixed base, distinct targets get distinct tunnel URLs. */
  lemma TunnelInjective(base: Base, n1: string, p1: int, w1: int, n2: string, p2: int, w2: int)
    requires IsBytes(n1) && IsBytes(n2)
    requires BuildWebSocketURL(base, n1, p1, w1) == BuildWebSocketURL(base, n2, p2, w2) != None
    ensures n1 == n2 && p1 == p2 && WaitOption(w1) == WaitOption(w2)
  {
    var p := Parse(base).value;
    var prefix := WsScheme(p.scheme) + ("://" + p.host + p.path);
    Associates(WsScheme(p.scheme), "://" + p.host, p.path, TargetPart(n1, p1, w1));
    Associates(WsScheme(p.scheme), "://" + p.host, p.path, TargetPart(n2, p2, w2));
    Behind(prefix, TargetPart(n1, p1, w1), TargetPart(n2, p2, w2));
    TargetRoundTrip(n1, p1, w1);
    TargetRoundTrip(n2, p2, w2);
  }
}
