/** The shell text that carries a script's environment, and the part of the POSIX shell
    that reads it back (sections 2.2 and 2.3 of the POSIX.1-2017 Shell Command Language). */
module Shell {
  import opened Wrappers

  // ----- the printer

  /** strings.ReplaceAll(value, `'`, `'"'"'`) */
  function EscapeQuotes(value: string): string {
    if value == "" then ""
    else (if value[0] == '\'' then "'\"'\"'" else [value[0]]) + EscapeQuotes(value[1..])
  }

  function Export(key: string, value: string, end: string): string {
    "export " + key + "='" + EscapeQuotes(value) + "'" + end
  }

  type Entry = (string, string)

  function Exports(entries: seq<Entry>, end: string): string {
    if entries == [] then "" else Export(entries[0].0, entries[0].1, end) + Exports(entries[1..], end)
  }

  const SHEBANG := "#!/bin/bash\n"
  const SET_E := "set -e\n"
  const NEWLINE := "\n"
  const SEMICOLON := "; "
  const SCRIPT_PATH := "/tmp/cloudinit-script.sh"

  /** `entries` lists the entries of env under `keys` once each, in some order. */
  ghost predicate Lists(entries: seq<Entry>, env: map<string, string>, keys: set<string>) {
    && (forall i, j :: 0 <= i < j < |entries| ==> entries[i].0 != entries[j].0)
    && (forall i :: 0 <= i < |entries| ==>
          entries[i].0 in keys && entries[i].0 in env && env[entries[i].0] == entries[i].1)
    && (forall k :: k in keys ==> exists i :: 0 <= i < |entries| && entries[i].0 == k)
  }

  ghost predicate Enumerates(entries: seq<Entry>, env: map<string, string>) {
    Lists(entries, env, env.Keys)
  }

  lemma ListsMore(entries: seq<Entry>, env: map<string, string>, keys: set<string>, key: string)
    requires Lists(entries, env, keys) && key in env && key !in keys
    ensures Lists(entries + [(key, env[key])], env, keys + {key})
  {
    var more := entries + [(key, env[key])];
    forall k | k in keys + {key}
      ensures exists i :: 0 <= i < |more| && more[i].0 == k
    {
      if k == key {
        assert more[|entries|].0 == k;
      } else {
        var i :| 0 <= i < |entries| && entries[i].0 == k;
        assert more[i].0 == k;
      }
    }
  }

  /** The loop over the environment that both builders share; Go leaves the order of a
      map iteration open. */
  method AppendExports(start: string, env: map<string, string>, end: string)
    returns (text: string, ghost entries: seq<Entry>)
    ensures Enumerates(entries, env)
    ensures text == start + Exports(entries, end)
  {
    text, entries := start, [];
    var keys := env.Keys;
    while keys != {}
      invariant keys <= env.Keys && Lists(entries, env, env.Keys - keys)
      invariant text == start + Exports(entries, end)
      decreases keys
    {
      var key :| key in keys;
      ListsMore(entries, env, env.Keys - keys, key);
      ExportsAppend(entries, (key, env[key]), end);
      text := text + Export(key, env[key], end);
      entries := entries + [(key, env[key])];
      assert env.Keys - keys + {key} == env.Keys - (keys - {key});
      keys := keys - {key};
    }
    assert env.Keys - keys == env.Keys;
  }

  /** The text fed to /bin/bash on standard input. */
  method BuildStdin(script: string, env: map<string, string>) returns (text: string, ghost entries: seq<Entry>)
    ensures Enumerates(entries, env)
    ensures text == SHEBANG + SET_E + Exports(entries, NEWLINE) + script
  {
    text, entries := AppendExports(SHEBANG + SET_E, env, NEWLINE);
    text := text + script;
  }

  /** The command line that runs the uploaded script. */
  method BuildCommand(env: map<string, string>) returns (text: string, ghost entries: seq<Entry>)
    ensures Enumerates(entries, env)
    ensures text == Exports(entries, SEMICOLON) + SCRIPT_PATH
  {
    text, entries := AppendExports("", env, SEMICOLON);
    text := text + SCRIPT_PATH;
  }

  lemma {:induction false} ExportsAppend(entries: seq<Entry>, e: Entry, end: string)
    ensures Exports(entries + [e], end) == Exports(entries, end) + Export(e.0, e.1, end)
  {
    if entries == [] {
      assert entries + [e] == [e] && [e][1..] == [];
    } else {
      assert (entries + [e])[1..] == entries[1..] + [e];
      ExportsAppend(entries[1..], e, end);
    }
  }

  // ----- the lexer

  datatype Mode = Plain | Single | Double

  /** One command: its words after quote removal, whether a semicolon ended it, and the
      text behind it. */
  datatype Command = Command(words: seq<string>, semicolon: bool, rest: string)

  /** Characters that start an expansion, a pattern or an operator when unquoted; the model
      does not follow them. */
  predicate Special(c: char) {
    c in "&|<>()$`*?[]~{}!" || c == 0 as char
  }

  /** `word` is the word being read, if any. */
  datatype Lexer = Lexer(text: string, mode: Mode, word: Option<string>, words: seq<string>) {
    function Flush(): seq<string> {
      if word.Some? then words + [word.value] else words
    }

    /** Drops n characters of the text and adds s to the word. */
    function Take(n: nat, s: string): Lexer
      requires n <= |text|
    {
      this.(text := text[n..], word := Some((if word.Some? then word.value else "") + s))
    }

    function Drop(n: nat): Lexer
      requires n <= |text|
    {
      this.(text := text[n..])
    }
  }

  /** Stuck: an unfinished quotation or a construct outside the model. */
  datatype Reading = More(lexer: Lexer) | Done(cmd: Command) | Stuck

  function Advance(l: Lexer): (r: Reading)
    ensures r.More? ==> |r.lexer.text| < |l.text|
  {
    if l.text == "" then
      if l.mode == Plain then Done(Command(l.Flush(), false, "")) else Stuck
    else
      match l.mode
      case Single => AdvanceSingle(l)
      case Double => AdvanceDouble(l)
      case Plain => AdvancePlain(l)
  }

  function AdvanceSingle(l: Lexer): (r: Reading)
    requires l.text != ""
    ensures r.More? ==> |r.lexer.text| < |l.text|
  {
    var c := l.text[0];
    if c == '\'' then More(l.Drop(1).(mode := Plain))
    else if c == 0 as char then Stuck
    else More(l.Take(1, [c]))
  }

  function AdvanceDouble(l: Lexer): (r: Reading)
    requires l.text != ""
    ensures r.More? ==> |r.lexer.text| < |l.text|
  {
    var c := l.text[0];
    if c == '"' then More(l.Drop(1).(mode := Plain))
    else if c == '$' || c == '`' || c == 0 as char then Stuck
    else if c == '\\' && |l.text| > 1 && l.text[1] in "$`\"\\" then More(l.Take(2, [l.text[1]]))
    else if c == '\\' && |l.text| > 1 && l.text[1] == '\n' then More(l.Drop(2))
    else More(l.Take(1, [c]))
  }

  function AdvancePlain(l: Lexer): (r: Reading)
    requires l.text != ""
    ensures r.More? ==> |r.lexer.text| < |l.text|
  {
    var c := l.text[0];
    if c == '\n' || c == ';' then Done(Command(l.Flush(), c == ';', l.text[1..]))
    else if c == ' ' || c == '\t' then More(Lexer(l.text[1..], Plain, None, l.Flush()))
    else if c == '\'' then More(l.Take(1, "").(mode := Single))
    else if c == '"' then More(l.Take(1, "").(mode := Double))
    else if c == '\\' then
      if |l.text| == 1 then More(l.Take(1, [c]))
      else if l.text[1] == '\n' then More(l.Drop(2))
      else if l.text[1] == 0 as char then Stuck
      else More(l.Take(2, [l.text[1]]))
    else if c == '#' && l.word == None then Done(Command(l.words, false, AfterNewline(l.text[1..])))
    else if Special(c) then Stuck
    else More(l.Take(1, [c]))
  }

  /** Reads one command. */
  function Lex(l: Lexer): Option<Command>
    decreases |l.text|
  {
    match Advance(l)
    case More(l') => Lex(l')
    case Done(cmd) => Some(cmd)
    case Stuck => None
  }

  function LexCommand(text: string): Option<Command> {
    Lex(Lexer(text, Plain, None, []))
  }

  function AfterNewline(text: string): string {
    if text == "" then "" else if text[0] == '\n' then text[1..] else AfterNewline(text[1..])
  }

  // ----- running the commands the printer uses

  /** The exported variables and the -e option. */
  datatype Shell = Shell(env: map<string, string>, errexit: bool)

  predicate NameChar(c: char) {
    'a' <= c <= 'z' || 'A' <= c <= 'Z' || c == '_' || '0' <= c <= '9'
  }

  predicate IsName(s: string) {
    s != "" && !('0' <= s[0] <= '9') && forall i :: 0 <= i < |s| ==> NameChar(s[i])
  }

  predicate NulFree(s: string) {
    0 as char !in s
  }

  /** Position of the first '=', or the length. */
  function EqualsAt(s: string): (i: nat)
    ensures i <= |s| && '=' !in s[..i] && (i < |s| ==> s[i] == '=')
  {
    if s == "" || s[0] == '=' then 0 else
    var i := 1 + EqualsAt(s[1..]);
    assert s[..i] == [s[0]] + s[1..][..i - 1];
    i
  }

  /** One operand of export: name=value.  An operand that is no assignment to a name is
      refused (the printer emits none for proper names). */
  function Assign(operand: string, sh: Shell): Option<Shell> {
    var i := EqualsAt(operand);
    if i < |operand| && IsName(operand[..i]) then Some(sh.(env := sh.env[operand[..i] := operand[i + 1..]]))
    else None
  }

  function Execute(words: seq<string>, sh: Shell): Option<Shell> {
    if words == [] then Some(sh)
    else if words == ["set", "-e"] then Some(sh.(errexit := true))
    else if |words| == 2 && words[0] == "export" then Assign(words[1], sh)
    else None
  }

  datatype Progress = Progress(rest: string, sh: Shell)

  /** Reads and runs one command; a lone semicolon is a syntax error. */
  function Step(text: string, sh: Shell): Option<Progress> {
    match LexCommand(text)
    case None => None
    case Some(cmd) =>
      if cmd.semicolon && cmd.words == [] then None else
      match Execute(cmd.words, sh)
      case None => None
      case Some(sh') => Some(Progress(cmd.rest, sh'))
  }

  function Steps(n: nat, text: string, sh: Shell): Option<Progress> {
    if n == 0 then Some(Progress(text, sh)) else
    match Step(text, sh)
    case None => None
    case Some(p) => Steps(n - 1, p.rest, p.sh)
  }

  // ----- the quoted value is one word

  /** Inside single quotes the escaped value reads as the value itself, whatever follows
      the closing quote. */
  lemma {:induction false} QuotedReadsBack(value: string, w: string, words: seq<string>, suffix: string)
    requires NulFree(value)
    ensures Lex(Lexer(EscapeQuotes(value) + "'" + suffix, Single, Some(w), words))
         == Lex(Lexer(suffix, Plain, Some(w + value), words))
  {
    var l := Lexer(EscapeQuotes(value) + "'" + suffix, Single, Some(w), words);
    if value == "" {
      assert l.text[1..] == suffix && w + value == w;
      assert Advance(l) == More(Lexer(suffix, Plain, Some(w), words));
    } else {
      var c, v := value[0], value[1..];
      var tail := EscapeQuotes(v) + "'" + suffix;
      assert w + [c] + v == w + value;
      QuotedReadsBack(v, w + [c], words, suffix);
      if c == '\'' {
        assert l.text == "'\"'\"'" + tail;
        QuoteCharReadsBack(tail, w, words);
      } else {
        assert l.text == [c] + tail && l.text[1..] == tail;
        assert Advance(l) == More(Lexer(tail, Single, Some(w + [c]), words));
      }
    }
  }

  /** One character read: from one mode to another, or added to the word. */
  lemma ReadsOne(c: char, tail: string, mode: Mode, w: string, words: seq<string>, mode': Mode, w': string)
    requires Advance(Lexer([c] + tail, mode, Some(w), words)) == More(Lexer(tail, mode', Some(w'), words))
    ensures Lex(Lexer([c] + tail, mode, Some(w), words)) == Lex(Lexer(tail, mode', Some(w'), words))
  {
  }

  lemma ClosesSingle(tail: string, w: string, words: seq<string>)
    ensures Lex(Lexer(['\''] + tail, Single, Some(w), words)) == Lex(Lexer(tail, Plain, Some(w), words))
  {
    assert (['\''] + tail)[1..] == tail;
    ReadsOne('\'', tail, Single, w, words, Plain, w);
  }

  lemma OpensQuote(double: bool, tail: string, w: string, words: seq<string>)
    ensures Lex(Lexer([if double then '"' else '\''] + tail, Plain, Some(w), words))
         == Lex(Lexer(tail, if double then Double else Single, Some(w), words))
  {
    assert w + "" == w;
    assert ([if double then '"' else '\''] + tail)[1..] == tail;
    ReadsOne(if double then '"' else '\'', tail, Plain, w, words, if double then Double else Single, w);
  }

  lemma QuotesSingle(tail: string, w: string, words: seq<string>)
    ensures Lex(Lexer(['\''] + (['"'] + tail), Double, Some(w), words)) == Lex(Lexer(tail, Plain, Some(w + "'"), words))
  {
    assert (['\''] + (['"'] + tail))[1..] == ['"'] + tail && (['"'] + tail)[1..] == tail;
    ReadsOne('\'', ['"'] + tail, Double, w, words, Double, w + "'");
    ReadsOne('"', tail, Double, w + "'", words, Plain, w + "'");
  }

  /** The five characters that stand for a single quote. */
  lemma QuoteCharReadsBack(tail: string, w: string, words: seq<string>)
    ensures Lex(Lexer("'\"'\"'" + tail, Single, Some(w), words)) == Lex(Lexer(tail, Single, Some(w + "'"), words))
  {
    assert "'\"'\"'" + tail == ['\''] + (['"'] + (['\''] + (['"'] + (['\''] + tail))));
    ClosesSingle(['"'] + (['\''] + (['"'] + (['\''] + tail))), w, words);
    OpensQuote(true, ['\''] + (['"'] + (['\''] + tail)), w, words);
    QuotesSingle(['\''] + tail, w, words);
    OpensQuote(false, tail, w + "'", words);
  }

  /** Characters that stand for themselves inside an unquoted word. */
  predicate Ordinary(c: char) {
    !Special(c) && c !in "\n; \t'\"\\#"
  }

  lemma {:induction false} OrdinaryReadsBack(s: string, l: Lexer, suffix: string)
    requires s != "" && forall i :: 0 <= i < |s| ==> Ordinary(s[i])
    requires l.mode == Plain && l.text == s + suffix
    ensures Lex(l) == Lex(l.Take(|s|, s))
  {
    var l' := l.Take(1, [s[0]]);
    assert Advance(l) == More(l');
    if |s| > 1 {
      OrdinaryReadsBack(s[1..], l', suffix);
      assert l.text[1..] == s[1..] + suffix && l.text[|s|..] == l'.text[|s| - 1..] == suffix;
      assert [s[0]] + s[1..] == s;
      assert forall w: string :: w + [s[0]] + s[1..] == w + s;
      assert l'.Take(|s| - 1, s[1..]) == l.Take(|s|, s);
    } else {
      assert [s[0]] == s;
    }
  }

  lemma BlankReadsBack(l: Lexer, suffix: string)
    requires l.mode == Plain && l.text == " " + suffix
    ensures Lex(l) == Lex(Lexer(suffix, Plain, None, l.Flush()))
  {
    assert l.text[1..] == suffix;
  }

  lemma LexEnds(l: Lexer, rest: string)
    requires l.mode == Plain
    ensures l.text == "" ==> Lex(l) == Some(Command(l.Flush(), false, ""))
    ensures l.text == "\n" + rest ==> Lex(l) == Some(Command(l.Flush(), false, rest))
    ensures l.text == ";" + rest ==> Lex(l) == Some(Command(l.Flush(), true, rest))
  {
    assert ("\n" + rest)[1..] == rest && (";" + rest)[1..] == rest;
  }

  /** Letters, digits and a few marks: all ordinary, and cheap to recognise. */
  predicate Tame(c: char) {
    NameChar(c) || c == '/' || c == '-' || c == '.' || c == '='
  }

  lemma TameOrdinary(s: string)
    requires forall i :: 0 <= i < |s| ==> Tame(s[i])
    ensures forall i :: 0 <= i < |s| ==> Ordinary(s[i])
  {
  }

  /** A first word `verb`, a blank, and an ordinary text before `suffix`. */
  lemma TwoWords(verb: string, s: string, suffix: string)
    requires verb != "" && forall i :: 0 <= i < |verb| ==> Tame(verb[i])
    requires s != "" && forall i :: 0 <= i < |s| ==> Tame(s[i])
    ensures LexCommand(verb + (" " + (s + suffix))) == Lex(Lexer(suffix, Plain, Some(s), [verb]))
  {
    TameOrdinary(verb);
    TameOrdinary(s);
    var l0 := Lexer(verb + (" " + (s + suffix)), Plain, None, []);
    OrdinaryReadsBack(verb, l0, " " + (s + suffix));
    var l1 := l0.Take(|verb|, verb);
    assert l1.text == " " + (s + suffix) && "" + verb == verb;
    BlankReadsBack(l1, s + suffix);
    assert l1.Flush() == [verb];
    var l2 := Lexer(s + suffix, Plain, None, [verb]);
    OrdinaryReadsBack(s, l2, suffix);
    assert l2.Take(|s|, s) == Lexer(suffix, Plain, Some(s), [verb]) by {
      assert l2.text[|s|..] == suffix && "" + s == s;
    }
  }

  /** One printed export: the words `export` and `key=value`, then the rest. */
  lemma ExportLexes(key: string, value: string, suffix: string)
    requires IsName(key) && NulFree(value)
    ensures LexCommand("export " + key + "='" + EscapeQuotes(value) + "'" + suffix)
         == Lex(Lexer(suffix, Plain, Some(key + "=" + value), ["export"]))
  {
    var body := EscapeQuotes(value) + "'" + suffix;
    ExportText(key, EscapeQuotes(value), suffix);
    TwoWords("export", key + "=", "'" + body);
    assert "'" + body == ['\''] + body;
    OpensQuote(false, body, key + "=", ["export"]);
    QuotedReadsBack(value, key + "=", ["export"], suffix);
  }

  lemma ExportText(key: string, escaped: string, suffix: string)
    ensures "export " + key + "='" + escaped + "'" + suffix
         == "export" + (" " + ((key + "=") + ("'" + (escaped + "'" + suffix))))
  {
    assert "export " == "export" + " " && "='" == "=" + "'";
  }

  lemma AssignSplits(key: string, value: string, sh: Shell)
    requires IsName(key)
    ensures Assign(key + "=" + value, sh) == Some(sh.(env := sh.env[key := value]))
  {
    var s := key + "=" + value;
    assert s == key + ("=" + value);
    EqualsAfter(key, value);
    assert s[..|key|] == key && s[|key| + 1..] == value;
  }

  lemma {:induction false} EqualsAfter(key: string, value: string)
    requires '=' !in key
    ensures EqualsAt(key + ("=" + value)) == |key|
  {
    if key != "" {
      assert (key + ("=" + value))[1..] == key[1..] + ("=" + value);
      EqualsAfter(key[1..], value);
    }
  }

  /** The two terminators in use: a newline, or a semicolon and a blank. */
  predicate IsEnd(end: string) {
    end == NEWLINE || end == SEMICOLON
  }

  /** What of the terminator is left for the next command. */
  function Lead(end: string): string {
    if end == NEWLINE then "" else " "
  }

  lemma ExportRuns(key: string, value: string, sh: Shell)
    requires IsName(key)
    ensures Execute(["export", key + "=" + value], sh) == Some(sh.(env := sh.env[key := value]))
  {
    AssignSplits(key, value, sh);
    assert ["export", key + "=" + value][0] != ["set", "-e"][0] by {
      assert "export"[0] != "set"[0];
    }
  }

  lemma ExportSteps(key: string, value: string, end: string, suffix: string, sh: Shell)
    requires IsName(key) && NulFree(value) && IsEnd(end)
    ensures Step(Export(key, value, end) + suffix, sh)
         == Some(Progress(Lead(end) + suffix, sh.(env := sh.env[key := value])))
  {
    ExportLexes(key, value, end + suffix);
    Associates(key, EscapeQuotes(value), end, suffix);
    EndLexes(end, suffix, key + "=" + value);
    ExportRuns(key, value, sh);
  }

  lemma Associates(key: string, escaped: string, end: string, suffix: string)
    ensures "export " + key + "='" + escaped + "'" + end + suffix == "export " + key + "='" + escaped + "'" + (end + suffix)
  {
  }

  lemma EndLexes(end: string, suffix: string, w: string)
    requires IsEnd(end)
    ensures Lex(Lexer(end + suffix, Plain, Some(w), ["export"]))
         == Some(Command(["export", w], end == SEMICOLON, Lead(end) + suffix))
  {
    var l := Lexer(end + suffix, Plain, Some(w), ["export"]);
    assert end + suffix == [end[0]] + (Lead(end) + suffix);
    LexEnds(l, Lead(end) + suffix);
    assert l.Flush() == ["export", w];
  }

  /** A command may be preceded by what a terminator left. */
  lemma LeadIsSkipped(end: string, text: string, sh: Shell)
    requires IsEnd(end)
    ensures Step(Lead(end) + text, sh) == Step(text, sh)
  {
    if end == NEWLINE {
      assert Lead(end) + text == text;
    } else {
      BlankReadsBack(Lexer(" " + text, Plain, None, []), text);
    }
  }

  function Apply(entries: seq<Entry>, env: map<string, string>): map<string, string> {
    if entries == [] then env else Apply(entries[1..], env[entries[0].0 := entries[0].1])
  }

  lemma {:induction false} ExportsStep(entries: seq<Entry>, end: string, suffix: string, sh: Shell)
    requires IsEnd(end)
    requires forall i :: 0 <= i < |entries| ==> IsName(entries[i].0) && NulFree(entries[i].1)
    ensures Steps(|entries|, Exports(entries, end) + suffix, sh)
         == Some(Progress((if entries == [] then "" else Lead(end)) + suffix, sh.(env := Apply(entries, sh.env))))
  {
    if entries == [] {
      assert "" + suffix == suffix;
    } else {
      var e, rest := entries[0], entries[1..];
      var text := Exports(rest, end) + suffix;
      var sh' := sh.(env := sh.env[e.0 := e.1]);
      assert Exports(entries, end) + suffix == Export(e.0, e.1, end) + text;
      ExportSteps(e.0, e.1, end, text, sh);
      ExportsStep(rest, end, suffix, sh');
      assert Steps(|entries|, Exports(entries, end) + suffix, sh) == Steps(|rest|, Lead(end) + text, sh');
      if rest == [] {
        assert text == suffix;
      } else {
        LeadIsSkipped(end, text, sh');
      }
    }
  }

  lemma {:induction false} ApplyMisses(entries: seq<Entry>, before: map<string, string>, k: string)
    requires forall i :: 0 <= i < |entries| ==> entries[i].0 != k
    ensures k in Apply(entries, before) <==> k in before
    ensures k in before ==> Apply(entries, before)[k] == before[k]
  {
    if entries != [] {
      ApplyMisses(entries[1..], before[entries[0].0 := entries[0].1], k);
    }
  }

  lemma {:induction false} ApplyHits(entries: seq<Entry>, before: map<string, string>, i: nat)
    requires forall i, j :: 0 <= i < j < |entries| ==> entries[i].0 != entries[j].0
    requires i < |entries|
    ensures var k := entries[i].0; k in Apply(entries, before) && Apply(entries, before)[k] == entries[i].1
  {
    var next := before[entries[0].0 := entries[0].1];
    if i == 0 {
      ApplyMisses(entries[1..], next, entries[0].0);
    } else {
      ApplyHits(entries[1..], next, i - 1);
    }
  }

  /** Applying the entries of env overrides what was there before, and keeps the rest. */
  lemma ApplyEnumerates(entries: seq<Entry>, env: map<string, string>, before: map<string, string>)
    requires Enumerates(entries, env)
    ensures Apply(entries, before) == before + env
  {
    var r := Apply(entries, before);
    forall k: string
      ensures k in r <==> k in before + env
      ensures k in r ==> r[k] == (before + env)[k]
    {
      if k in env {
        var i :| 0 <= i < |entries| && entries[i].0 == k;
        ApplyHits(entries, before, i);
      } else {
        ApplyMisses(entries, before, k);
      }
    }
  }

  // ----- only names are assigned, and never a NUL

  /** What a shell can hold in its environment. */
  ghost predicate Expressible(env: map<string, string>) {
    forall k :: k in env ==> IsName(k) && NulFree(env[k])
  }

  ghost predicate AllNulFree(words: seq<string>) {
    forall i :: 0 <= i < |words| ==> NulFree(words[i])
  }

  ghost predicate CleanLexer(l: Lexer) {
    AllNulFree(l.words) && (l.word.Some? ==> NulFree(l.word.value))
  }

  lemma AdvancePlainClean(l: Lexer)
    requires l.text != "" && CleanLexer(l)
    ensures AdvancePlain(l).More? ==> CleanLexer(AdvancePlain(l).lexer)
    ensures AdvancePlain(l).Done? ==> AllNulFree(AdvancePlain(l).cmd.words)
  {
  }

  lemma AdvanceClean(l: Lexer)
    requires CleanLexer(l)
    ensures Advance(l).More? ==> CleanLexer(Advance(l).lexer)
    ensures Advance(l).Done? ==> AllNulFree(Advance(l).cmd.words)
  {
    if l.text != "" && l.mode == Plain {
      AdvancePlainClean(l);
    }
  }

  lemma {:induction false} LexNulFree(l: Lexer)
    requires CleanLexer(l)
    ensures Lex(l).Some? ==> AllNulFree(Lex(l).value.words)
    decreases |l.text|
  {
    AdvanceClean(l);
    if Advance(l).More? {
      LexNulFree(Advance(l).lexer);
    }
  }

  lemma StepExpressible(text: string, sh: Shell)
    requires Expressible(sh.env)
    ensures Step(text, sh).Some? ==> Expressible(Step(text, sh).value.sh.env)
  {
    LexNulFree(Lexer(text, Plain, None, []));
  }

  lemma {:induction false} StepsExpressible(n: nat, text: string, sh: Shell)
    requires Expressible(sh.env)
    ensures Steps(n, text, sh).Some? ==> Expressible(Steps(n, text, sh).value.sh.env)
  {
    if n > 0 {
      StepExpressible(text, sh);
      if Step(text, sh).Some? {
        StepsExpressible(n - 1, Step(text, sh).value.rest, Step(text, sh).value.sh);
      }
    }
  }

  // ----- main results

  lemma NoEntriesIff(entries: seq<Entry>, env: map<string, string>)
    requires Enumerates(entries, env)
    ensures entries == [] <==> env == map[]
  {
    if entries != [] { assert entries[0].0 in env; }
    if env != map[] { var k :| k in env; }
  }

  /** In a shell with any exported variables, the printed prefix sets exactly the declared
      ones, overriding inherited values and keeping the other variables, and leaves exactly
      the suffix, in every iteration order: if and only if all keys are names and no value
      holds a NUL. */
  lemma EnvironmentRoundTrip(entries: seq<Entry>, env: map<string, string>, end: string, suffix: string, sh: Shell)
    requires Enumerates(entries, env) && IsEnd(end) && Expressible(sh.env)
    ensures Steps(|entries|, Exports(entries, end) + suffix, sh)
         == Some(Progress((if env == map[] then "" else Lead(end)) + suffix, sh.(env := sh.env + env)))
       <==> Expressible(env)
  {
    NoEntriesIff(entries, env);
    if Expressible(env) {
      ExportsStep(entries, end, suffix, sh);
      ApplyEnumerates(entries, env, sh.env);
    } else {
      StepsExpressible(|entries|, Exports(entries, end) + suffix, sh);
      SumExpressible(sh.env, env);
    }
  }

  /** The condition can fail: a key with a hyphen reaches the shell in no printed form. */
  lemma HyphenatedKeyLost(value: string, end: string, suffix: string, sh: Shell)
    requires IsEnd(end) && Expressible(sh.env)
    ensures Steps(1, Exports([("A-B", value)], end) + suffix, sh)
         != Some(Progress(Lead(end) + suffix, sh.(env := sh.env + map["A-B" := value])))
  {
    var env := map["A-B" := value];
    assert "A-B"[1] == '-' && "A-B" in env;
    EnvironmentRoundTrip([("A-B", value)], env, end, suffix, sh);
  }

  lemma SumExpressible(inherited: map<string, string>, env: map<string, string>)
    ensures Expressible(inherited + env) ==> Expressible(env)
  {
    assert forall k :: k in env ==> k in inherited + env && (inherited + env)[k] == env[k];
  }

  lemma ShebangStep(text: string, sh: Shell)
    ensures Step(SHEBANG + text, sh) == Some(Progress(text, sh))
  {
    assert SHEBANG + text == "#" + ("!/bin/bash" + ("\n" + text));
    SkipsLine("!/bin/bash", text);
    CommentLexes("!/bin/bash" + ("\n" + text));
  }

  lemma CommentLexes(t: string)
    ensures LexCommand("#" + t) == Some(Command([], false, AfterNewline(t)))
  {
    assert ("#" + t)[1..] == t;
  }

  lemma SetStep(text: string, sh: Shell)
    ensures Step(SET_E + text, sh) == Some(Progress(text, sh.(errexit := true)))
  {
    assert SET_E + text == "set" + (" " + ("-e" + ("\n" + text)));
    TwoWords("set", "-e", "\n" + text);
    LexEnds(Lexer("\n" + text, Plain, Some("-e"), ["set"]), text);
    assert ["set"] + ["-e"] == ["set", "-e"];
    assert LexCommand(SET_E + text) == Some(Command(["set", "-e"], false, text));
  }

  lemma {:induction false} SkipsLine(line: string, text: string)
    requires '\n' !in line
    ensures AfterNewline(line + ("\n" + text)) == text
  {
    if line == "" {
      assert line + ("\n" + text) == "\n" + text && ("\n" + text)[1..] == text;
    } else {
      assert (line + ("\n" + text))[1..] == line[1..] + ("\n" + text);
      SkipsLine(line[1..], text);
    }
  }

  /** Both ways of running a script give it the same environment, whatever the shell had
      exported before: the standard-input form leaves exactly the script, the command form
      exactly the path of the uploaded file. */
  lemma BuildersAgree(e1: seq<Entry>, e2: seq<Entry>, env: map<string, string>, script: string, sh: Shell)
    requires Enumerates(e1, env) && Enumerates(e2, env) && Expressible(env) && Expressible(sh.env)
    ensures Steps(2 + |e1|, SHEBANG + SET_E + Exports(e1, NEWLINE) + script, sh)
         == Some(Progress(script, Shell(sh.env + env, true)))
    ensures var r := Steps(|e2|, Exports(e2, SEMICOLON) + SCRIPT_PATH, sh);
            r.Some? && r.value.sh == sh.(env := sh.env + env)
            && LexCommand(r.value.rest) == Some(Command([SCRIPT_PATH], false, ""))
  {
    StdinSteps(e1, env, script, sh);
    EnvironmentRoundTrip(e2, env, SEMICOLON, SCRIPT_PATH, sh);
    PathLexes();
  }

  lemma StdinSteps(entries: seq<Entry>, env: map<string, string>, script: string, sh: Shell)
    requires Enumerates(entries, env) && Expressible(env) && Expressible(sh.env)
    ensures Steps(2 + |entries|, SHEBANG + SET_E + Exports(entries, NEWLINE) + script, sh)
         == Some(Progress(script, Shell(sh.env + env, true)))
  {
    var t := Exports(entries, NEWLINE) + script;
    assert SHEBANG + SET_E + Exports(entries, NEWLINE) + script == SHEBANG + (SET_E + t);
    ShebangStep(SET_E + t, sh);
    SetStep(t, sh);
    EnvironmentRoundTrip(entries, env, NEWLINE, script, sh.(errexit := true));
    assert "" + script == script;
    assert Steps(2 + |entries|, SHEBANG + (SET_E + t), sh) == Steps(1 + |entries|, SET_E + t, sh);
  }

  lemma WordLexes(s: string)
    requires s != "" && forall i :: 0 <= i < |s| ==> Tame(s[i])
    ensures LexCommand(s) == Some(Command([s], false, ""))
  {
    TameOrdinary(s);
    assert s == s + "" && "" + s == s;
    OrdinaryReadsBack(s, Lexer(s, Plain, None, []), "");
    LexEnds(Lexer("", Plain, Some(s), []), "");
    assert [] + [s] == [s];
  }

  lemma BlankLexes(s: string)
    ensures LexCommand(" " + s) == LexCommand(s)
  {
    BlankReadsBack(Lexer(" " + s, Plain, None, []), s);
  }

  lemma PathLexes()
    ensures LexCommand("" + SCRIPT_PATH) == Some(Command([SCRIPT_PATH], false, ""))
    ensures LexCommand(" " + SCRIPT_PATH) == Some(Command([SCRIPT_PATH], false, ""))
  {
    assert forall i :: 0 <= i < |SCRIPT_PATH| ==> Tame(SCRIPT_PATH[i]);
    WordLexes(SCRIPT_PATH);
    BlankLexes(SCRIPT_PATH);
    assert "" + SCRIPT_PATH == SCRIPT_PATH;
  }
}
