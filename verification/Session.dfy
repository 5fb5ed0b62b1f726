/** SSH sessions to a VM: which connections a call opens and closes, and in which state the
    VM is when a command runs.  What the network answers is left open. */
module Session {
  import opened Wrappers
  import opened Shell

  datatype Kind = WebSocket | SshClient | SftpClient | Channel | RemoteFile

  datatype File = File(content: string, mode: nat)

  /** Result of a command: an exit code with the error output, or a Go error. */
  datatype Outcome = Exited(code: int, stderr: string) | Error(message: string)

  /** One command that ran: its text and input, the files and the open resources at that
      moment, and how it ended. */
  datatype Ran = Ran(command: string, stdin: string, files: map<string, File>, live: map<nat, Kind>, outcome: Outcome)

  /** The path in front of the last slash: filepath.Dir of a clean path below the root. */
  function Directory(path: string): string {
    if path == "" || path[|path| - 1] == '/' then path[..if path == "" then 0 else |path| - 1]
    else Directory(path[..|path| - 1])
  }

  lemma {:induction false} DirectoryOf(d: string, name: string)
    requires '/' !in name
    ensures Directory(d + "/" + name) == d
  {
    if name == "" {
      assert d + "/" + name == d + "/";
    } else {
      var n := |name| - 1;
      assert (d + "/" + name)[..|d| + 1 + n] == d + "/" + name[..n];
      DirectoryOf(d, name[..n]);
    }
  }

  lemma ScriptDirectory()
    ensures Directory(SCRIPT_PATH) == "/tmp"
  {
    assert SCRIPT_PATH == "/tmp" + "/" + "cloudinit-script.sh";
    DirectoryOf("/tmp", "cloudinit-script.sh");
  }

  const SHELL := "/bin/bash"
  const PROBE := "ls -al"

  /** The outside: open resources by number (until they are asked to close, which may fail),
      the VM's files and the directories made, the commands that ran, the requests to close, and how often it refused
      something asked of it (a connection, a channel, a file operation). */
  class Host {
    var next: nat
    var live: map<nat, Kind>
    var files: map<string, File>
    var dirs: set<string>
    var runs: seq<Ran>
    var closing: seq<nat>  // the requests to close, in order
    ghost var refusals: nat

    ghost predicate Valid()
      reads this
    {
      forall id :: id in live ==> id < next
    }

    method Acquire(kind: Kind) returns (id: nat)
      requires Valid()
      modifies `next, `live
      ensures Valid() && id == old(next) && next == id + 1 && live == old(live)[id := kind]
    {
      id := next;
      live, next := live[id := kind], next + 1;
    }

    /** The outside's decision on a request. */
    method Ask() returns (ok: bool)
      modifies `refusals
      ensures refusals == old(refusals) + (if ok then 0 else 1)
    {
      ok := *;
      if !ok {
        refusals := refusals + 1;
      }
    }

    /** Asks for a close; whether it fails or not, the resource was asked. */
    method Release(id: nat) returns (failed: bool)
      requires Valid()
      modifies `live, `closing
      ensures Valid() && live == old(live) - {id} && closing == old(closing) + [id]
    {
      live, closing := live - {id}, closing + [id];
      failed := *;
    }
  }

  class VMSession {
    const host: Host
    const wsConn: nat
    const sshClient: nat
    var sftpClient: Option<nat>

    constructor (host: Host, wsConn: nat, sshClient: nat)
      ensures this.host == host && this.wsConn == wsConn && this.sshClient == sshClient && sftpClient == None
    {
      this.host, this.wsConn, this.sshClient, sftpClient := host, wsConn, sshClient, None;
    }

    /** What the session itself holds open. */
    function Owned(): set<nat>
      reads this
    {
      {wsConn, sshClient} + (if sftpClient.Some? then {sftpClient.value} else {})
    }

    method ExecuteCommand(command: string, stdin: string) returns (result: Outcome)
      requires host.Valid()
      modifies host`next, host`live, host`closing, host`runs, host`refusals
      ensures host.Valid() && host.live == old(host.live) && host.next >= old(host.next)
      ensures host.runs == old(host.runs)
           || host.runs == old(host.runs)
                           + [Ran(command, stdin, host.files, old(host.live)[old(host.next) := Channel], result)]
      ensures result.Exited? ==> host.runs != old(host.runs)
      ensures host.refusals >= old(host.refusals)
      ensures host.refusals == old(host.refusals) <==> host.runs != old(host.runs)
    {
      var created := host.Ask();
      if !created {
        return Error("failed to create SSH session");
      }
      var channel := host.Acquire(Channel);
      var exited: bool, code: int, stderr: string := *, *, *;
      result := if exited then Exited(code, stderr) else Error("command execution failed");
      host.runs := host.runs + [Ran(command, stdin, host.files, host.live, result)];
      var _ := host.Release(channel);
    }

    /** Sends the script, with its environment, to a shell's standard input. */
    method ExecuteScript(script: string, env: map<string, string>) returns (result: Outcome, ghost entries: seq<Entry>)
      requires host.Valid()
      modifies host`next, host`live, host`closing, host`runs, host`refusals
      ensures host.Valid() && host.live == old(host.live)
      ensures host.refusals >= old(host.refusals)
      ensures host.refusals == old(host.refusals) <==> host.runs != old(host.runs)
      ensures Enumerates(entries, env)
      ensures host.runs == old(host.runs)
           || (|host.runs| == |old(host.runs)| + 1 && old(host.runs) <= host.runs
               && host.runs[|old(host.runs)|].command == "/bin/bash"
               && host.runs[|old(host.runs)|].stdin == SHEBANG + SET_E + Exports(entries, NEWLINE) + script
               && host.runs[|old(host.runs)|].outcome == result)
      ensures result.Exited? ==> host.runs != old(host.runs)
    {
      var stdin;
      stdin, entries := BuildStdin(script, env);
      result := ExecuteCommand(SHELL, stdin);
    }

    /** Opens the session's SFTP client unless it has one: at most one per session. */
    method EnsureSFTP() returns (ok: bool)
      requires host.Valid()
      modifies `sftpClient, host`next, host`live, host`refusals
      ensures host.Valid() && host.next >= old(host.next) && host.refusals >= old(host.refusals)
      ensures ok <==> host.refusals == old(host.refusals)
      ensures ok ==> sftpClient.Some?
      ensures sftpClient == old(sftpClient) ==> host.live == old(host.live)
      ensures sftpClient != old(sftpClient) ==> old(sftpClient) == None && sftpClient == Some(old(host.next))
      ensures sftpClient != old(sftpClient) ==> host.live == old(host.live)[old(host.next) := SftpClient]
    {
      if sftpClient.Some? {
        return true;
      }
      ok := host.Ask();
      if ok {
        var client := host.Acquire(SftpClient);
        sftpClient := Some(client);
      }
    }

    /** Creates the file, copies the content, sets the permissions.  A failing copy leaves
        any content behind; the file is closed in any case. */
    method PutFile(content: string, path: string, permissions: nat) returns (ok: bool)
      requires host.Valid()
      modifies host`next, host`live, host`closing, host`files, host`refusals
      ensures host.Valid() && host.live == old(host.live) && host.next >= old(host.next)
      ensures host.refusals >= old(host.refusals) && (ok <==> host.refusals == old(host.refusals))
      ensures ok ==> path in host.files && host.files[path].content == content
                     && (permissions != 0 ==> host.files[path].mode == permissions)
      ensures forall p :: p != path ==> (p in host.files <==> p in old(host.files))
      ensures forall p :: p != path && p in host.files ==> host.files[p] == old(host.files)[p]
    {
      ok := host.Ask();
      if !ok {
        return;
      }
      var f := host.Acquire(RemoteFile);
      var written: string, mode: nat := *, *;
      ok := host.Ask();
      host.files := host.files[path := File(if ok then content else written, mode)];
      if ok && permissions != 0 {
        ok := host.Ask();
        if ok {
          host.files := host.files[path := host.files[path].(mode := permissions)];
        }
      }
      var _ := host.Release(f);
    }

    /** Makes the file's directory if asked to, and puts the file. */
    method UploadFile(content: string, path: string, permissions: nat, createDirs: bool) returns (ok: bool)
      requires host.Valid()
      modifies `sftpClient, host`next, host`live, host`closing, host`files, host`dirs, host`refusals
      ensures host.Valid() && host.next >= old(host.next)
      ensures host.refusals >= old(host.refusals) && (ok <==> host.refusals == old(host.refusals))
      ensures sftpClient == old(sftpClient) ==> host.live == old(host.live)
      ensures sftpClient != old(sftpClient) ==> old(sftpClient) == None && sftpClient == Some(old(host.next))
      ensures sftpClient != old(sftpClient) ==> host.live == old(host.live)[old(host.next) := SftpClient]
      ensures ok ==> path in host.files && host.files[path].content == content
                     && (permissions != 0 ==> host.files[path].mode == permissions)
      ensures old(host.dirs) <= host.dirs && (ok && createDirs ==> Directory(path) in host.dirs)
      ensures forall p :: p != path ==> (p in host.files <==> p in old(host.files))
      ensures forall p :: p != path && p in host.files ==> host.files[p] == old(host.files)[p]
    {
      ok := EnsureSFTP();
      if !ok {
        return;
      }
      if createDirs {
        ok := host.Ask();
        if !ok {
          return;
        }
        host.dirs := host.dirs + {Directory(path)};
      }
      ok := PutFile(content, path, permissions);
    }

    /** Asks everything the session holds to close, innermost first, whatever fails on the
        way; reports success only if nothing failed. */
    method CloseSession() returns (ok: bool, ghost failed: seq<bool>)
      requires host.Valid()
      modifies host`live, host`closing
      ensures host.Valid() && host.live == old(host.live) - Owned()
      ensures host.closing == old(host.closing)
                + (if sftpClient.Some? then [sftpClient.value] else []) + [sshClient, wsConn]
      ensures |failed| == 2 + (if sftpClient.Some? then 1 else 0) && (ok <==> true !in failed)
    {
      var errors := 0;
      failed := [];
      if sftpClient.Some? {
        var failure := host.Release(sftpClient.value);
        errors, failed := if failure then errors + 1 else errors, failed + [failure];
      }
      var failure := host.Release(sshClient);
      errors, failed := if failure then errors + 1 else errors, failed + [failure];
      failure := host.Release(wsConn);
      errors, failed := if failure then errors + 1 else errors, failed + [failure];
      ok := errors == 0;
    }
  }

  method NewVMSession(host: Host) returns (s: VMSession?)
    requires host.Valid()
    modifies host`next, host`live, host`closing, host`refusals
    ensures host.Valid() && host.next >= old(host.next)
    ensures host.refusals >= old(host.refusals) && (s != null <==> host.refusals == old(host.refusals))
    ensures s == null ==> host.live == old(host.live)
    ensures s != null ==> fresh(s) && s.host == host && s.sftpClient == None
    ensures s != null ==> s.wsConn == old(host.next) && s.sshClient == s.wsConn + 1
    ensures s != null ==> host.live == old(host.live)[s.wsConn := WebSocket][s.sshClient := SshClient]
  {
    var dialed := host.Ask();
    if !dialed {
      return null;
    }
    var ws := host.Acquire(WebSocket);
    var connected := host.Ask();
    if !connected {
      var _ := host.Release(ws);
      return null;
    }
    var client := host.Acquire(SshClient);
    s := new VMSession(host, ws, client);
  }

  predicate Succeeded(o: Outcome) {
    o.Exited? && o.code == 0
  }

  /** The readiness probe leaves nothing open, and runs at most its own command: exactly if
      nothing is refused.  Ready means that this exited with 0. */
  method IsSSHReady(host: Host) returns (ready: bool)
    requires host.Valid()
    modifies host`next, host`live, host`closing, host`runs, host`refusals
    ensures host.Valid() && host.live == old(host.live) && host.next >= old(host.next)
    ensures host.runs == old(host.runs)
         || (|host.runs| == |old(host.runs)| + 1 && old(host.runs) <= host.runs
             && host.runs[|old(host.runs)|].command == "ls -al")
    ensures host.refusals >= old(host.refusals)
    ensures host.refusals == old(host.refusals) <==> host.runs != old(host.runs)
    ensures ready <==> host.runs != old(host.runs)
                       && host.runs[|host.runs| - 1].outcome.Exited? && host.runs[|host.runs| - 1].outcome.code == 0
  {
    var session := NewVMSession(host);
    if session == null {
      return false;
    }
    var result := session.ExecuteCommand(PROBE, "");
    var _, _ := session.CloseSession();
    ready := result.Exited? && result.code == 0;
  }

  /** Standard input that sets the environment and goes on with the script. */
  ghost predicate FeedsScript(stdin: string, script: string, env: map<string, string>) {
    exists entries :: Enumerates(entries, env) && stdin == SHEBANG + SET_E + Exports(entries, NEWLINE) + script
  }

  /** A shell that reads it comes to hold `env` beside or over what it exported before,
      stops on errors from then on, and has exactly the script before it. */
  lemma FedShellSees(stdin: string, script: string, env: map<string, string>, sh: Shell)
    requires FeedsScript(stdin, script, env) && Expressible(env) && Expressible(sh.env)
    ensures exists n: nat :: Steps(n, stdin, sh) == Some(Progress(script, Shell(sh.env + env, true)))
    ensures "#!/bin/bash\n" <= stdin
  {
    var entries :| Enumerates(entries, env) && stdin == SHEBANG + SET_E + Exports(entries, NEWLINE) + script;
    StdinSteps(entries, env, script, sh);
    BeginsWith(SHEBANG, SET_E, Exports(entries, NEWLINE), script);
  }

  lemma BeginsWith(a: string, b: string, c: string, d: string)
    ensures a <= a + b + c + d
  {
  }

  /** The one command that runs is a shell fed with the environment and the script. */
  method RunCloudInit(host: Host, script: string, env: map<string, string>) returns (result: Outcome)
    requires host.Valid()
    modifies host`next, host`live, host`closing, host`runs, host`refusals
    ensures host.Valid() && host.live == old(host.live)
    ensures host.refusals == old(host.refusals) <==> host.runs != old(host.runs)
    ensures host.runs == old(host.runs)
         || (|host.runs| == |old(host.runs)| + 1 && old(host.runs) <= host.runs
             && host.runs[|old(host.runs)|].command == "/bin/bash"
             && FeedsScript(host.runs[|old(host.runs)|].stdin, script, env)
             && host.runs[|old(host.runs)|].outcome == result)
    ensures result.Exited? ==> host.runs != old(host.runs)
  {
    var session := NewVMSession(host);
    if session == null {
      return Error("failed to connect");
    }
    ghost var entries;
    result, entries := session.ExecuteScript(script, env);
    var _, _ := session.CloseSession();
  }

  const MODE: nat := 493  // 0755

  /** The command that sets the environment and runs the uploaded script. */
  ghost predicate RunsScript(command: string, env: map<string, string>) {
    exists entries :: Enumerates(entries, env) && command == Exports(entries, SEMICOLON) + SCRIPT_PATH
  }

  /** When the command ran, the script lay at its path complete and executable, and no file
      was open that had not been open before. */
  ghost predicate RanUploaded(r: Ran, script: string, env: map<string, string>, before: map<nat, Kind>) {
    && RunsScript(r.command, env)
    && "/tmp/cloudinit-script.sh" in r.files && r.files["/tmp/cloudinit-script.sh"] == File(script, 493)
    && forall id :: id in r.live && r.live[id] == RemoteFile ==> id in before
  }

  /** A shell that reads the command comes to hold `env` beside or over what it exported
      before, and is left with the path of the uploaded file as its one remaining command. */
  ghost predicate Delivers(command: string, env: map<string, string>, sh: Shell) {
    exists n: nat, rest: string :: Steps(n, command, sh) == Some(Progress(rest, sh.(env := sh.env + env)))
                                   && LexCommand(rest) == Some(Command(["/tmp/cloudinit-script.sh"], false, ""))
  }

  /** Such a command, read by a shell with any exported variables, sets exactly the
      script's environment beside or over them, and is left with the path of the uploaded
      file as its one remaining command: if and only if a shell can hold that environment
      at all. */
  lemma RunSeesEnvironment(r: Ran, script: string, env: map<string, string>, before: map<nat, Kind>, sh: Shell)
    requires RanUploaded(r, script, env, before) && Expressible(sh.env)
    ensures Expressible(env) <==> Delivers(r.command, env, sh)
  {
    var entries :| Enumerates(entries, env) && r.command == Exports(entries, SEMICOLON) + SCRIPT_PATH;
    if Expressible(env) {
      BuildersAgree(entries, entries, env, script, sh);
      var p := Steps(|entries|, r.command, sh).value;
      assert Steps(|entries|, r.command, sh) == Some(Progress(p.rest, sh.(env := sh.env + env)));
    }
    forall n: nat, rest: string | Steps(n, r.command, sh) == Some(Progress(rest, sh.(env := sh.env + env)))
      ensures Expressible(env)
    {
      StepsExpressible(n, r.command, sh);
      SumExpressible(sh.env, env);
    }
  }

  /** On every path all connections opened here are asked to close.  At most one command
      runs, only after the upload is complete: exactly if nothing is refused; an exit code
      means that it did run. */
  method UploadAndRunScript(host: Host, script: string, env: map<string, string>) returns (result: Outcome)
    requires host.Valid()
    modifies host
    ensures host.Valid() && host.live == old(host.live)
    ensures host.runs == old(host.runs)
         || (|host.runs| == |old(host.runs)| + 1 && old(host.runs) <= host.runs
             && RanUploaded(host.runs[|old(host.runs)|], script, env, old(host.live))
             && host.runs[|old(host.runs)|].outcome == result)
    ensures result.Exited? ==> host.runs != old(host.runs)
    ensures host.refusals >= old(host.refusals)
    ensures host.refusals == old(host.refusals) <==> host.runs != old(host.runs)
    ensures host.runs != old(host.runs) ==> "/tmp" in host.dirs
  {
    ScriptDirectory();
    var session := NewVMSession(host);
    if session == null {
      return Error("failed to connect");
    }
    var uploaded := session.UploadFile(script, SCRIPT_PATH, MODE, true);
    assert host.live - session.Owned() == old(host.live);
    if uploaded {
      var command, entries := BuildCommand(env);
      assert RunsScript(command, env);
      result := session.ExecuteCommand(command, "");
    } else {
      result := Error("failed to upload script");
    }
    var _, _ := session.CloseSession();
  }

  /** The commands other than the readiness probe. */
  function Scripts(runs: seq<Ran>): nat {
    if runs == [] then 0
    else Scripts(runs[..|runs| - 1]) + (if runs[|runs| - 1].command == PROBE then 0 else 1)
  }

  lemma ScriptsAppend(runs: seq<Ran>, r: Ran)
    ensures Scripts(runs + [r]) == Scripts(runs) + (if r.command == PROBE then 0 else 1)
  {
    assert (runs + [r])[..|runs|] == runs;
  }
}
