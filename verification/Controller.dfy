/** The controller's operations, updating the custom resource in place. */
module Controller {
  import opened Wrappers
  import opened Float32
  import opened Api
  import opened Decimal
  import opened Session
  import opened Shell
  import opened Reconcile

  class VM {
    const name: string
    var externalName: string
    var params: Params
    var status: Status
    var statusMessage: string
    var worker: string
    var ipAddress: string
    var generation: Option<Int32>
    var observedGeneration: Option<Int32>
    var cloudInitStatus: CloudInit
    var cloudInitMessage: string
    var ready: Option<Condition>

    function Value(): CR
      reads this
    {
      CR(name, externalName, params,
         Observation(status, statusMessage, worker, ipAddress, generation, observedGeneration,
                     cloudInitStatus, cloudInitMessage),
         ready)
    }

    constructor (name: string, externalName: string, params: Params)
      ensures Value() == CR(name, externalName, params, Observation(Blank, "", "", "", None, None, Unset, ""), None)
    {
      this.name, this.externalName, this.params := name, externalName, params;
      status, statusMessage, worker, ipAddress := Blank, "", "", "";
      generation, observedGeneration := None, None;
      cloudInitStatus, cloudInitMessage, ready := Unset, "", None;
    }

    /** The resource as it is stored. */
    constructor Load(cr: CR)
      ensures Value() == cr
    {
      name, externalName, params, ready := cr.name, cr.externalName, cr.params, cr.ready;
      status, statusMessage, worker := cr.obs.status, cr.obs.statusMessage, cr.obs.worker;
      ipAddress, generation := cr.obs.ipAddress, cr.obs.generation;
      observedGeneration := cr.obs.observedGeneration;
      cloudInitStatus, cloudInitMessage := cr.obs.cloudInitStatus, cr.obs.cloudInitMessage;
    }

    method SetCloudInitStatus(s: CloudInit, message: string)
      modifies this
      ensures Value() == SetCloudInit(old(Value()), s, message)
    {
      cloudInitStatus := s;
      cloudInitMessage := message;
    }

    method UpdateVMStatus(vm: Record, outOfRange: Int32)
      modifies this
      ensures Value() == UpdateStatus(old(Value()), vm, outOfRange)
    {
      status := StringValue(vm.status);
      if vm.statusMessage.Some? {
        statusMessage := vm.statusMessage.value;
      }
      if vm.worker.Some? {
        worker := vm.worker.value;
      }
      UpdateGenerations(vm.generation, vm.observedGeneration, outOfRange);
      SetPhaseCondition(status);
    }

    method UpdateGenerations(g: Option<real>, observed: Option<real>, outOfRange: Int32)
      modifies `generation, `observedGeneration
      ensures generation == ToInt(g, outOfRange, old(generation))
      ensures observedGeneration == ToInt(observed, outOfRange, old(observedGeneration))
    {
      if g.Some? {
        generation := Some(ToInt32(g.value, outOfRange));
      }
      if observed.Some? {
        observedGeneration := Some(ToInt32(observed.value, outOfRange));
      }
    }

    method SetPhaseCondition(s: Status)
      modifies `ready
      ensures ready == PhaseCondition(PhaseOf(s), old(ready))
    {
      match s
      case StatusRunning => ready := Some(Creating);
      case StatusCreating => ready := Some(Creating);
      case StatusStarting => ready := Some(Creating);
      case StatusPending => ready := Some(Creating);
      case StatusStopping => ready := Some(Deleting);
      case StatusDeleting => ready := Some(Deleting);
      case StatusFailed => ready := Some(Unavailable(""));
      case StatusError => ready := Some(Unavailable(""));
      case _ =>
    }
  }

  function EnvOf(script: Script): map<string, string> {
    if script.env.Some? then script.env.value else map[]
  }

  /** What SSH answered, put beside the other answers. */
  function WithSSH(a: Answers, ready: bool, run: Outcome): Answers {
    a.(sshReady := ready, run := run)
  }

  function ScriptOf(p: Params): Script {
    if p.startupScript.Some? then p.startupScript.value else Script("", None)
  }

  /** What an operation may add to the commands run on the VM: nothing, the readiness
      probe, or the probe and one run of the uploaded script with its outcome.  The script
      was handed over, which is what `ran` says, exactly if the probe exited with 0. */
  ghost predicate Added(before: seq<Ran>, after: seq<Ran>, script: Script, live: map<nat, Kind>, ran: bool, outcome: Outcome) {
    var n := |before|;
    if after == before then !ran
    else
      && n < |after| <= n + 2 && before <= after && after[n].command == "ls -al"
      && (ran <==> after[n].outcome.Exited? && after[n].outcome.code == 0)
      && (|after| == n + 2 ==>
            ran && after[n + 1].outcome == outcome && RanUploaded(after[n + 1], script.content, EnvOf(script), live))
  }

  /** What ran carries the resource's own script and environment: the script lies complete
      and executable at its path, and a shell that reads the command, with any exported
      variables, ends with the declared ones beside or over them and the path as its one
      remaining command.  Without declared variables the command is that path alone. */
  lemma EnvironmentReaches(before: seq<Ran>, after: seq<Ran>, p: Params, live: map<nat, Kind>, ran: bool, outcome: Outcome,
                           content: string, env: Option<map<string, string>>, sh: Shell)
    requires Added(before, after, ScriptOf(p), live, ran, outcome) && |after| == |before| + 2
    requires p.startupScript == Some(Script(content, env)) && Expressible(sh.env)
    ensures var files := after[|before| + 1].files;
            "/tmp/cloudinit-script.sh" in files && files["/tmp/cloudinit-script.sh"] == File(content, 493)
    ensures env.Some? ==> (Expressible(env.value) <==> Delivers(after[|before| + 1].command, env.value, sh))
    ensures env.None? ==> after[|before| + 1].command == "/tmp/cloudinit-script.sh"
  {
    var r := after[|before| + 1];
    if env.Some? {
      RunSeesEnvironment(r, content, env.value, live, sh);
    } else {
      var none: map<string, string> := map[];
      var entries: seq<Entry> :| Enumerates(entries, none) && r.command == Exports(entries, SEMICOLON) + SCRIPT_PATH;
      NoEntriesIff(entries, none);
      assert "" + SCRIPT_PATH == SCRIPT_PATH;
    }
  }

  /** What has run if the outside refused nothing: the probe, and the script behind a probe
      that exited with 0. */
  predicate Answered(before: seq<Ran>, after: seq<Ran>) {
    && |before| < |after|
    && (after[|before|].outcome.Exited? && after[|before|].outcome.code == 0 ==> |after| == |before| + 2)
  }

  /** One connected client.  The HTTP side of `http` is what the API will answer; the SSH
      side is decided by the host, and each operation reports the answers it met. */
  class External {
    const http: Answers
    const host: Host

    constructor (http: Answers, host: Host)
      ensures this.http == http && this.host == host
    {
      this.http, this.host := http, host;
    }

    /** Probes SSH, then uploads and runs the script.  Nothing stays open, and a recorded
        exit code is that of the uploaded script. */
    method ExecuteCloudInit(cr: VM) returns (err: Option<string>, ran: bool, ghost a: Answers)
      requires Due(cr.Value()) && host.Valid()
      modifies cr, host
      ensures host.Valid() && host.live == old(host.live)
      ensures a == WithSSH(http, a.sshReady, a.run)
      ensures cr.Value() == HandleCloudInit(old(cr.Value()), a)
      ensures ran == a.sshReady
      ensures err == if a.sshReady then None else Some(ERR_SSH)
      ensures Added(old(host.runs), host.runs, ScriptOf(cr.params), host.live, ran, a.run)
      ensures ran && a.run.Exited? ==> |host.runs| == |old(host.runs)| + 2
      ensures host.refusals == old(host.refusals) ==> Answered(old(host.runs), host.runs)
    {
      cr.SetCloudInitStatus(Running, "");
      var ready := IsSSHReady(host);
      if !ready {
        cr.SetCloudInitStatus(Pending, WAITING);
        return Some(ERR_SSH), false, WithSSH(http, false, http.run);
      }
      var script := cr.params.startupScript.value;
      var result := UploadAndRunScript(host, script.content, EnvOf(script));
      ran, err, a := true, None, WithSSH(http, true, result);
      RecordOutcome(cr, result);
    }

    method RecordOutcome(cr: VM, result: Outcome)
      modifies cr
      ensures cr.Value() == Executed(old(cr.Value()), result)
    {
      match result
      case Error(m) =>
        var message := "cloud-init failed: " + m;
        cr.SetCloudInitStatus(Failed, message);
        cr.ready := Some(Unavailable(TruncateMessage(message)));
      case Exited(code, stderr) =>
        if code != 0 {
          var message := "exit code " + Itoa(code) + ": " + stderr;
          cr.SetCloudInitStatus(Failed, message);
          cr.ready := Some(Unavailable(TruncateMessage(message)));
        } else {
          cr.SetCloudInitStatus(Completed, "");
          cr.ready := Some(Available);
        }
    }

    method HandleCloudInitFor(cr: VM) returns (err: Option<string>, ran: bool, ghost a: Answers)
      requires host.Valid()
      modifies cr, host
      ensures host.Valid() && host.live == old(host.live)
      ensures a == WithSSH(http, a.sshReady, a.run)
      ensures cr.Value() == HandleCloudInit(old(cr.Value()), a)
      ensures ran == (Due(old(cr.Value())) && a.sshReady)
      ensures !Due(old(cr.Value())) ==> host.runs == old(host.runs)
      ensures err == if Due(old(cr.Value())) && !a.sshReady then Some(ERR_SSH) else None
      ensures Added(old(host.runs), host.runs, ScriptOf(cr.params), host.live, ran, a.run)
      ensures ran && a.run.Exited? ==> |host.runs| == |old(host.runs)| + 2
      ensures Due(old(cr.Value())) && host.refusals == old(host.refusals) ==> Answered(old(host.runs), host.runs)
    {
      err, ran, a := None, false, http;
      if cr.params.startupScript.None? || cr.params.startupScript.value.content == "" {
        cr.ready := Some(Available);
        return;
      }
      match cr.cloudInitStatus
      case Completed => cr.ready := Some(Available);
      case Failed => cr.ready := Some(Unavailable(TruncateMessage(cr.cloudInitMessage)));
      case Running => cr.ready := Some(Creating);
      case _ => err, ran, a := ExecuteCloudInit(cr);
    }

    /** Every Observe is the one specified, for the SSH answers met on the way. */
    method ObserveVM(cr: VM)
      returns (found: bool, upToDate: bool, err: Option<string>, ran: bool, ghost a: Answers)
      requires host.Valid()
      modifies cr, host
      ensures host.Valid() && host.live == old(host.live)
      ensures a == WithSSH(http, a.sshReady, a.run)
      ensures Observed(cr.Value(), found, upToDate, err, ran) == Observe(old(cr.Value()), a)
      ensures !TouchesSSH(old(cr.Value()), a) ==> host.runs == old(host.runs)
      ensures Added(old(host.runs), host.runs, ScriptOf(cr.params), host.live, ran, a.run)
      ensures ran && a.run.Exited? ==> |host.runs| == |old(host.runs)| + 2
      ensures TouchesSSH(old(cr.Value()), a) && host.refusals == old(host.refusals) ==> Answered(old(host.runs), host.runs)
    {
      a := http;
      if cr.externalName == "" {
        return false, false, None, false, a;
      }
      match http.get
      case NetError => return false, false, Some("cannot get VM"), false, a;
      case Reply(code, body) =>
        if code == NOT_FOUND {
          return false, false, None, false, a;
        } else if code != OK {
          return false, false, Some("unexpected status code: " + Itoa(code)), false, a;
        }
        if body.None? {
          return false, false, Some("cannot decode VM response"), false, a;
        }
        found, upToDate, err, ran, a := HandleRecord(cr, body.value);
    }

    method HandleRecord(cr: VM, vm: Record)
      returns (found: bool, upToDate: bool, err: Option<string>, ran: bool, ghost a: Answers)
      requires host.Valid()
      modifies cr, host
      ensures host.Valid() && host.live == old(host.live)
      ensures a == WithSSH(http, a.sshReady, a.run)
      ensures Observed(cr.Value(), found, upToDate, err, ran) == ObserveRecord(old(cr.Value()), vm, a)
      ensures !(Reachable(Refreshed(old(cr.Value()), vm, a)) && Due(old(cr.Value()))) ==> host.runs == old(host.runs)
      ensures Added(old(host.runs), host.runs, ScriptOf(cr.params), host.live, ran, a.run)
      ensures ran && a.run.Exited? ==> |host.runs| == |old(host.runs)| + 2
      ensures Reachable(Refreshed(old(cr.Value()), vm, a)) && Due(old(cr.Value())) && host.refusals == old(host.refusals) ==> Answered(old(host.runs), host.runs)
    {
      cr.UpdateVMStatus(vm, http.outOfRange);
      ran, a := false, http;
      if StringValue(vm.status) == StatusRunning {
        if http.ip.Some? {
          cr.ipAddress := http.ip.value;
        }
        assert cr.Value() == Refreshed(old(cr.Value()), vm, http);
        if cr.ipAddress != "" {
          var failed;
          failed, ran, a := HandleCloudInitFor(cr);
          assert Refreshed(old(cr.Value()), vm, a) == Refreshed(old(cr.Value()), vm, http);
          if failed.Some? {
            return true, true, Some(ERR_EXECUTE + ": " + failed.value), ran, a;
          }
        } else {
          cr.ready := Some(Creating);
        }
      }
      return true, IsUpToDate(cr.params, vm.spec), None, ran, a;
    }

    /** Optional fields one by one, and the host directories in a loop. */
    method BuildVMSpec(p: Params) returns (spec: Spec)
      ensures spec == BuildSpec(p)
    {
      var cpu := FloatField(p.cpu);
      var memory := FloatField(p.memory);
      var diskSize := FloatField(p.diskSize);
      var allow := ListField(p.netSoftnetAllow);
      var block := ListField(p.netSoftnetBlock);
      var hostDirs := HostDirField(p.hostDirs);
      var labels := MapField(p.labels);
      var resources := MapField(p.resources);
      spec := Spec(Some(p.image), cpu, memory, diskSize, p.username, p.password, p.headless, p.netBridged,
                   p.netSoftnet, allow, block, hostDirs, labels, resources, p.nested, p.suspendable,
                   p.imagePullPolicy, p.restartPolicy);
    }

    method FloatField(n: Option<Int32>) returns (f: Option<real>)
      ensures f == ToFloat(n)
    {
      f := None;
      if n.Some? {
        f := Some(FromInt(n.value) as real);
      }
    }

    /** An empty list or map is not sent. */
    method ListField(s: Option<seq<string>>) returns (f: Option<seq<string>>)
      ensures f == NonEmpty(s)
    {
      f := None;
      if s.Some? && |s.value| > 0 {
        f := s;
      }
    }

    method MapField<V>(m: Option<map<string, V>>) returns (f: Option<map<string, V>>)
      ensures f == NonEmptyMap(m)
    {
      f := None;
      if m.Some? && |m.value| > 0 {
        f := m;
      }
    }

    method HostDirField(dirs: Option<seq<HostDir>>) returns (f: Option<seq<ApiHostDir>>)
      ensures f == if dirs.Some? && dirs.value != [] then Some(ToApiDirs(dirs.value)) else None
    {
      f := None;
      if dirs.Some? && |dirs.value| > 0 {
        var r := BuildHostDirs(dirs.value);
        f := Some(r);
      }
    }

    method BuildHostDirs(dirs: seq<HostDir>) returns (r: seq<ApiHostDir>)
      ensures r == ToApiDirs(dirs)
    {
      var a := new ApiHostDir[|dirs|](i => ApiHostDir(None, None, None));
      for i := 0 to |dirs|
        invariant forall j :: 0 <= j < i ==> a[j] == ToApiDir(dirs[j])
      {
        a[i] := ApiHostDir(Some(dirs[i].name), Some(dirs[i].path), dirs[i].ro);
      }
      r := a[..];
    }

    /** Sends a POST under the resource's own name; any of the three good codes will do.
        `code` is the reply, None a network error. */
    method Create(cr: VM, code: Option<int>) returns (body: (string, Spec), err: Option<string>)
      modifies cr
      ensures cr.Value() == old(cr.Value()).(externalName := cr.name)
      ensures body == (cr.name, BuildSpec(cr.params))
      ensures err.None? <==> code.Some? && code.value in {200, 201, 409}
    {
      cr.externalName := cr.name;
      var spec := BuildVMSpec(cr.params);
      body := (cr.name, spec);
      if code.None? {
        return body, Some("cannot create VM");
      }
      if code.value != OK && code.value != CREATED && code.value != CONFLICT {
        return body, Some("unexpected status code creating VM: " + Itoa(code.value));
      }
      err := None;
    }

    /** Sends a PUT under the external name; without one nothing is sent. */
    method Update(cr: VM, code: Option<int>) returns (body: Option<(string, Spec)>, err: Option<string>)
      ensures body == if cr.externalName == "" then None else Some((cr.externalName, BuildSpec(cr.params)))
      ensures err.None? <==> cr.externalName != "" && code.Some? && code.value in {200, 204}
    {
      if cr.externalName == "" {
        return None, Some("external name not set");
      }
      var spec := BuildVMSpec(cr.params);
      body := Some((cr.externalName, spec));
      if code.None? {
        return body, Some("cannot update VM");
      }
      if code.value != OK && code.value != NO_CONTENT {
        return body, Some("unexpected status code updating VM: " + Itoa(code.value));
      }
      err := None;
    }

    /** Sends a DELETE under the external name; nothing to delete, or nothing left, is fine. */
    method Delete(cr: VM, code: Option<int>) returns (sent: Option<string>, err: Option<string>)
      ensures sent == if cr.externalName == "" then None else Some(cr.externalName)
      ensures err.None? <==> cr.externalName == "" || (code.Some? && code.value in {200, 204, 404})
    {
      if cr.externalName == "" {
        return None, None;
      }
      sent := Some(cr.externalName);
      if code.None? {
        return sent, Some("cannot delete VM");
      }
      if code.value != OK && code.value != NO_CONTENT && code.value != NOT_FOUND {
        return sent, Some("unexpected status code deleting VM: " + Itoa(code.value));
      }
      err := None;
    }
  }
}
