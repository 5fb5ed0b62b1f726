/** What one Observe guarantees, and what holds over every run of the controller, whatever
    the outside answers and whichever writes get lost. */
module Runs {
  import opened Wrappers
  import opened Float32
  import opened Api
  import opened Session
  import opened Reconcile
  import opened Decimal
  import Url

  // ----- one Observe

  /** Available is reported exactly for a running VM with a known address whose script is
      absent or completed, but for two cases that leave an earlier Available in place: a
      status outside the handled ones, and a reply without a record of the VM (a 404, any
      other code, an error, a body that does not decode). */
  lemma ReadyIff(cr: CR, a: Answers)
    ensures var r := Observe(cr, a);
            r.cr.ready == Some(Available) <==>
              if cr.externalName != "" && a.get.Reply? && a.get.code == 200 && a.get.body.Some? then
                var status := a.get.body.value.status;
                || (status == Some(StatusRunning) && r.cr.obs.ipAddress != ""
                    && (|| cr.params.startupScript.None? || cr.params.startupScript.value.content == ""
                        || r.cr.obs.cloudInitStatus == Completed))
                || ((status.None? || status.value.Blank? || status.value.StatusOther?) && cr.ready == Some(Available))
              else cr.ready == Some(Available)
  {
  }

  // ----- one Observe, case by case

  predicate NoScript(p: Params) {
    p.startupScript.None? || p.startupScript.value.content == ""
  }

  /** Nothing about cloud-init changed, and nothing ran. */
  predicate CloudInitKept(cr: CR, r: Observed) {
    && !r.ran && r.cr.obs.cloudInitStatus == cr.obs.cloudInitStatus
    && r.cr.obs.cloudInitMessage == cr.obs.cloudInitMessage
  }

  /** The message as a condition shows it. */
  predicate ShownAs(shown: string, message: string) {
    shown == if |message| <= 1024 then message else message[..1021] + "..."
  }

  predicate FailedWith(r: Observed, message: string) {
    && r.cr.obs.cloudInitStatus == Failed && r.cr.obs.cloudInitMessage == message
    && r.cr.ready.Some? && r.cr.ready.value.Unavailable? && ShownAs(r.cr.ready.value.message, message)
  }

  /** A reply without a record: nothing changes, and there is an error unless the VM is
      known to be missing. */
  lemma OtherReply(cr: CR, a: Answers)
    requires !(cr.externalName != "" && a.get.Reply? && a.get.code == 200 && a.get.body.Some?)
    ensures var r := Observe(cr, a);
            && r.cr == cr && !r.found && !r.ran
            && (r.err.None? <==> cr.externalName == "" || (a.get.Reply? && a.get.code == 404))
  {
  }

  /** A VM that does not run: its status decides the condition, and its script waits. */
  lemma NotRunning(cr: CR, a: Answers, vm: Record)
    requires cr.externalName != "" && a.get == Reply(200, Some(vm)) && vm.status != Some(StatusRunning)
    ensures var r := Observe(cr, a);
            && r.found && r.err.None? && CloudInitKept(cr, r) && r.cr.obs.ipAddress == cr.obs.ipAddress
            && r.upToDate == IsUpToDate(cr.params, vm.spec)
            && r.cr.ready == match vm.status
                             case Some(StatusCreating) => Some(Creating)
                             case Some(StatusStarting) => Some(Creating)
                             case Some(StatusPending) => Some(Creating)
                             case Some(StatusStopping) => Some(Deleting)
                             case Some(StatusDeleting) => Some(Deleting)
                             case Some(StatusFailed) => Some(Unavailable(""))
                             case Some(StatusError) => Some(Unavailable(""))
                             case _ => cr.ready
  {
  }

  /** A running VM without an address, or one without a script. */
  lemma RunningPlain(cr: CR, a: Answers, vm: Record)
    requires cr.externalName != "" && a.get == Reply(200, Some(vm)) && vm.status == Some(StatusRunning)
    ensures var r := Observe(cr, a);
            r.found && r.cr.obs.ipAddress == (if a.ip.Some? then a.ip.value else cr.obs.ipAddress)
    ensures var r := Observe(cr, a);
            r.cr.obs.ipAddress == "" || NoScript(cr.params) ==>
              && r.err.None? && CloudInitKept(cr, r) && r.upToDate == IsUpToDate(cr.params, vm.spec)
              && r.cr.ready == Some(if r.cr.obs.ipAddress == "" then Creating else Available)
  {
  }

  /** A reachable VM whose script is done with: the stored verdict is shown again. */
  lemma StoredVerdict(cr: CR, a: Answers, vm: Record)
    requires cr.externalName != "" && a.get == Reply(200, Some(vm)) && vm.status == Some(StatusRunning)
    requires (if a.ip.Some? then a.ip.value else cr.obs.ipAddress) != "" && !NoScript(cr.params)
    requires cr.obs.cloudInitStatus in {Completed, Failed, Running}
    ensures var r := Observe(cr, a);
            && r.err.None? && CloudInitKept(cr, r) && r.upToDate == IsUpToDate(cr.params, vm.spec)
            && match cr.obs.cloudInitStatus
               case Completed => r.cr.ready == Some(Available)
               case Failed => FailedWith(r, cr.obs.cloudInitMessage)
               case _ => r.cr.ready == Some(Creating)
  {
    var r := Observe(cr, a);
    assert r.cr.ready == Some(Verdict(cr.obs.cloudInitStatus, cr.obs.cloudInitMessage));
    Truncated(cr.obs.cloudInitMessage);
  }

  lemma Truncated(message: string)
    ensures ShownAs(TruncateMessage(message), message)
  {
    var shown := TruncateMessage(message);
    assert |message| > 1024 ==> shown == shown[..1021] + shown[1021..];
  }

  /** A due script on a reachable VM: without SSH it waits, with an error; with SSH it runs,
      and its outcome is the new verdict. */
  lemma DueScript(cr: CR, a: Answers)
    requires TouchesSSH(cr, a)
    ensures var r := Observe(cr, a);
            !a.sshReady ==>
              && !r.ran && r.found && r.upToDate
              && r.err == Some("cannot execute cloud-init script" + ": " + "SSH not ready")
              && r.cr.obs.cloudInitStatus == Pending && r.cr.obs.cloudInitMessage == "waiting for SSH"
              && r.cr.ready == Some(Creating)
    ensures var r := Observe(cr, a);
            a.sshReady ==>
              && r.ran && r.found && r.err.None? && r.upToDate == IsUpToDate(cr.params, a.get.body.value.spec)
              && match a.run
                 case Error(m) => FailedWith(r, "cloud-init failed: " + m)
                 case Exited(code, stderr) =>
                   if code == 0 then
                     && r.cr.obs.cloudInitStatus == Completed && r.cr.obs.cloudInitMessage == ""
                     && r.cr.ready == Some(Available)
                   else FailedWith(r, "exit code " + Itoa(code) + ": " + stderr)
  {
    Truncated(FailureMessage(a.run));
    assert a.sshReady ==> Observe(cr, a).cr == Executed(Refreshed(cr, a.get.body.value, a), a.run);
  }

  /** The script runs in no other case. */
  lemma RanIff(cr: CR, a: Answers)
    ensures Observe(cr, a).ran <==> TouchesSSH(cr, a) && a.sshReady
    ensures Observe(cr, a).err.Some? && Observe(cr, a).found <==> TouchesSSH(cr, a) && !a.sshReady
  {
  }

  function RunningRecord(spec: Spec): Record {
    Record(spec, Some(StatusRunning), None, None, None, None)
  }

  /** A resource under its external name, before its first Observe. */
  function Fresh(params: Params): CR {
    CR("vm", "vm", params, Observation(Blank, "", "", "", None, None, Unset, ""), None)
  }

  function Reachably(vm: Record, sshReady: bool): Answers {
    Answers(Reply(OK, Some(vm)), Some("10.0.0.1"), sshReady, Exited(0, ""), 0)
  }

  /** Both cases do happen: a VM without a script is seen running, and then with an unlisted
      status, or not at all; it still counts as Available, and there is no error. */
  lemma StaleAvailable(text: UnlistedStatus, outOfRange: Int32)
    ensures var params := ImageOnly("image", None);
            var up := RunningRecord(BuildSpec(params));
            var r1 := Observe(Fresh(params), Reachably(up, true));
            var r2 := Observe(r1.cr, Reachably(up.(status := Some(StatusOther(text))), true));
            var r3 := Observe(r1.cr, Answers(Reply(NOT_FOUND, None), None, false, Exited(0, ""), outOfRange));
            && r2.err.None? && r2.found && r2.cr.obs.status == StatusOther(text) && r2.cr.ready == Some(Available)
            && r3.err.None? && !r3.found && r3.cr.ready == Some(Available)
  {
    assert |"10.0.0.1"| == 8;
  }

  /** The branch that runs the script and the branches that read the stored status back
      never disagree: for a reachable VM with a script, the condition is the verdict on
      what is stored. */
  lemma ConditionIsVerdict(cr: CR, a: Answers, vm: Record)
    requires cr.externalName != "" && a.get == Reply(OK, Some(vm)) && HasScript(cr.params)
    requires Reachable(Refreshed(cr, vm, a))
    ensures var r := Observe(cr, a);
            r.cr.ready == Some(Verdict(r.cr.obs.cloudInitStatus, r.cr.obs.cloudInitMessage))
  {
  }

  /** Observe touches no more than it has to: the spec and the names never, the address
      only of a running VM. */
  lemma ObserveFrame(cr: CR, a: Answers)
    ensures var r := Observe(cr, a).cr;
            && r == cr.(obs := r.obs, ready := r.ready)
            && (r.obs.ipAddress != cr.obs.ipAddress ==> PhaseOf(r.obs.status) == Up && a.ip == Some(r.obs.ipAddress))
  {
  }

  /** The cloud-init fields change only when a due script is reached, and become terminal
      exactly if SSH was ready; that is also the only way the script runs. */
  lemma CloudInitFrame(cr: CR, a: Answers)
    ensures var r := Observe(cr, a); var o, o' := cr.obs, r.cr.obs;
            && (o'.cloudInitStatus != o.cloudInitStatus || o'.cloudInitMessage != o.cloudInitMessage
                ==> Due(cr) && Reachable(r.cr) && (Terminal(o'.cloudInitStatus) <==> a.sshReady))
            && (r.ran ==> Due(cr) && a.sshReady && Terminal(o'.cloudInitStatus))
  {
    if a.get.Reply? && a.get.code == OK && a.get.body.Some? && cr.externalName != "" {
      RecordCloudInitFrame(cr, a.get.body.value, a);
    }
  }

  lemma RecordCloudInitFrame(cr: CR, vm: Record, a: Answers)
    ensures var r := ObserveRecord(cr, vm, a); var o, o' := cr.obs, r.cr.obs;
            && (o'.cloudInitStatus != o.cloudInitStatus || o'.cloudInitMessage != o.cloudInitMessage
                ==> Due(cr) && Reachable(r.cr) && (Terminal(o'.cloudInitStatus) <==> a.sshReady))
            && (r.ran ==> Due(cr) && a.sshReady && Terminal(o'.cloudInitStatus))
  {
  }

  /** What the reply says is what the resource shows.  A reply without a status empties the
      stored one; what else it leaves out is kept. */
  lemma ReplyShown(cr: CR, a: Answers, vm: Record)
    requires cr.externalName != "" && a.get == Reply(OK, Some(vm))
    ensures var o := Observe(cr, a).cr.obs;
            && o.status == (if vm.status.Some? then vm.status.value else Blank)
            && o.worker == (if vm.worker.Some? then vm.worker.value else cr.obs.worker)
            && o.statusMessage == (if vm.statusMessage.Some? then vm.statusMessage.value else cr.obs.statusMessage)
            && (vm.generation.None? ==> o.generation == cr.obs.generation)
            && (vm.observedGeneration.None? ==> o.observedGeneration == cr.obs.observedGeneration)
            && (o.status == StatusRunning && a.ip.Some? ==> o.ipAddress == a.ip.value)
  {
  }

  /** A generation that fits int32 is stored as it was sent. */
  lemma GenerationShown(cr: CR, a: Answers, vm: Record, g: int)
    requires cr.externalName != "" && a.get == Reply(200, Some(vm)) && vm.generation == Some(g as real)
    requires -0x8000_0000 <= g <= 0x7fff_ffff
    ensures Observe(cr, a).cr.obs.generation == Some(g)
  {
    assert Truncate(g as real) == g;
  }

  /** The VM is found exactly if the reply is a 200 that decodes; Observe fails exactly on
      a network error, a code other than 200 and 404, a body that does not decode, or an
      SSH server that keeps a due script waiting.  The last leaves the resource Creating and
      pending. */
  lemma ObserveResultIff(cr: CR, a: Answers)
    ensures Observe(cr, a).found <==> cr.externalName != "" && a.get.Reply? && a.get.code == 200 && a.get.body.Some?
    ensures Observe(cr, a).err.Some? <==>
              && cr.externalName != ""
              && (|| a.get.NetError?
                  || a.get.code !in {200, 404}
                  || (a.get.code == 200 && a.get.body.None?)
                  || (TouchesSSH(cr, a) && !a.sshReady))
    ensures var r := Observe(cr, a);
            r.err.Some? && r.found ==> r.cr.ready == Some(Creating) && r.cr.obs.cloudInitStatus == Pending && !r.ran
  {
  }

  /** A stored failure message tells how the script failed: the two kinds never mix, and
      exit code and error output can be read off. */
  lemma FailureMessageTells(o1: Outcome, o2: Outcome)
    requires (o1.Error? || o1.code != 0) && (o2.Error? || o2.code != 0)
    ensures FailureMessage(o1) == FailureMessage(o2) <==> o1 == o2
  {
    FailureMessageShape(o1);
    FailureMessageShape(o2);
  }

  /** Where the first colon is, and what stands on both sides. */
  lemma FailureMessageShape(o: Outcome)
    ensures var (kind, rest, _) := Url.Cut(FailureMessage(o), ':');
            match o
            case Error(m) => kind == "cloud-init failed" && rest == " " + m && m == rest[1..] && kind[0] == 'c'
            case Exited(code, stderr) =>
              && kind == "exit code " + Itoa(code) && Itoa(code) == kind[10..] && kind[0] == 'e'
              && rest == " " + stderr && stderr == rest[1..] && Atoi(kind[10..]) == Some(code)
  {
    match o
    case Error(m) =>
      assert "cloud-init failed: " + m == "cloud-init failed" + ([':'] + (" " + m));
      Url.CutFinds("cloud-init failed", ':', " " + m);
    case Exited(code, stderr) =>
      ItoaChars(code);
      AtoiItoa(code);
      ExitMessage(Itoa(code), stderr);
      assert ':' !in "exit code ";
      Url.CutFinds("exit code " + Itoa(code), ':', " " + stderr);
  }

  lemma ExitMessage(code: string, stderr: string)
    ensures "exit code " + code + ": " + stderr == "exit code " + code + ([':'] + (" " + stderr))
  {
    assert ": " == [':'] + " ";
  }

  predicate BoundedMessage(cr: CR) {
    cr.ready.Some? && cr.ready.value.Unavailable? ==> |cr.ready.value.message| <= 1024
  }

  lemma MessagesBounded(cr: CR, a: Answers)
    requires BoundedMessage(cr)
    ensures BoundedMessage(Observe(cr, a).cr)
  {
  }

  /** Taking in a record a second time only resets the condition. */
  lemma RefreshedAgain(cr: CR, cr': CR, vm: Record, a: Answers)
    requires var o := Refreshed(cr, vm, a).obs;
             cr'.obs == o.(cloudInitStatus := cr'.obs.cloudInitStatus, cloudInitMessage := cr'.obs.cloudInitMessage)
    ensures var r := Refreshed(cr', vm, a);
            && r == cr'.(ready := r.ready)
            && (PhaseOf(cr'.obs.status) != Up ==> r.ready == UpdateStatus(cr', vm, a.outOfRange).ready)
  {
  }

  lemma RecordIdempotent(cr: CR, vm: Record, a: Answers)
    ensures var r := ObserveRecord(cr, vm, a).cr;
            ObserveRecord(r, vm, a).cr == r && !ObserveRecord(r, vm, a).ran
  {
    var r := ObserveRecord(cr, vm, a).cr;
    RefreshedAgain(cr, r, vm, a);
    if Reachable(Refreshed(cr, vm, a)) && HasScript(cr.params) {
      assert r.ready == Some(Verdict(r.obs.cloudInitStatus, r.obs.cloudInitMessage));
    }
  }

  /** Observing again with the same answers changes nothing and runs nothing, even when
      the first Observe ran the script. */
  lemma ObserveIdempotent(cr: CR, a: Answers)
    ensures Observe(Observe(cr, a).cr, a).cr == Observe(cr, a).cr
    ensures !Observe(Observe(cr, a).cr, a).ran
  {
    if a.get.Reply? && a.get.code == OK && a.get.body.Some? && cr.externalName != "" {
      var vm := a.get.body.value;
      RecordIdempotent(cr, vm, a);
      assert Observe(cr, a) == ObserveRecord(cr, vm, a);
      assert ObserveRecord(cr, vm, a).cr.externalName == cr.externalName;
    }
  }

  /** Generations the server sent in order are stored in order. */
  lemma GenerationsOrdered(cr: CR, a: Answers, vm: Record, observed: nat, g: nat)
    requires cr.externalName != "" && a.get == Reply(OK, Some(vm))
    requires vm.generation == Some(FromInt(g) as real) && vm.observedGeneration == Some(FromInt(observed) as real)
    requires observed <= g < 0x8000_0000 - 64
    ensures var obs := Observe(cr, a).cr.obs;
            obs.generation.Some? && obs.observedGeneration.Some?
            && obs.observedGeneration.value <= obs.generation.value
            && (g <= LIMIT ==> obs.generation.value == g && obs.observedGeneration.value == observed)
  {
    GenerationOrder(observed, g, a.outOfRange);
    GenerationOrder(observed, observed, a.outOfRange);
  }

  // ----- drift

  /** Where both sides set a number, it is the same; a side that sets none is not compared. */
  predicate Agreeing(a: Option<Int32>, b: Option<Int32>) {
    a.Some? && b.Some? ==> a == b
  }

  /** The numbers are no further apart than the mean of their float32 quanta. */
  predicate Close(a: Option<Int32>, b: Option<Int32>) {
    a.Some? && b.Some? ==>
      2 * Abs(a.value - b.value) <= Pow2(Exponent(Abs(a.value))) + Pow2(Exponent(Abs(b.value)))
  }

  lemma ComparedNumbers(a: Option<Int32>, b: Option<Int32>)
    requires a.Some? && b.Some? ==> FromInt(a.value) == FromInt(b.value)
    ensures Close(a, b)
    ensures SmallNumber(a) && SmallNumber(b) ==> Agreeing(a, b)
  {
    if a.Some? && b.Some? {
      LookAlikesAreClose(a.value, b.value);
      if SmallNumber(a) && SmallNumber(b) {
        InjectiveWithinLimit(a.value, b.value);
      }
    }
  }

  /** The comparison, for any record: a present image is the one asked for, and a present
      number is the float32 nearest to the one asked for. */
  lemma UpToDateIff(p: Params, vm: Spec)
    ensures IsUpToDate(p, vm) <==>
              && (vm.image.Some? ==> vm.image.value == p.image)
              && (p.cpu.Some? && vm.cpu.Some? ==> CarriesNumber(vm.cpu, p.cpu))
              && (p.memory.Some? && vm.memory.Some? ==> CarriesNumber(vm.memory, p.memory))
  {
    ComparedNumber(p.cpu, vm.cpu);
    ComparedNumber(p.memory, vm.memory);
  }

  lemma ComparedNumber(n: Option<Int32>, f: Option<real>)
    ensures n.Some? && f.Some? ==> (f.value == FromInt(n.value) as real <==> CarriesNumber(f, n))
  {
    NumberCarried(n);
    if n.Some? && f.Some? && CarriesNumber(f, n) {
      FromIntCorrect(n.value);
      RoundingUnique(n.value, f.value.Floor, FromInt(n.value));
    }
  }

  /** A VM built from q, or a record of it without an image, is compared with p.  A reported mismatch is a real one, for every
      int32; inside 2^24 every real one is reported; beyond, only numbers close to each
      other pass for equal. */
  lemma DriftIff(p: Params, q: Params, vm: Spec)
    requires (vm.image.None? || vm.image == Some(q.image)) && vm.cpu == ToFloat(q.cpu) && vm.memory == ToFloat(q.memory)
    ensures var same := vm.image.None? || p.image == q.image;
            same && Agreeing(p.cpu, q.cpu) && Agreeing(p.memory, q.memory) ==> IsUpToDate(p, vm)
    ensures SmallNumber(p.cpu) && SmallNumber(q.cpu) && SmallNumber(p.memory) && SmallNumber(q.memory) ==>
              var same := vm.image.None? || p.image == q.image;
              (IsUpToDate(p, vm) <==> same && Agreeing(p.cpu, q.cpu) && Agreeing(p.memory, q.memory))
    ensures var same := vm.image.None? || p.image == q.image;
            IsUpToDate(p, vm) ==> same && Close(p.cpu, q.cpu) && Close(p.memory, q.memory)
  {
    if IsUpToDate(p, vm) {
      ComparedNumbers(p.cpu, q.cpu);
      ComparedNumbers(p.memory, q.memory);
    }
  }

  // ----- runs with arbitrary answers

  /** The stored resource, and what has happened: executions with their outcomes, and the
      executions whose status write was lost. */
  datatype State = State(cr: CR, history: seq<Outcome>, lost: nat)

  /** Between reconciles the spec may be edited.  A reconcile observes, may create (which
      sets the external name), and then stores status and metadata, or fails to. */
  datatype Event =
    | Edit(params: Params)
    | Reconcile(answers: Answers, statusStored: bool, nameStored: bool)

  function Step(s: State, e: Event): State {
    match e
    case Edit(params) => s.(cr := s.cr.(params := params))
    case Reconcile(a, statusStored, nameStored) =>
      var r := Observe(s.cr, a);
      var cr1 := if statusStored then s.cr.(obs := r.cr.obs, ready := r.cr.ready) else s.cr;
      var cr2 := if nameStored && r.err.None? && !r.found then cr1.(externalName := cr1.name) else cr1;
      State(cr2,
            if r.ran then s.history + [a.run] else s.history,
            if r.ran && !statusStored then s.lost + 1 else s.lost)
  }

  function Run(s: State, events: seq<Event>): State
    decreases events
  {
    if events == [] then s else Run(Step(s, events[0]), events[1..])
  }

  function Done(s: State): nat {
    if Terminal(s.cr.obs.cloudInitStatus) then 1 else 0
  }

  lemma StepAccounts(s: State, e: Event)
    ensures var t := Step(s, e);
            |t.history| + s.lost + Done(s) == |s.history| + t.lost + Done(t) && s.lost <= t.lost && Done(s) <= Done(t)
  {
  }

  /** Every execution is paid for: by a lost status write, or by the one step of the stored
      status to a terminal value. */
  lemma {:induction false} ExecutionsAccounted(s: State, events: seq<Event>)
    ensures var t := Run(s, events);
            |t.history| - |s.history| == (t.lost - s.lost) + (Done(t) - Done(s)) && s.lost <= t.lost && Done(s) <= Done(t)
    decreases events
  {
    if events != [] {
      StepAccounts(s, events[0]);
      ExecutionsAccounted(Step(s, events[0]), events[1..]);
    }
  }

  predicate NothingLost(events: seq<Event>) {
    forall i :: 0 <= i < |events| && events[i].Reconcile? ==> events[i].statusStored
  }

  lemma {:induction false} NoLossNoLost(s: State, events: seq<Event>)
    requires NothingLost(events)
    ensures Run(s, events).lost == s.lost
    decreases events
  {
    if events != [] {
      NoLossNoLost(Step(s, events[0]), events[1..]);
    }
  }

  function LostWrites(events: seq<Event>): nat {
    if events == [] then 0
    else (if events[0].Reconcile? && !events[0].statusStored then 1 else 0) + LostWrites(events[1..])
  }

  lemma {:induction false} LostBounded(s: State, events: seq<Event>)
    ensures Run(s, events).lost <= s.lost + LostWrites(events)
    decreases events
  {
    if events != [] {
      LostBounded(Step(s, events[0]), events[1..]);
    }
  }

  /** The script is executed at most once more than status writes are lost; without losses
      exactly as often as the stored status becomes terminal, so at most once, however
      often the VM vanishes, is recreated, or the script is edited. */
  lemma AtMostOnce(s: State, events: seq<Event>)
    ensures var t := Run(s, events);
            |t.history| - |s.history| <= 1 - Done(s) + LostWrites(events)
    ensures var t := Run(s, events);
            NothingLost(events) ==> |t.history| - |s.history| == Done(t) - Done(s)
  {
    ExecutionsAccounted(s, events);
    LostBounded(s, events);
    if NothingLost(events) {
      NoLossNoLost(s, events);
    }
  }

  function Rank(c: CloudInit): nat {
    match c
    case Unset => 0
    case Completed => 2
    case Failed => 2
    case _ => 1
  }

  /** The stored status never falls back, and once terminal it stays, with its message. */
  lemma {:induction false} StatusMonotone(s: State, events: seq<Event>)
    ensures var o, o' := s.cr.obs, Run(s, events).cr.obs;
            && Rank(o.cloudInitStatus) <= Rank(o'.cloudInitStatus)
            && (Terminal(o.cloudInitStatus) ==>
                  o'.cloudInitStatus == o.cloudInitStatus && o'.cloudInitMessage == o.cloudInitMessage)
    decreases events
  {
    if events != [] {
      StatusMonotone(Step(s, events[0]), events[1..]);
    }
  }

  /** "running" is stored at the end of a run exactly if it was stored at its start; and
      then nothing was executed. */
  lemma {:induction false} RunningIffStuck(s: State, events: seq<Event>)
    ensures var t := Run(s, events);
            && (t.cr.obs.cloudInitStatus == Running <==> s.cr.obs.cloudInitStatus == Running)
            && (s.cr.obs.cloudInitStatus == Running ==> t.history == s.history)
    decreases events
  {
    if events != [] {
      RunningIffStuck(Step(s, events[0]), events[1..]);
    }
  }

  /** So from a stored "running" a reachable VM with a script waits forever: after any run,
      Observe reports it as Creating, without an error, and does not run the script. */
  lemma StuckWaits(s: State, events: seq<Event>, a: Answers, vm: Record)
    requires s.cr.obs.cloudInitStatus == Running
    requires var cr := Run(s, events).cr;
             && cr.externalName != "" && a.get == Reply(OK, Some(vm))
             && HasScript(cr.params) && Reachable(Refreshed(cr, vm, a))
    ensures var r := Observe(Run(s, events).cr, a);
            r.cr.ready == Some(Creating) && r.cr.obs.cloudInitStatus == Running && r.err.None? && !r.ran
  {
    var cr := Run(s, events).cr;
    RunningIffStuck(s, events);
    CloudInitFrame(cr, a);
    ConditionIsVerdict(cr, a, vm);
    ObserveResultIff(cr, a);
  }

  /** The verdict is that of an execution that happened. */
  ghost predicate JustifiedBy(status: CloudInit, message: string, history: seq<Outcome>) {
    && (status == Completed ==> exists i :: 0 <= i < |history| && history[i].Exited? && history[i].code == 0)
    && (status == Failed ==>
          exists i :: 0 <= i < |history| && (history[i].Error? || history[i].code != 0)
                      && FailureMessage(history[i]) == message)
  }

  ghost predicate Justified(s: State) {
    JustifiedBy(s.cr.obs.cloudInitStatus, s.cr.obs.cloudInitMessage, s.history)
  }

  lemma HistoryGrows(status: CloudInit, message: string, history: seq<Outcome>, o: Outcome)
    requires JustifiedBy(status, message, history)
    ensures JustifiedBy(status, message, history + [o])
  {
    var more := history + [o];
    assert forall i :: 0 <= i < |history| ==> more[i] == history[i];
  }

  lemma NewVerdict(history: seq<Outcome>, o: Outcome)
    ensures if o.Exited? && o.code == 0 then JustifiedBy(Completed, "", history + [o])
            else JustifiedBy(Failed, FailureMessage(o), history + [o])
  {
    assert (history + [o])[|history|] == o;
  }

  ghost predicate VerdictOf(cr: CR, a: Answers, r: Observed) {
    var status, message := r.cr.obs.cloudInitStatus, r.cr.obs.cloudInitMessage;
    if !r.ran then
      status == Pending || (status == cr.obs.cloudInitStatus && message == cr.obs.cloudInitMessage)
    else if a.run.Exited? && a.run.code == 0 then status == Completed && message == ""
    else status == Failed && message == FailureMessage(a.run)
  }

  lemma RecordVerdict(cr: CR, vm: Record, a: Answers)
    ensures VerdictOf(cr, a, ObserveRecord(cr, vm, a))
  {
  }

  lemma ObservedVerdict(cr: CR, a: Answers)
    ensures VerdictOf(cr, a, Observe(cr, a))
  {
    if a.get.Reply? && a.get.body.Some? {
      RecordVerdict(cr, a.get.body.value, a);
    }
  }

  lemma StepJustified(s: State, e: Event)
    requires Justified(s)
    ensures Justified(Step(s, e))
  {
    if e.Reconcile? {
      ObservedVerdict(s.cr, e.answers);
      HistoryGrows(s.cr.obs.cloudInitStatus, s.cr.obs.cloudInitMessage, s.history, e.answers.run);
      NewVerdict(s.history, e.answers.run);
    }
  }

  /** From a resource whose script has not been run, completed means that some execution
      exited with 0, and failed that some execution failed with just this message. */
  lemma {:induction false} VerdictJustified(s: State, events: seq<Event>)
    requires Justified(s)
    ensures Justified(Run(s, events))
    decreases events
  {
    if events != [] {
      StepJustified(s, events[0]);
      VerdictJustified(Step(s, events[0]), events[1..]);
    }
  }
}
