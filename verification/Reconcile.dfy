/** The values the VM controller works on, and what each of its operations makes of them. */
module Reconcile {
  import opened Wrappers
  import opened Float32
  import opened Api
  import opened Decimal
  import opened Session

  // ----- the custom resource

  const NAMED := ["", "pending", "running", "completed", "failed"]

  type UnnamedStatus = s: string | s !in NAMED witness "?"

  /** The stored cloud-init status: empty, one of the four named values, or any other text. */
  datatype CloudInit = Unset | Pending | Running | Completed | Failed | Other(text: UnnamedStatus)

  datatype Condition = Creating | Available | Deleting | Unavailable(message: string)

  datatype Observation = Observation(
    status: Status,
    statusMessage: string,
    worker: string,
    ipAddress: string,
    generation: Option<Int32>,
    observedGeneration: Option<Int32>,
    cloudInitStatus: CloudInit,
    cloudInitMessage: string)

  datatype CR = CR(name: string, externalName: string, params: Params, obs: Observation, ready: Option<Condition>)

  // ----- what the outside answers during one Observe

  /** A GET reply; the body is None if it does not decode. */
  datatype Reply = NetError | Reply(code: int, body: Option<Record>)

  /** `ip` is the address a successful IP request carried; `outOfRange` is what the machine
      makes of a float that does not fit int32. */
  datatype Answers = Answers(get: Reply, ip: Option<string>, sshReady: bool, run: Outcome, outOfRange: Int32)

  /** `err` is the operation's error; `ran` says that the script was handed to SSH. */
  datatype Observed = Observed(cr: CR, found: bool, upToDate: bool, err: Option<string>, ran: bool)

  // ----- messages

  const MAX_MESSAGE: nat := 1024

  function TruncateMessage(msg: string): (r: string)
    ensures |r| <= 1024
    ensures |msg| <= 1024 ==> r == msg
    ensures |msg| > 1024 ==> |r| == 1024 && r[..1021] == msg[..1021] && r[1021..] == "..."
  {
    if |msg| <= MAX_MESSAGE then msg else msg[..MAX_MESSAGE - 3] + "..."
  }

  function FailureMessage(o: Outcome): string {
    match o
    case Error(m) => "cloud-init failed: " + m
    case Exited(code, stderr) => "exit code " + Itoa(code) + ": " + stderr
  }

  // ----- the VM's status

  datatype Phase = Up | Coming | Going | Broken | Unknown

  function PhaseOf(status: Status): Phase {
    match status
    case StatusRunning => Up
    case StatusCreating => Coming
    case StatusStarting => Coming
    case StatusPending => Coming
    case StatusStopping => Going
    case StatusDeleting => Going
    case StatusFailed => Broken
    case StatusError => Broken
    case _ => Unknown
  }

  function StringValue(s: Option<Status>): Status {
    if s.Some? then s.value else Blank
  }

  function PhaseCondition(phase: Phase, before: Option<Condition>): Option<Condition> {
    match phase
    case Up => Some(Creating)
    case Coming => Some(Creating)
    case Going => Some(Deleting)
    case Broken => Some(Unavailable(""))
    case Unknown => before
  }

  function Or<T>(o: Option<T>, default: T): T {
    if o.Some? then o.value else default
  }

  function ToInt(f: Option<real>, outOfRange: Int32, before: Option<Int32>): Option<Int32> {
    if f.Some? then Some(ToInt32(f.value, outOfRange)) else before
  }

  /** updateVMStatus: a reply without a status empties the stored one, other fields the reply
      lacks keep their old values, and a status outside the handled ones leaves the condition
      alone. */
  function UpdateStatus(cr: CR, vm: Record, outOfRange: Int32): CR {
    var obs := cr.obs.(
      status := StringValue(vm.status),
      statusMessage := Or(vm.statusMessage, cr.obs.statusMessage),
      worker := Or(vm.worker, cr.obs.worker),
      generation := ToInt(vm.generation, outOfRange, cr.obs.generation),
      observedGeneration := ToInt(vm.observedGeneration, outOfRange, cr.obs.observedGeneration));
    cr.(obs := obs, ready := PhaseCondition(PhaseOf(StringValue(vm.status)), cr.ready))
  }

  // ----- cloud-init

  predicate HasScript(p: Params) {
    p.startupScript.Some? && p.startupScript.value.content != ""
  }

  predicate Terminal(s: CloudInit) {
    s == Completed || s == Failed
  }

  function SetCloudInit(cr: CR, status: CloudInit, message: string): CR {
    cr.(obs := cr.obs.(cloudInitStatus := status, cloudInitMessage := message))
  }

  /** The condition that a stored cloud-init status stands for. */
  function Verdict(status: CloudInit, message: string): Condition {
    match status
    case Completed => Available
    case Failed => Unavailable(TruncateMessage(message))
    case _ => Creating
  }

  /** What an execution leaves in the resource. */
  function Executed(cr: CR, o: Outcome): CR {
    var cr' := if Succeeded(o) then SetCloudInit(cr, Completed, "") else SetCloudInit(cr, Failed, FailureMessage(o));
    cr'.(ready := Some(Verdict(cr'.obs.cloudInitStatus, cr'.obs.cloudInitMessage)))
  }

  /** Does this resource still have its script to run? */
  predicate Due(cr: CR) {
    HasScript(cr.params) && !Terminal(cr.obs.cloudInitStatus) && cr.obs.cloudInitStatus != Running
  }

  const WAITING := "waiting for SSH"
  const ERR_SSH := "SSH not ready"
  const ERR_EXECUTE := "cannot execute cloud-init script"

  function HandleCloudInit(cr: CR, a: Answers): CR {
    if !HasScript(cr.params) then cr.(ready := Some(Available))
    else if !Due(cr) then cr.(ready := Some(Verdict(cr.obs.cloudInitStatus, cr.obs.cloudInitMessage)))
    else if !a.sshReady then SetCloudInit(cr, Pending, WAITING)
    else Executed(cr, a.run)
  }

  // ----- drift

  /** isVMUpToDate: only fields present on both sides are compared. */
  function IsUpToDate(p: Params, vm: Spec): bool {
    && (vm.image.Some? ==> vm.image.value == p.image)
    && (p.cpu.Some? && vm.cpu.Some? ==> vm.cpu.value == FromInt(p.cpu.value) as real)
    && (p.memory.Some? && vm.memory.Some? ==> vm.memory.value == FromInt(p.memory.value) as real)
  }

  // ----- Observe

  const OK := 200
  const CREATED := 201
  const NO_CONTENT := 204
  const NOT_FOUND := 404
  const CONFLICT := 409

  /** The resource once the record and, for a running VM, its address are in. */
  function Refreshed(cr: CR, vm: Record, a: Answers): CR {
    var cr1 := UpdateStatus(cr, vm, a.outOfRange);
    if PhaseOf(cr1.obs.status) == Up then cr1.(obs := cr1.obs.(ipAddress := Or(a.ip, cr1.obs.ipAddress))) else cr1
  }

  /** Is cloud-init looked at in this Observe? */
  predicate Reachable(cr1: CR) {
    PhaseOf(cr1.obs.status) == Up && cr1.obs.ipAddress != ""
  }

  function ObserveRecord(cr: CR, vm: Record, a: Answers): Observed {
    var cr1 := Refreshed(cr, vm, a);
    if !Reachable(cr1) then
      Observed(if PhaseOf(cr1.obs.status) == Up then cr1.(ready := Some(Creating)) else cr1,
               true, IsUpToDate(cr.params, vm.spec), None, false)
    else if Due(cr1) && !a.sshReady then
      Observed(HandleCloudInit(cr1, a), true, true, Some(ERR_EXECUTE + ": " + ERR_SSH), false)
    else
      Observed(HandleCloudInit(cr1, a), true, IsUpToDate(cr.params, vm.spec), None, Due(cr1))
  }

  function Observe(cr: CR, a: Answers): Observed {
    if cr.externalName == "" then Observed(cr, false, false, None, false)
    else
      match a.get
      case NetError => Observed(cr, false, false, Some("cannot get VM"), false)
      case Reply(code, body) =>
        if code == NOT_FOUND then Observed(cr, false, false, None, false)
        else if code != OK then Observed(cr, false, false, Some("unexpected status code: " + Itoa(code)), false)
        else
          match body
          case None => Observed(cr, false, false, Some("cannot decode VM response"), false)
          case Some(vm) => ObserveRecord(cr, vm, a)
  }

  /** Does this Observe go to the VM over SSH at all?  Exactly for a running VM with an
      address and a script that has neither run nor is marked as running. */
  predicate TouchesSSH(cr: CR, a: Answers) {
    && cr.externalName != "" && a.get.Reply? && a.get.code == 200 && a.get.body.Some?
    && a.get.body.value.status == Some(StatusRunning)
    && (if a.ip.Some? then a.ip.value else cr.obs.ipAddress) != ""
    && cr.params.startupScript.Some? && cr.params.startupScript.value.content != ""
    && cr.obs.cloudInitStatus != Completed && cr.obs.cloudInitStatus != Failed && cr.obs.cloudInitStatus != Running
  }

  // ----- the request body

  function NonEmpty<T>(s: Option<seq<T>>): Option<seq<T>> {
    if s.Some? && s.value != [] then s else None
  }

  function NonEmptyMap<K, V>(m: Option<map<K, V>>): Option<map<K, V>> {
    if m.Some? && m.value != map[] then m else None
  }

  function ToFloat(n: Option<Int32>): Option<real> {
    if n.Some? then Some(FromInt(n.value) as real) else None
  }

  function ToApiDir(d: HostDir): ApiHostDir {
    ApiHostDir(Some(d.name), Some(d.path), d.ro)
  }

  function ToApiDirs(dirs: seq<HostDir>): seq<ApiHostDir> {
    seq(|dirs|, i requires 0 <= i < |dirs| => ToApiDir(dirs[i]))
  }

  /** buildVMSpec: the startup script is left out on purpose. */
  function BuildSpec(p: Params): Spec {
    Spec(Some(p.image), ToFloat(p.cpu), ToFloat(p.memory), ToFloat(p.diskSize),
         p.username, p.password, p.headless, p.netBridged, p.netSoftnet,
         NonEmpty(p.netSoftnetAllow), NonEmpty(p.netSoftnetBlock),
         if p.hostDirs.Some? && p.hostDirs.value != [] then Some(ToApiDirs(p.hostDirs.value)) else None,
         NonEmptyMap(p.labels), NonEmptyMap(p.resources), p.nested, p.suspendable,
         p.imagePullPolicy, p.restartPolicy)
  }

  // ----- reading a request body back

  /** The nearest float32, and the number itself up to 2^24. */
  ghost predicate CarriesNumber(f: Option<real>, n: Option<Int32>) {
    match (f, n)
    case (None, None) => true
    case (Some(x), Some(i)) =>
      x == x.Floor as real && RoundsTiesToEven(i, x.Floor) && (-0x100_0000 <= i <= 0x100_0000 ==> x == i as real)
    case _ => false
  }

  ghost predicate CarriesDirs(s: Option<seq<ApiHostDir>>, dirs: Option<seq<HostDir>>) {
    if dirs.None? || dirs.value == [] then s == None
    else
      && s.Some? && |s.value| == |dirs.value|
      && forall i :: 0 <= i < |dirs.value| ==>
           s.value[i] == ApiHostDir(Some(dirs.value[i].name), Some(dirs.value[i].path), dirs.value[i].ro)
  }

  /** A body as it reads for parameters, field by field: an empty list or map is sent as
      absent, the startup script not at all. */
  ghost predicate AsksFor(s: Spec, p: Params) {
    && s.image == Some(p.image)
    && CarriesNumber(s.cpu, p.cpu) && CarriesNumber(s.memory, p.memory) && CarriesNumber(s.diskSize, p.diskSize)
    && s.username == p.username && s.password == p.password && s.headless == p.headless
    && s.netBridged == p.netBridged && s.netSoftnet == p.netSoftnet
    && s.netSoftnetAllow == (if p.netSoftnetAllow == Some([]) then None else p.netSoftnetAllow)
    && s.netSoftnetBlock == (if p.netSoftnetBlock == Some([]) then None else p.netSoftnetBlock)
    && CarriesDirs(s.hostDirs, p.hostDirs)
    && s.labels == (if p.labels == Some(map[]) then None else p.labels)
    && s.resources == (if p.resources == Some(map[]) then None else p.resources)
    && s.nested == p.nested && s.suspendable == p.suspendable
    && s.imagePullPolicy == p.imagePullPolicy && s.restartPolicy == p.restartPolicy
  }

  lemma NumberCarried(n: Option<Int32>)
    ensures CarriesNumber(ToFloat(n), n)
  {
    if n.Some? {
      FromIntCorrect(n.value);
      if Abs(n.value) <= LIMIT { ExactWithinLimit(n.value); }
    }
  }

  /** The body carries every parameter but the script, each in its own field. */
  lemma SpecRoundTrip(p: Params)
    ensures AsksFor(BuildSpec(p), p)
  {
    NumberCarried(p.cpu);
    NumberCarried(p.memory);
    NumberCarried(p.diskSize);
  }

  predicate SmallNumber(n: Option<Int32>) {
    n.Some? ==> Abs(n.value) <= LIMIT
  }

  predicate SameList<T(==)>(a: Option<seq<T>>, b: Option<seq<T>>) {
    a == b || ((a.None? || a.value == []) && (b.None? || b.value == []))
  }

  predicate SameMap<K(==), V(==)>(a: Option<map<K, V>>, b: Option<map<K, V>>) {
    a == b || ((a.None? || a.value == map[]) && (b.None? || b.value == map[]))
  }

  /** Equal but for the script, and for empty lists and maps beside absent ones. */
  predicate SameRequest(p: Params, q: Params) {
    && q == p.(startupScript := q.startupScript, netSoftnetAllow := q.netSoftnetAllow,
               netSoftnetBlock := q.netSoftnetBlock, hostDirs := q.hostDirs, labels := q.labels,
               resources := q.resources)
    && SameList(p.netSoftnetAllow, q.netSoftnetAllow) && SameList(p.netSoftnetBlock, q.netSoftnetBlock)
    && SameList(p.hostDirs, q.hostDirs) && SameMap(p.labels, q.labels) && SameMap(p.resources, q.resources)
  }

  lemma NumberDetermined(f: Option<real>, n: Option<Int32>, m: Option<Int32>)
    requires CarriesNumber(f, n) && CarriesNumber(f, m) && SmallNumber(n) && SmallNumber(m)
    ensures n == m
  {
  }

  lemma DirsDetermined(s: Option<seq<ApiHostDir>>, a: Option<seq<HostDir>>, b: Option<seq<HostDir>>)
    requires CarriesDirs(s, a) && CarriesDirs(s, b)
    ensures SameList(a, b)
  {
    if s.Some? {
      assert forall i :: 0 <= i < |a.value| ==> a.value[i] == HostDir(s.value[i].name.value, s.value[i].path.value, s.value[i].ro);
      assert forall i :: 0 <= i < |b.value| ==> b.value[i] == HostDir(s.value[i].name.value, s.value[i].path.value, s.value[i].ro);
      assert a.value == b.value;
    }
  }

  /** A body determines what it asks for, so parameters that differ in anything sendable
      give different bodies. */
  lemma SpecDetermines(p: Params, q: Params)
    requires SmallNumber(p.cpu) && SmallNumber(p.memory) && SmallNumber(p.diskSize)
    requires SmallNumber(q.cpu) && SmallNumber(q.memory) && SmallNumber(q.diskSize)
    ensures BuildSpec(p) == BuildSpec(q) <==> SameRequest(p, q)
  {
    var s := BuildSpec(p);
    if s == BuildSpec(q) {
      SpecRoundTrip(p);
      SpecRoundTrip(q);
      NumberDetermined(s.cpu, p.cpu, q.cpu);
      NumberDetermined(s.memory, p.memory, q.memory);
      NumberDetermined(s.diskSize, p.diskSize, q.diskSize);
      DirsDetermined(s.hostDirs, p.hostDirs, q.hostDirs);
    }
  }
}
