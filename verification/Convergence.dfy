/** The drift loop against a server that stores what it is sent, over a network on which
    any request may fail. */
module Convergence {
  import opened Wrappers
  import opened Float32
  import opened Api
  import opened Reconcile
  import Runs

  type Server = map<string, Record>

  /** POSTs and PUTs sent, creations and updates that took effect, spec edits, VMs that
      vanished, and reconciles that met a hitch. */
  datatype Ledger = Ledger(posts: nat, puts: nat, created: nat, updated: nat, edits: nat, vanished: nat, hitches: nat)

  /** The loop's state: the stored resource, the server, and what has happened so far. */
  datatype World = World(cr: CR, server: Server, log: Ledger)

  ghost predicate Keeps<T>(sent: Option<T>, before: Option<T>, after: Option<T>) {
    after == if sent.Some? then sent else before
  }

  /** A record that took in a request: supplied fields are stored, absent ones kept.  The
      VM's state is the server's business. */
  ghost predicate TookIn(sent: Spec, before: Spec, after: Spec) {
    && Keeps(sent.image, before.image, after.image)
    && Keeps(sent.cpu, before.cpu, after.cpu)
    && Keeps(sent.memory, before.memory, after.memory)
    && Keeps(sent.diskSize, before.diskSize, after.diskSize)
    && Keeps(sent.username, before.username, after.username)
    && Keeps(sent.password, before.password, after.password)
    && Keeps(sent.headless, before.headless, after.headless)
    && Keeps(sent.netBridged, before.netBridged, after.netBridged)
    && Keeps(sent.netSoftnet, before.netSoftnet, after.netSoftnet)
    && Keeps(sent.netSoftnetAllow, before.netSoftnetAllow, after.netSoftnetAllow)
    && Keeps(sent.netSoftnetBlock, before.netSoftnetBlock, after.netSoftnetBlock)
    && Keeps(sent.hostDirs, before.hostDirs, after.hostDirs)
    && Keeps(sent.labels, before.labels, after.labels)
    && Keeps(sent.resources, before.resources, after.resources)
    && Keeps(sent.nested, before.nested, after.nested)
    && Keeps(sent.suspendable, before.suspendable, after.suspendable)
    && Keeps(sent.imagePullPolicy, before.imagePullPolicy, after.imagePullPolicy)
    && Keeps(sent.restartPolicy, before.restartPolicy, after.restartPolicy)
  }

  /** POST: a new record over any defaults, or a conflict that changes nothing. */
  ghost predicate Posted(before: Server, name: string, sent: Spec, after: Server) {
    if name in before then after == before
    else
      && name in after && after == before[name := after[name]]
      && exists defaults: Spec :: TookIn(sent, defaults, after[name].spec)
  }

  ghost predicate Put(before: Server, name: string, sent: Spec, after: Server) {
    if name !in before then after == before
    else name in after && after == before[name := after[name]] && TookIn(sent, before[name].spec, after[name].spec)
  }

  /** The specifications, by name: what writes can change. */
  ghost predicate SameSpecs(before: Server, after: Server) {
    before.Keys == after.Keys && forall n :: n in before ==> after[n].spec == before[n].spec
  }

  /** Between reconciles the spec may be edited, VMs change state (status, worker,
      generation) or vanish.  A reconcile may meet a failing GET (in its answers), a POST or
      PUT that the server does not take, and lost writes of status or name. */
  datatype Event =
    | Edit(params: Params)
    | Drift
    | Vanish(name: string)
    | Reconcile(answers: Answers, taken: bool, statusStored: bool, nameStored: bool)

  /** A GET without a verdict on the VM: a network error, a code other than 200 and 404, or
      a body that does not decode. */
  predicate Faulty(r: Reply) {
    r.NetError? || r.code !in {OK, NOT_FOUND} || (r.code == OK && r.body.None?)
  }

  /** A GET that does give a verdict gives what the server holds. */
  ghost predicate Truthful(w: World, a: Answers) {
    || Faulty(a.get)
    || (w.cr.externalName in w.server && a.get == Reply(OK, Some(w.server[w.cr.externalName])))
    || (w.cr.externalName !in w.server && a.get.code == NOT_FOUND)
  }

  ghost predicate Step(w: World, e: Event, w': World) {
    match e
    case Edit(params) => w' == w.(cr := w.cr.(params := params), log := w.log.(edits := w.log.edits + 1))
    case Drift => SameSpecs(w.server, w'.server) && w' == w.(server := w'.server)
    case Vanish(name) => name in w.server && w' == w.(server := w.server - {name}, log := w.log.(vanished := w.log.vanished + 1))
    case Reconcile(_, _, _, _) => Truthful(w, e.answers) && ReconcileStep(w, e, w')
  }

  /** The resource with what was stored of its status. */
  function Stored(cr: CR, r: Observed, statusStored: bool): CR {
    if statusStored then cr.(obs := r.cr.obs, ready := r.cr.ready) else cr
  }

  /** A reconcile that may lose the name, or a write that the server may not take. */
  function Hitch(l: Ledger, e: Event): Ledger
    requires e.Reconcile?
  {
    if e.taken && e.nameStored then l else l.(hitches := l.hitches + 1)
  }

  ghost predicate ReconcileStep(w: World, e: Event, w': World)
    requires e.Reconcile?
  {
    var r := Observe(w.cr, e.answers);
    var cr1 := Stored(w.cr, r, e.statusStored);
    var log1 := Hitch(w.log, e);
    if r.err.Some? then w' == w.(cr := cr1, log := log1)
    else if !r.found then CreateStep(w, e, cr1, log1, w')
    else if !r.upToDate then UpdateStep(w, e, cr1, log1, w')
    else w' == w.(cr := cr1, log := log1)
  }

  ghost predicate CreateStep(w: World, e: Event, cr1: CR, log1: Ledger, w': World)
    requires e.Reconcile?
  {
    && (if e.taken then Posted(w.server, w.cr.name, BuildSpec(w.cr.params), w'.server) else w'.server == w.server)
    && w'.cr == (if e.nameStored then cr1.(externalName := cr1.name) else cr1)
    && w'.log == log1.(posts := log1.posts + 1,
                       created := if e.taken && w.cr.name !in w.server then log1.created + 1 else log1.created)
  }

  ghost predicate UpdateStep(w: World, e: Event, cr1: CR, log1: Ledger, w': World)
    requires e.Reconcile?
  {
    && (if e.taken then Put(w.server, w.cr.externalName, BuildSpec(w.cr.params), w'.server) else w'.server == w.server)
    && w'.cr == cr1
    && w'.log == log1.(puts := log1.puts + 1, updated := if e.taken then log1.updated + 1 else log1.updated)
  }

  ghost predicate Run(worlds: seq<World>, events: seq<Event>) {
    |worlds| == |events| + 1 && forall i :: 0 <= i < |events| ==> Step(worlds[i], events[i], worlds[i + 1])
  }

  // ----- a request makes the record up to date

  /** After a request the record matches the spec, whatever the integers: both sides went
      through the same rounding. */
  lemma TookInUpToDate(p: Params, before: Spec, after: Spec)
    requires TookIn(BuildSpec(p), before, after)
    ensures IsUpToDate(p, after)
  {
  }

  // ----- bounds on the writes

  ghost predicate Stale(w: World, name: string) {
    name in w.server && !IsUpToDate(w.cr.params, w.server[name].spec)
  }

  /** Is the VM there under the external name? */
  predicate Found(w: World) {
    w.cr.externalName != "" && w.cr.externalName in w.server
  }

  /** The VM the resource stands for: by its external name if that exists, else by its own. */
  function Target(w: World): string {
    if Found(w) then w.cr.externalName else w.cr.name
  }

  /** Updates still owed: one if the target exists and differs. */
  ghost function Owed(w: World): nat {
    if Stale(w, Target(w)) then 1 else 0
  }

  /** Creations still possible: one if nothing exists under the resource's name. */
  function Missing(w: World): nat {
    if w.cr.name in w.server then 0 else 1
  }

  /** POSTs still owed: one if the VM is not there under the external name. */
  function Unnamed(w: World): nat {
    if Found(w) then 0 else 1
  }

  /** Is this Observe held up by an SSH server that is not ready yet? */
  predicate Waiting(w: World, a: Answers) {
    Found(w) && Reachable(Refreshed(w.cr, w.server[w.cr.externalName], a)) && Due(w.cr) && !a.sshReady
  }

  /** What Observe concludes: it errs exactly if it asked and got no verdict, or if a due
      script waits for SSH; what it concludes otherwise is true of the server. */
  lemma TruthfulObserve(w: World, a: Answers)
    requires Truthful(w, a)
    ensures var r := Observe(w.cr, a); var ext := w.cr.externalName;
            && (r.err.Some? <==> ext != "" && (Faulty(a.get) || Waiting(w, a)))
            && (r.err.None? ==> (r.found <==> Found(w)))
            && (r.err.None? && r.found ==> (r.upToDate <==> !Stale(w, ext)))
  {
    Runs.ObserveResultIff(w.cr, a);
  }

  ghost predicate OnlyEdits(before: Ledger, e: Event, after: Ledger) {
    && after.edits == before.edits + (if e.Edit? then 1 else 0)
    && after.vanished == before.vanished + (if e.Vanish? then 1 else 0)
    && after.hitches == before.hitches + (if e.Reconcile? && !(e.taken && e.nameStored) then 1 else 0)
  }

  /** The five balances between a world and a later one. */
  ghost predicate Balanced(w: World, w': World) {
    && w'.cr.name == w.cr.name
    && w'.log.vanished >= w.log.vanished
    && w'.log.created + Missing(w') <= w.log.created + Missing(w) + (w'.log.vanished - w.log.vanished)
    && (w'.log.vanished == w.log.vanished ==> w'.log.created + Missing(w') == w.log.created + Missing(w))
    && w'.log.updated + Owed(w') <=
         w.log.updated + Owed(w) + (w'.log.edits - w.log.edits) + (w'.log.vanished - w.log.vanished)
    && (w.cr.name != "" ==>
          w'.log.posts + Unnamed(w') <=
            w.log.posts + Unnamed(w) + (w'.log.hitches - w.log.hitches) + (w'.log.vanished - w.log.vanished))
    && w'.log.puts - w'.log.updated <= w.log.puts - w.log.updated + (w'.log.hitches - w.log.hitches)
  }

  lemma StepWrites(w: World, e: Event, w': World)
    requires Step(w, e, w')
    ensures OnlyEdits(w.log, e, w'.log) && Balanced(w, w')
  {
    if e.Reconcile? {
      TruthfulObserve(w, e.answers);
      Runs.ObserveFrame(w.cr, e.answers);
      var r := Observe(w.cr, e.answers);
      if r.err.None? && !r.found {
        CreateOwes(w, e, w');
      } else if r.err.None? && !r.upToDate {
        UpdateOwes(w, e, w');
      }
    }
  }

  lemma UpdateOwes(w: World, e: Event, w': World)
    requires e.Reconcile? && Stale(w, w.cr.externalName) && Found(w)
    requires UpdateStep(w, e, w'.cr, Hitch(w.log, e), w')
    requires w'.cr.name == w.cr.name && w'.cr.params == w.cr.params && w'.cr.externalName == w.cr.externalName
    ensures Found(w') && w'.log.updated + Owed(w') == w.log.updated + Owed(w) && Missing(w') == Missing(w)
  {
    if e.taken {
      TookInUpToDate(w.cr.params, w.server[w.cr.externalName].spec, w'.server[w.cr.externalName].spec);
    }
  }

  lemma CreateOwes(w: World, e: Event, w': World)
    requires e.Reconcile? && !Found(w)
    requires w'.cr.name == w.cr.name && w'.cr.params == w.cr.params
    requires w'.cr.externalName == if e.nameStored then w.cr.name else w.cr.externalName
    requires if e.taken then Posted(w.server, w.cr.name, BuildSpec(w.cr.params), w'.server) else w'.server == w.server
    ensures Owed(w') <= Owed(w)
    ensures e.taken ==> w.cr.name in w'.server
  {
    if e.taken && w.cr.name !in w.server {
      var defaults: Spec :| TookIn(BuildSpec(w.cr.params), defaults, w'.server[w.cr.name].spec);
      TookInUpToDate(w.cr.params, defaults, w'.server[w.cr.name].spec);
    }
    assert Target(w') == w.cr.name;
  }

  /** Over every run, whatever requests fail: creations take effect at most once, and once
      more for each VM that vanishes (without that exactly if the name was free at first
      and is taken now); updates that take effect are at most one per edit and vanished VM,
      plus one if the server differed at the start; POSTs are sent at most once, and once
      more per reconcile with a hitch or vanished VM; and PUTs sent exceed the updates that
      take effect by at most the hitches. */
  lemma {:induction false} WritesBounded(worlds: seq<World>, events: seq<Event>)
    requires Run(worlds, events)
    ensures Balanced(worlds[0], worlds[|events|])
    decreases events
  {
    if events != [] {
      StepWrites(worlds[0], events[0], worlds[1]);
      WritesBounded(worlds[1..], events[1..]);
    }
  }

  /** A PUT is sent exactly if the GET gave a verdict, the VM differs and no cloud-init
      waits for SSH; a POST exactly if there is no external name, or the GET found nothing
      under it. */
  lemma WritesIff(w: World, e: Event, w': World)
    requires Step(w, e, w') && e.Reconcile?
    ensures var sent := Found(w) && !Faulty(e.answers.get) && Stale(w, w.cr.externalName) && !Waiting(w, e.answers);
            w'.log.puts == w.log.puts + (if sent then 1 else 0)
    ensures var sent := w.cr.externalName == "" || (w.cr.externalName !in w.server && !Faulty(e.answers.get));
            w'.log.posts == w.log.posts + (if sent then 1 else 0)
    ensures w'.log.posts == w.log.posts && w'.log.puts == w.log.puts ==> w'.server == w.server
  {
    TruthfulObserve(w, e.answers);
  }

  // ----- convergence

  /** Nothing to do: the VM exists under the external name and matches. */
  ghost predicate Quiet(w: World) {
    Found(w) && !Stale(w, w.cr.externalName)
  }

  /** Does an edit leave what the comparison looks at as it is? */
  predicate Invisible(p: Params, q: Params) {
    q.image == p.image && q.cpu == p.cpu && q.memory == p.memory
  }

  /** An event that gives a quiet loop nothing to do. */
  predicate Harmless(p: Params, e: Event) {
    match e
    case Edit(q) => Invisible(p, q)
    case Vanish(_) => false
    case _ => true
  }

  /** Nothing was sent, and the server's specifications are what they were. */
  ghost predicate Untouched(w: World, w': World) {
    && w'.log.posts == w.log.posts && w'.log.puts == w.log.puts
    && SameSpecs(w.server, w'.server) && Invisible(w.cr.params, w'.cr.params)
  }

  lemma QuietStays(w: World, e: Event, w': World)
    requires Quiet(w) && Step(w, e, w') && Harmless(w.cr.params, e)
    ensures Quiet(w') && Untouched(w, w')
  {
    if e.Reconcile? {
      TruthfulObserve(w, e.answers);
      Runs.ObserveFrame(w.cr, e.answers);
    }
  }

  /** A quiet loop sends no POST and no PUT, and every specification on the server stays
      what it is, until an edit of image, CPU or memory, or until a VM vanishes: an edit
      of anything else never reaches the server. */
  lemma {:induction false} QuietForever(worlds: seq<World>, events: seq<Event>)
    requires Run(worlds, events) && Quiet(worlds[0])
    requires forall i :: 0 <= i < |events| ==> Harmless(worlds[0].cr.params, events[i])
    ensures Quiet(worlds[|events|]) && Untouched(worlds[0], worlds[|events|])
    decreases events
  {
    if events != [] {
      QuietStays(worlds[0], events[0], worlds[1]);
      assert forall i :: 0 <= i < |events[1..]| ==> events[1..][i] == events[i + 1];
      QuietForever(worlds[1..], events[1..]);
    }
  }

  /** An edit disturbs a quiet loop exactly if the comparison sees it. */
  lemma EditDisturbsIff(w: World, e: Event, w': World)
    requires Quiet(w) && Step(w, e, w') && e.Edit?
    ensures Quiet(w') <==> IsUpToDate(e.params, w.server[w.cr.externalName].spec)
    ensures Invisible(w.cr.params, e.params) ==> Quiet(w')
  {
  }

  /** A reconcile without a hitch: Observe succeeds, the server takes what it is sent, and
      the external name gets stored. */
  ghost predicate Smooth(w: World, e: Event) {
    e.Reconcile? && e.taken && e.nameStored && Observe(w.cr, e.answers).err.None?
  }

  /** How far the loop is from quiet: one write if the VM exists but differs, two if it has
      still to be found or created. */
  ghost function Distance(w: World): (d: nat)
    ensures d <= 2
  {
    if Quiet(w) then 0 else if Found(w) then 1 else 2
  }

  /** No step leads away from quiet unless the spec is edited or a VM vanishes, and a
      smooth reconcile leads closer. */
  lemma StepDistance(w: World, e: Event, w': World)
    requires w.cr.name != "" && Step(w, e, w') && !e.Edit? && !e.Vanish?
    ensures w'.cr.name == w.cr.name && Distance(w') <= Distance(w)
    ensures Smooth(w, e) && Distance(w) > 0 ==> Distance(w') < Distance(w)
  {
    if e.Reconcile? {
      TruthfulObserve(w, e.answers);
      Runs.ObserveFrame(w.cr, e.answers);
      var r := Observe(w.cr, e.answers);
      if r.err.None? && !r.found {
        CreateDistance(w, e, w');
      } else if r.err.None? && !r.upToDate && e.taken {
        TookInUpToDate(w.cr.params, w.server[w.cr.externalName].spec, w'.server[w.cr.externalName].spec);
      }
    }
  }

  lemma CreateDistance(w: World, e: Event, w': World)
    requires e.Reconcile? && w.cr.name != "" && w'.cr.params == w.cr.params && !Found(w)
    requires w'.cr.externalName == if e.nameStored then w.cr.name else w.cr.externalName
    requires if e.taken then Posted(w.server, w.cr.name, BuildSpec(w.cr.params), w'.server) else w'.server == w.server
    ensures Distance(w) == 2 && (e.taken && e.nameStored ==> Distance(w') <= 1)
  {
    if e.taken && w.cr.name !in w.server {
      var defaults: Spec :| TookIn(BuildSpec(w.cr.params), defaults, w'.server[w.cr.name].spec);
      TookInUpToDate(w.cr.params, defaults, w'.server[w.cr.name].spec);
    }
  }

  ghost function SmoothSteps(worlds: seq<World>, events: seq<Event>): nat
    requires |worlds| == |events| + 1
    decreases events
  {
    if events == [] then 0
    else (if Smooth(worlds[0], events[0]) then 1 else 0) + SmoothSteps(worlds[1..], events[1..])
  }

  /** From any server state (absent, or present with any specification, under either name)
      a run without edits and vanishing VMs is quiet once two of its reconciles were smooth,
      whatever state drift, failing requests, waiting and lost writes come in between. */
  lemma {:induction false} Converges(worlds: seq<World>, events: seq<Event>)
    requires Run(worlds, events) && worlds[0].cr.name != ""
    requires forall i :: 0 <= i < |events| ==> !events[i].Edit? && !events[i].Vanish?
    ensures Distance(worlds[|events|]) <= Distance(worlds[0])
    ensures Distance(worlds[0]) <= SmoothSteps(worlds, events) ==> Quiet(worlds[|events|])
    ensures SmoothSteps(worlds, events) >= 2 ==> Quiet(worlds[|events|])
    decreases events
  {
    if events != [] {
      StepDistance(worlds[0], events[0], worlds[1]);
      Converges(worlds[1..], events[1..]);
    }
  }

  // ----- the whole specification

  /** The record holds every field the resource asks for. */
  ghost predicate Holds(w: World, name: string) {
    name in w.server && TookIn(BuildSpec(w.cr.params), w.server[name].spec, w.server[name].spec)
  }

  /** The VM is there under the external name with the whole specification. */
  ghost predicate Matches(w: World) {
    Found(w) && Holds(w, w.cr.externalName)
  }

  /** Will the whole specification arrive?  If the record is still to be created, differs in
      what the comparison looks at, or has it all already. */
  ghost predicate WillMatch(w: World) {
    var name := Target(w);
    name !in w.server || Stale(w, name) || Holds(w, name)
  }

  lemma TookInHolds(p: Params, before: Spec, after: Spec)
    requires TookIn(BuildSpec(p), before, after)
    ensures TookIn(BuildSpec(p), after, after)
  {
  }

  /** Nothing but an edit or a vanishing VM decides anew. */
  lemma StepWillMatch(w: World, e: Event, w': World)
    requires Step(w, e, w') && !e.Edit? && !e.Vanish?
    ensures WillMatch(w') <==> WillMatch(w)
  {
    if e.Reconcile? {
      TruthfulObserve(w, e.answers);
      Runs.ObserveFrame(w.cr, e.answers);
      var r := Observe(w.cr, e.answers);
      if r.err.None? && !r.found {
        CreateWillMatch(w, e, w');
      } else if r.err.None? && !r.upToDate {
        UpdateWillMatch(w, e, w');
      }
    }
  }

  lemma CreateWillMatch(w: World, e: Event, w': World)
    requires e.Reconcile? && !Found(w) && w'.cr.name == w.cr.name && w'.cr.params == w.cr.params
    requires w'.cr.externalName == if e.nameStored then w.cr.name else w.cr.externalName
    requires if e.taken then Posted(w.server, w.cr.name, BuildSpec(w.cr.params), w'.server) else w'.server == w.server
    ensures WillMatch(w') <==> WillMatch(w)
  {
    if e.taken && w.cr.name !in w.server {
      var defaults: Spec :| TookIn(BuildSpec(w.cr.params), defaults, w'.server[w.cr.name].spec);
      TookInHolds(w.cr.params, defaults, w'.server[w.cr.name].spec);
    }
    assert Target(w) == Target(w') == w.cr.name;
  }

  lemma UpdateWillMatch(w: World, e: Event, w': World)
    requires e.Reconcile? && Found(w) && Stale(w, w.cr.externalName)
    requires UpdateStep(w, e, w'.cr, Hitch(w.log, e), w')
    requires w'.cr.name == w.cr.name && w'.cr.params == w.cr.params && w'.cr.externalName == w.cr.externalName
    ensures WillMatch(w') && WillMatch(w)
  {
    var ext := w.cr.externalName;
    if e.taken {
      TookInHolds(w.cr.params, w.server[ext].spec, w'.server[ext].spec);
    }
  }

  lemma {:induction false} RunWillMatch(worlds: seq<World>, events: seq<Event>)
    requires Run(worlds, events)
    requires forall i :: 0 <= i < |events| ==> !events[i].Edit? && !events[i].Vanish?
    ensures WillMatch(worlds[|events|]) <==> WillMatch(worlds[0])
    decreases events
  {
    if events != [] {
      StepWillMatch(worlds[0], events[0], worlds[1]);
      RunWillMatch(worlds[1..], events[1..]);
    }
  }

  /** Once enough reconciles were smooth (two suffice), every field the resource asks for is
      on the server, exactly if at the start the record was missing, was seen to differ, or
      had them all. */
  lemma WholeSpecIff(worlds: seq<World>, events: seq<Event>)
    requires Run(worlds, events) && worlds[0].cr.name != ""
    requires forall i :: 0 <= i < |events| ==> !events[i].Edit? && !events[i].Vanish?
    requires Distance(worlds[0]) <= SmoothSteps(worlds, events)
    ensures Matches(worlds[|events|]) <==> WillMatch(worlds[0])
  {
    Converges(worlds, events);
    RunWillMatch(worlds, events);
  }

  // ----- edits that do not reach the server

  /** A resource with these parameters, and a running VM built from others. */
  function Deployed(params: Params, built: Params): World {
    World(Runs.Fresh(params), map["vm" := Runs.RunningRecord(BuildSpec(built))], Ledger(0, 0, 0, 0, 0, 0, 0))
  }

  /** An edited image is not sent while the script waits for SSH: the reconcile ends with
      the old image on the server. */
  lemma EditHeldBack(script: Script)
    requires script.content != ""
    ensures var w := Deployed(ImageOnly("new", Some(script)), ImageOnly("old", Some(script)));
            var a := Runs.Reachably(w.server["vm"], false);
            var w' := w.(cr := Stored(w.cr, Observe(w.cr, a), true));
            Step(w, Event.Reconcile(a, true, true, true), w') && w'.log.puts == 0 && Stale(w', "vm")
  {
    assert |"10.0.0.1"| == 8 && |"vm"| == 2;
    assert "new"[0] != "old"[0];
  }

  lemma {:induction false} ParamsKept(worlds: seq<World>, events: seq<Event>)
    requires Run(worlds, events) && forall i :: 0 <= i < |events| ==> !events[i].Edit?
    ensures worlds[|events|].cr.params == worlds[0].cr.params
    decreases events
  {
    if events != [] {
      if events[0].Reconcile? {
        Runs.ObserveFrame(worlds[0].cr, events[0].answers);
      }
      ParamsKept(worlds[1..], events[1..]);
    }
  }

  /** A larger disk is never sent: whatever comes after the edit, but further edits and a
      vanishing VM, the server keeps the old size, and nothing is sent. */
  lemma DiskSizeNeverSent(worlds: seq<World>, events: seq<Event>)
    requires Run(worlds, events) && events != []
    requires var p := ImageOnly("image", None).(diskSize := Some(50));
             worlds[0] == Deployed(p, p) && events[0] == Edit(p.(diskSize := Some(100)))
    requires forall i :: 1 <= i < |events| ==> !events[i].Edit? && !events[i].Vanish?
    ensures var w := worlds[|events|];
            && w.cr.params.diskSize == Some(100)
            && "vm" in w.server && w.server["vm"].spec.diskSize == Some(50.0)
            && w.log.posts == 0 && w.log.puts == 0
  {
    assert |"vm"| == 2;
    ExactWithinLimit(50);
    assert forall i :: 0 <= i < |events[1..]| ==> events[1..][i] == events[i + 1];
    QuietForever(worlds, events);
    ParamsKept(worlds[1..], events[1..]);
  }
}
