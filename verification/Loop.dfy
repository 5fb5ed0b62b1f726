/** The runtime's loop around the controller: read the stored resource, observe, act, store.
    It carries the bound on executions down to the commands that ran on the VM. */
module Loop {
  import opened Wrappers
  import opened Api
  import opened Session
  import opened Reconcile
  import opened Controller
  import Runs

  /** What happens next, and what the outside makes of it: an edit of the spec, or one
      reconcile with its HTTP answers, the reply code of a write, and the lost writes. */
  datatype Tick =
    | Edit(params: Params)
    | Reconcile(http: Answers, code: Option<int>, deleting: bool, statusStored: bool, nameStored: bool)

  /** A write to the API: the name in the path or body, and the specification sent. */
  datatype Request = Post(name: string, spec: Spec) | Put(name: string, spec: Spec) | Delete(name: string)

  function LostTicks(ticks: seq<Tick>): nat {
    if ticks == [] then 0
    else LostTicks(ticks[..|ticks| - 1])
         + (if ticks[|ticks| - 1].Reconcile? && !ticks[|ticks| - 1].statusStored then 1 else 0)
  }

  lemma {:induction false} RunAppends(s: Runs.State, events: seq<Runs.Event>, e: Runs.Event)
    ensures Runs.Run(s, events + [e]) == Runs.Step(Runs.Run(s, events), e)
    decreases events
  {
    if events == [] {
      assert [] + [e] == [e] && [e][1..] == [];
    } else {
      assert (events + [e])[1..] == events[1..] + [e];
      RunAppends(Runs.Step(s, events[0]), events[1..], e);
    }
  }

  lemma {:induction false} LostAppends(events: seq<Runs.Event>, e: Runs.Event)
    ensures Runs.LostWrites(events + [e])
         == Runs.LostWrites(events) + (if e.Reconcile? && !e.statusStored then 1 else 0)
  {
    if events == [] {
      assert [] + [e] == [e] && [e][1..] == [];
    } else {
      assert (events + [e])[1..] == events[1..] + [e];
      LostAppends(events[1..], e);
    }
  }

  /** Every run of an uploaded script is counted. */
  lemma ScriptCounts(runs: seq<Ran>, r: Ran, env: map<string, string>)
    requires RunsScript(r.command, env)
    ensures Scripts(runs + [r]) == Scripts(runs) + 1
  {
    ScriptsAppend(runs, r);
  }

  /** What one operation adds is at most one script command, and that only if it says so. */
  lemma AddedScripts(before: seq<Ran>, after: seq<Ran>, script: Script, live: map<nat, Kind>, ran: bool, outcome: Outcome)
    requires Added(before, after, script, live, ran, outcome)
    ensures Scripts(after) <= Scripts(before) + (if ran then 1 else 0)
  {
    var n := |before|;
    if after != before {
      assert after[..n + 1] == before + [after[n]];
      ScriptsAppend(before, after[n]);
      if |after| == n + 2 {
        assert after == after[..n + 1] + [after[n + 1]];
        ScriptsAppend(after[..n + 1], after[n + 1]);
      } else {
        assert after == after[..n + 1];
      }
    }
  }

  /** One reconcile of the stored resource, and the one write it sends, if any. */
  method ReconcileOnce(stored: CR, t: Tick, host: Host)
    returns (next: CR, request: Option<Request>, ghost e: Runs.Event)
    requires t.Reconcile? && host.Valid()
    modifies host
    ensures host.Valid() && host.live == old(host.live)
    ensures e.Reconcile? && e.statusStored == t.statusStored
    ensures e.answers == WithSSH(t.http, e.answers.sshReady, e.answers.run)
    ensures request ==
              var r := Observe(stored, e.answers);
              if r.err.Some? then None
              else if t.deleting then (if r.found then Some(Delete(stored.externalName)) else None)
              else if !r.found then Some(Post(stored.name, BuildSpec(stored.params)))
              else if !r.upToDate then Some(Put(stored.externalName, BuildSpec(stored.params)))
              else None
    ensures forall history, lost :: Runs.Step(Runs.State(stored, history, lost), e).cr == next
    ensures Scripts(host.runs) <= Scripts(old(host.runs)) + (if Observe(stored, e.answers).ran then 1 else 0)
  {
    var cr := new VM.Load(stored);
    var client := new External(t.http, host);
    var found, upToDate, err, ran, a := client.ObserveVM(cr);
    AddedScripts(old(host.runs), host.runs, ScriptOf(cr.params), host.live, ran, a.run);
    e := Runs.Reconcile(a, t.statusStored, t.nameStored && !t.deleting);
    Runs.ObserveFrame(stored, a);
    var seen := cr.Value();
    next := if t.statusStored then stored.(obs := seen.obs, ready := seen.ready) else stored;
    request := None;
    if err.None? {
      if t.deleting {
        if found {
          var sent, _ := client.Delete(cr, t.code);
          request := if sent.Some? then Some(Delete(sent.value)) else None;
        }
      } else if !found {
        var body, _ := client.Create(cr, t.code);
        request := Some(Post(body.0, body.1));
        if t.nameStored {
          next := next.(externalName := cr.externalName);
        }
      } else if !upToDate {
        var body, _ := client.Update(cr, t.code);
        request := if body.Some? then Some(Put(body.value.0, body.value.1)) else None;
      }
    }
  }

  /** Over any sequence of edits and reconciles, whatever the API, SSH and the runtime do:
      the script commands run on the VM are at most one plus the lost status writes, and
      none once the stored status is terminal and nothing is lost. */
  method ReconcileAll(start: CR, ticks: seq<Tick>, host: Host) returns (final: CR, ghost events: seq<Runs.Event>)
    requires host.Valid()
    modifies host
    ensures host.Valid() && host.live == old(host.live)
    ensures final == Runs.Run(Runs.State(start, [], 0), events).cr && |events| == |ticks|
    ensures Scripts(host.runs) <=
              Scripts(old(host.runs)) + (if Terminal(start.obs.cloudInitStatus) then 0 else 1) + LostTicks(ticks)
  {
    ghost var s := Runs.State(start, [], 0);
    final, events := start, [];
    for i := 0 to |ticks|
      invariant host.Valid() && host.live == old(host.live)
      invariant |events| == i && final == Runs.Run(s, events).cr
      invariant Runs.LostWrites(events) == LostTicks(ticks[..i])
      invariant Scripts(host.runs) <= Scripts(old(host.runs)) + |Runs.Run(s, events).history|
    {
      ghost var e;
      match ticks[i] {
        case Edit(params) =>
          e := Runs.Edit(params);
          final := final.(params := params);
        case Reconcile(_, _, _, _, _) =>
          var request;
          final, request, e := ReconcileOnce(final, ticks[i], host);
      }
      RunAppends(s, events, e);
      LostAppends(events, e);
      assert ticks[..i + 1][..i] == ticks[..i];
      events := events + [e];
    }
    assert ticks[..|ticks|] == ticks;
    Runs.AtMostOnce(s, events);
  }
}
