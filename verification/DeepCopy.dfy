/** The generated deep copy of the VM parameters.  Go's heap is a sequence of cells and a
    pointer an index into it (None is nil); slices and maps are cells too. */
module DeepCopy {
  import opened Wrappers
  import opened Float32
  import Api

  type Pointer = Option<nat>

  /** An element of the host-directory slice: a struct stored in the slice, whose Ro field
      points elsewhere. */
  datatype HostDir = HostDir(name: string, path: string, ro: Pointer)

  datatype Stored =
    | Int(n: int)
    | Str(s: string)
    | Flag(b: bool)
    | Strings(strings: seq<string>)
    | StringMap(strMap: map<string, string>)
    | IntMap(intMap: map<string, int>)
    | HostDirs(dirs: seq<HostDir>)
    | StartupScript(content: string, env: Pointer)

  type Cells = seq<Stored>

  datatype VMParameters = VMParameters(
    image: string,
    cpu: Pointer,
    memory: Pointer,
    diskSize: Pointer,
    startupScript: Pointer,
    username: Pointer,
    password: Pointer,
    headless: Pointer,
    netBridged: Pointer,
    netSoftnet: Pointer,
    netSoftnetAllow: Pointer,
    netSoftnetBlock: Pointer,
    hostDirs: Pointer,
    labels: Pointer,
    resources: Pointer,
    nested: Pointer,
    suspendable: Pointer,
    imagePullPolicy: Pointer,
    restartPolicy: Pointer)
  {
    /** The fields whose cells hold no further pointers. */
    function Plain(): seq<Pointer> {
      [cpu, memory, diskSize, username, password, headless, netBridged, netSoftnet, netSoftnetAllow,
       netSoftnetBlock, labels, resources, nested, suspendable, imagePullPolicy, restartPolicy]
    }
  }

  // ----- what parameters mean, and what they reach

  predicate InHeap(r: Pointer, cells: Cells) {
    r.Some? ==> r.value < |cells|
  }

  ghost predicate ValidDirs(r: Pointer, cells: Cells) {
    r.Some? ==>
      && r.value < |cells| && cells[r.value].HostDirs?
      && forall i :: 0 <= i < |cells[r.value].dirs| ==> InHeap(cells[r.value].dirs[i].ro, cells)
  }

  ghost predicate ValidScript(r: Pointer, cells: Cells) {
    r.Some? ==> r.value < |cells| && cells[r.value].StartupScript? && InHeap(cells[r.value].env, cells)
  }

  ghost predicate Valid(p: VMParameters, cells: Cells) {
    && (forall i :: 0 <= i < |p.Plain()| ==> InHeap(p.Plain()[i], cells))
    && ValidScript(p.startupScript, cells)
    && ValidDirs(p.hostDirs, cells)
  }

  function Load(r: Pointer, cells: Cells): Option<Stored>
    requires InHeap(r, cells)
  {
    if r.None? then None else Some(cells[r.value])
  }

  datatype DirValue = DirValue(name: string, path: string, ro: Option<Stored>)
  datatype ScriptValue = ScriptValue(content: string, env: Option<Stored>)
  datatype Value = Value(image: string, plain: seq<Option<Stored>>, script: Option<ScriptValue>, dirs: Option<seq<DirValue>>)

  ghost function LoadAll(rs: seq<Pointer>, cells: Cells): seq<Option<Stored>>
    requires forall i :: 0 <= i < |rs| ==> InHeap(rs[i], cells)
  {
    seq(|rs|, i requires 0 <= i < |rs| => Load(rs[i], cells))
  }

  ghost function LoadScript(r: Pointer, cells: Cells): Option<ScriptValue>
    requires ValidScript(r, cells)
  {
    if r.None? then None
    else Some(ScriptValue(cells[r.value].content, Load(cells[r.value].env, cells)))
  }

  ghost function LoadDirSeq(dirs: seq<HostDir>, cells: Cells): seq<DirValue>
    requires forall i :: 0 <= i < |dirs| ==> InHeap(dirs[i].ro, cells)
  {
    seq(|dirs|, i requires 0 <= i < |dirs| => DirValue(dirs[i].name, dirs[i].path, Load(dirs[i].ro, cells)))
  }

  ghost function LoadDirs(r: Pointer, cells: Cells): Option<seq<DirValue>>
    requires ValidDirs(r, cells)
  {
    if r.None? then None else Some(LoadDirSeq(cells[r.value].dirs, cells))
  }

  ghost function ValueOf(p: VMParameters, cells: Cells): Value
    requires Valid(p, cells)
  {
    Value(p.image, LoadAll(p.Plain(), cells), LoadScript(p.startupScript, cells), LoadDirs(p.hostDirs, cells))
  }

  /** Every cell the parameters reach, at any depth. */
  ghost predicate Reaches(p: VMParameters, cells: Cells, a: nat)
    requires Valid(p, cells)
  {
    || (exists i :: 0 <= i < |p.Plain()| && p.Plain()[i] == Some(a))
    || ReachesScript(p.startupScript, cells, a)
    || ReachesDirs(p.hostDirs, cells, a)
  }

  ghost predicate ReachesScript(r: Pointer, cells: Cells, a: nat)
    requires ValidScript(r, cells)
  {
    r.Some? && (a == r.value || cells[r.value].env == Some(a))
  }

  ghost predicate ReachesDirs(r: Pointer, cells: Cells, a: nat)
    requires ValidDirs(r, cells)
  {
    r.Some? && (a == r.value || exists i :: 0 <= i < |cells[r.value].dirs| && cells[r.value].dirs[i].ro == Some(a))
  }

  /** A new cell: at or above `mark`, inside the heap. */
  predicate New(r: Pointer, mark: nat, cells: Cells) {
    r.Some? ==> mark <= r.value < |cells|
  }

  // ----- the copy

  class Heap {
    var cells: Cells

    /** `*out = new(T); **out = **in`, and likewise for a slice or map without pointers. */
    method CopyCell(r: Pointer) returns (q: Pointer)
      requires InHeap(r, cells)
      modifies this
      ensures old(cells) <= cells
      ensures New(q, |old(cells)|, cells) && Load(q, cells) == Load(r, old(cells))
    {
      if r.None? { return None; }
      q := Some(|cells|);
      cells := cells + [cells[r.value]];
    }

    /** The same step for one pointer field after another. */
    method CopyCells(rs: seq<Pointer>) returns (qs: seq<Pointer>)
      requires forall i :: 0 <= i < |rs| ==> InHeap(rs[i], cells)
      modifies this
      ensures old(cells) <= cells && |qs| == |rs|
      ensures forall i :: 0 <= i < |qs| ==> New(qs[i], |old(cells)|, cells) && Load(qs[i], cells) == Load(rs[i], old(cells))
    {
      qs := [];
      for i := 0 to |rs|
        invariant old(cells) <= cells && |qs| == i
        invariant forall j :: 0 <= j < i ==> New(qs[j], |old(cells)|, cells) && Load(qs[j], cells) == Load(rs[j], old(cells))
      {
        var q := CopyCell(rs[i]);
        qs := qs + [q];
      }
    }

    /** VMStartupScript.DeepCopyInto into a new struct. */
    method CopyScript(r: Pointer) returns (q: Pointer)
      requires ValidScript(r, cells)
      modifies this
      ensures old(cells) <= cells && ValidScript(q, cells) && LoadScript(q, cells) == LoadScript(r, old(cells))
      ensures forall a: nat :: ReachesScript(q, cells, a) ==> |old(cells)| <= a < |cells|
    {
      if r.None? { return None; }
      var script := cells[r.value];
      var env := CopyCell(script.env);
      q := Some(|cells|);
      cells := cells + [StartupScript(script.content, env)];
    }

    /** The loop over the host directories; each runs VMHostDir.DeepCopyInto. */
    method CopyDirs(r: Pointer) returns (q: Pointer)
      requires ValidDirs(r, cells)
      modifies this
      ensures old(cells) <= cells && ValidDirs(q, cells) && LoadDirs(q, cells) == LoadDirs(r, old(cells))
      ensures forall a: nat :: ReachesDirs(q, cells, a) ==> |old(cells)| <= a < |cells|
    {
      if r.None? { return None; }
      var dirs := cells[r.value].dirs;
      var out: seq<HostDir> := [];
      for i := 0 to |dirs|
        invariant old(cells) <= cells && |out| == i
        invariant forall j :: 0 <= j < i ==> out[j].name == dirs[j].name && out[j].path == dirs[j].path
        invariant forall j :: 0 <= j < i ==>
                    New(out[j].ro, |old(cells)|, cells) && Load(out[j].ro, cells) == Load(dirs[j].ro, old(cells))
      {
        var ro := CopyCell(dirs[i].ro);
        out := out + [dirs[i].(ro := ro)];
      }
      q := Some(|cells|);
      cells := cells + [HostDirs(out)];
      assert LoadDirSeq(out, cells) == LoadDirSeq(dirs, old(cells));
    }

    /** The copy has the same value, reaches new cells only, and no existing cell changes. */
    method DeepCopyInto(p: VMParameters) returns (out: VMParameters)
      requires Valid(p, cells)
      modifies this
      ensures Copied(p, old(cells), out, cells)
    {
      var plain := CopyCells(p.Plain());
      ghost var c1 := cells;
      ScriptGrows(p.startupScript, old(cells), c1);
      var script := CopyScript(p.startupScript);
      ghost var c2 := cells;
      DirsGrow(p.hostDirs, old(cells), c2);
      var dirs := CopyDirs(p.hostDirs);
      ScriptGrows(script, c2, cells);
      PlainGrows(plain, c1, cells);
      out := FromParts(p.image, plain, script, dirs);
      assert LoadAll(plain, cells) == LoadAll(p.Plain(), old(cells));
    }
  }

  /** What a deep copy leaves behind. */
  ghost predicate Copied(p: VMParameters, before: Cells, out: VMParameters, cells: Cells)
    requires Valid(p, before)
  {
    && before <= cells && Valid(out, cells) && ValueOf(out, cells) == ValueOf(p, before)
    && forall a: nat :: Reaches(out, cells, a) ==> |before| <= a < |cells|
  }

  function FromParts(image: string, plain: seq<Pointer>, script: Pointer, dirs: Pointer): (p: VMParameters)
    requires |plain| == 16
    ensures p.image == image && p.Plain() == plain && p.startupScript == script && p.hostDirs == dirs
  {
    VMParameters(image, plain[0], plain[1], plain[2], script, plain[3], plain[4], plain[5], plain[6], plain[7],
                 plain[8], plain[9], dirs, plain[10], plain[11], plain[12], plain[13], plain[14], plain[15])
  }

  lemma PlainGrows(rs: seq<Pointer>, before: Cells, after: Cells)
    requires before <= after && forall i :: 0 <= i < |rs| ==> InHeap(rs[i], before)
    ensures forall i :: 0 <= i < |rs| ==> InHeap(rs[i], after)
    ensures LoadAll(rs, after) == LoadAll(rs, before)
  {
  }

  lemma ScriptGrows(r: Pointer, before: Cells, after: Cells)
    requires before <= after && ValidScript(r, before)
    ensures ValidScript(r, after) && LoadScript(r, after) == LoadScript(r, before)
    ensures forall a: nat :: ReachesScript(r, after, a) <==> ReachesScript(r, before, a)
  {
  }

  lemma DirsGrow(r: Pointer, before: Cells, after: Cells)
    requires before <= after && ValidDirs(r, before)
    ensures ValidDirs(r, after) && LoadDirs(r, after) == LoadDirs(r, before)
  {
    if r.Some? {
      assert LoadDirSeq(after[r.value].dirs, after) == LoadDirSeq(before[r.value].dirs, before);
    }
  }

  // ----- independence

  /** Two heaps agree on every cell p reaches. */
  ghost predicate Agree(p: VMParameters, before: Cells, after: Cells)
    requires Valid(p, before)
  {
    |before| <= |after| && forall a: nat :: Reaches(p, before, a) && a < |before| ==> after[a] == before[a]
  }

  /** The value depends on the reached cells only. */
  lemma ValueFramed(p: VMParameters, before: Cells, after: Cells)
    requires Valid(p, before) && Agree(p, before, after)
    ensures Valid(p, after) && ValueOf(p, after) == ValueOf(p, before)
    ensures forall a: nat :: Reaches(p, after, a) <==> Reaches(p, before, a)
  {
    var plain := p.Plain();
    forall i | 0 <= i < |plain| && plain[i].Some?
      ensures after[plain[i].value] == before[plain[i].value]
    {
      assert Reaches(p, before, plain[i].value);
    }
    assert LoadAll(plain, after) == LoadAll(plain, before);
    if p.startupScript.Some? {
      var s := p.startupScript.value;
      assert ReachesScript(p.startupScript, before, s);
      assert before[s].env.Some? ==> ReachesScript(p.startupScript, before, before[s].env.value);
    }
    if p.hostDirs.Some? {
      var d := p.hostDirs.value;
      assert ReachesDirs(p.hostDirs, before, d);
      var dirs := before[d].dirs;
      forall i | 0 <= i < |dirs| && dirs[i].ro.Some?
        ensures after[dirs[i].ro.value] == before[dirs[i].ro.value]
      {
        assert ReachesDirs(p.hostDirs, before, dirs[i].ro.value);
      }
      assert LoadDirSeq(dirs, after) == LoadDirSeq(dirs, before);
    }
  }

  /** What a valid parameter value reaches lies inside the heap, and growing the heap, as
      the copy does, changes neither. */
  lemma ReachesInside(p: VMParameters, cells: Cells, after: Cells, a: nat)
    requires Valid(p, cells) && cells <= after
    ensures Valid(p, after) && ValueOf(p, after) == ValueOf(p, cells)
    ensures Reaches(p, after, a) ==> a < |cells|
  {
    ValueFramed(p, cells, after);
  }

  /** Everything that happened to the heap since went through p or to new cells. */
  ghost predicate WrittenThrough(p: VMParameters, cells: Cells, after: Cells)
    requires Valid(p, cells)
  {
    |cells| <= |after| && forall a: nat :: a < |cells| && after[a] != cells[a] ==> Reaches(p, cells, a)
  }

  /** After a deep copy, whatever is written through one of the two never shows in the
      other: neither through the original in the copy, nor the other way round.  The writes
      may allocate, and hang new cells into the value they go through. */
  lemma CopiesIndependent(p: VMParameters, before: Cells, out: VMParameters, cells: Cells, after: Cells)
    requires Valid(p, before) && Copied(p, before, out, cells)
    ensures Valid(p, cells) && ValueOf(p, cells) == ValueOf(out, cells)
    ensures WrittenThrough(p, cells, after) ==> Valid(out, after) && ValueOf(out, after) == ValueOf(out, cells)
    ensures WrittenThrough(out, cells, after) ==> Valid(p, after) && ValueOf(p, after) == ValueOf(p, cells)
  {
    forall a: nat
      ensures Valid(p, cells) && ValueOf(p, cells) == ValueOf(p, before)
      ensures Reaches(p, cells, a) ==> a < |before|
    {
      ReachesInside(p, before, cells, a);
    }
    ReachesInside(p, before, cells, 0);
    if WrittenThrough(p, cells, after) {
      ValueFramed(out, cells, after);
    }
    if WrittenThrough(out, cells, after) {
      ValueFramed(p, cells, after);
    }
  }

  // ----- the values behind the pointers

  function OfInt(o: Option<Int32>): Option<Stored> {
    if o.None? then None else Some(Int(o.value))
  }

  function OfStr(o: Option<string>): Option<Stored> {
    if o.None? then None else Some(Str(o.value))
  }

  function OfFlag(o: Option<bool>): Option<Stored> {
    if o.None? then None else Some(Flag(o.value))
  }

  function OfStrings(o: Option<seq<string>>): Option<Stored> {
    if o.None? then None else Some(Strings(o.value))
  }

  function OfStringMap(o: Option<map<string, string>>): Option<Stored> {
    if o.None? then None else Some(StringMap(o.value))
  }

  function OfIntMap(o: Option<map<string, int>>): Option<Stored> {
    if o.None? then None else Some(IntMap(o.value))
  }

  function OfDirs(dirs: seq<Api.HostDir>): seq<DirValue> {
    seq(|dirs|, i requires 0 <= i < |dirs| => DirValue(dirs[i].name, dirs[i].path, OfFlag(dirs[i].ro)))
  }

  function OfScript(o: Option<Api.Script>): Option<ScriptValue> {
    if o.None? then None else Some(ScriptValue(o.value.content, OfStringMap(o.value.env)))
  }

  /** Does such a structure hold the parameters the controller works on? */
  predicate Holds(v: Value, p: Api.Params) {
    && v.image == p.image && v.script == OfScript(p.startupScript)
    && v.dirs == (if p.hostDirs.None? then None else Some(OfDirs(p.hostDirs.value)))
    && |v.plain| == 16
    && v.plain[0] == OfInt(p.cpu) && v.plain[1] == OfInt(p.memory) && v.plain[2] == OfInt(p.diskSize)
    && v.plain[3] == OfStr(p.username) && v.plain[4] == OfStr(p.password) && v.plain[5] == OfFlag(p.headless)
    && v.plain[6] == OfStr(p.netBridged) && v.plain[7] == OfFlag(p.netSoftnet)
    && v.plain[8] == OfStrings(p.netSoftnetAllow) && v.plain[9] == OfStrings(p.netSoftnetBlock)
    && v.plain[10] == OfStringMap(p.labels) && v.plain[11] == OfIntMap(p.resources)
    && v.plain[12] == OfFlag(p.nested) && v.plain[13] == OfFlag(p.suspendable)
    && v.plain[14] == OfStr(p.imagePullPolicy) && v.plain[15] == OfStr(p.restartPolicy)
  }

  lemma DirsDetermined(a: seq<Api.HostDir>, b: seq<Api.HostDir>)
    requires OfDirs(a) == OfDirs(b)
    ensures a == b
  {
    assert |a| == |OfDirs(a)| == |OfDirs(b)| == |b|;
    forall i | 0 <= i < |a|
      ensures a[i] == b[i]
    {
      assert OfDirs(a)[i] == OfDirs(b)[i];
    }
  }

  lemma HoldsOne(v: Value, a: Api.Params, b: Api.Params)
    requires Holds(v, a) && Holds(v, b)
    ensures a == b
  {
    assert a.cpu == b.cpu && a.memory == b.memory && a.diskSize == b.diskSize;
    assert a.username == b.username && a.password == b.password && a.netBridged == b.netBridged;
    assert a.headless == b.headless && a.netSoftnet == b.netSoftnet;
    assert a.netSoftnetAllow == b.netSoftnetAllow && a.netSoftnetBlock == b.netSoftnetBlock;
    assert a.labels == b.labels && a.resources == b.resources;
    assert a.nested == b.nested && a.suspendable == b.suspendable;
    assert a.imagePullPolicy == b.imagePullPolicy && a.restartPolicy == b.restartPolicy;
    assert a.startupScript == b.startupScript;
    if a.hostDirs.Some? {
      DirsDetermined(a.hostDirs.value, b.hostDirs.value);
    }
  }

  /** A deep copy holds the parameters the original holds, in every field, and no others. */
  lemma CopyHoldsTheSame(p: VMParameters, before: Cells, out: VMParameters, cells: Cells, a: Api.Params, b: Api.Params)
    requires Valid(p, before) && Copied(p, before, out, cells)
    requires Holds(ValueOf(p, before), a)
    ensures Holds(ValueOf(out, cells), b) <==> a == b
  {
    var v := ValueOf(out, cells);
    if Holds(v, b) {
      HoldsOne(v, a, b);
    }
  }
}
