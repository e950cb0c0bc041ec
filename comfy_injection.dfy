/**
 * Parameter injection and seed randomisation (generateWithComfy in
 * services/comfyService.ts): UI values are written into a copy of the
 * workflow graph at the node/field each page mapping names, then every
 * seed-like input gets a fresh random value.
 */
module ComfyInjection {
  import opened Wrappers
  import opened Json
  import opened RandomSource
  import opened Types

  // ---------------------------------------------------------------------
  // inject
  // ---------------------------------------------------------------------

  /** The guard of `inject`: node id and field are truthy and the node exists.
      An absent id or field is passed as "", which is falsy as well. */
  predicate Applies(g: Graph, nodeId: string, field: string) {
    nodeId != "" && field != "" && nodeId in Keys(g)
  }

  /** The node after `inputs[field] = val`, with `inputs` created when missing. */
  function WithInput(n: Node, field: string, val: Value): Node {
    n.(inputs := Some(Put(n.inputs.GetOr([]), field, val)))
  }

  /** The `inject` closure: write `val` at `graph[nodeId].inputs[field]`. */
  function Inject(g: Graph, nodeId: string, field: string, val: Value): Graph {
    if nodeId != "" && field != "" && Get(g, nodeId).Some? then
      Put(g, nodeId, WithInput(Get(g, nodeId).value, field, val))
    else g
  }

  /** Without the guard, injection leaves the graph as it is and cannot fail. */
  lemma InjectSkips(g: Graph, nodeId: string, field: string, val: Value)
    requires !Applies(g, nodeId, field)
    ensures Inject(g, nodeId, field, val) == g
  {
    GetFindsFirst(g, nodeId);
  }

  /** With the guard, injection replaces the node in place: the node's entry
      now reads `val` at `field`, other inputs, its type and title are as
      before, and every other node is untouched. */
  lemma InjectWrites(g: Graph, nodeId: string, field: string, val: Value)
    requires Applies(g, nodeId, field)
    ensures var p := IndexOf(g, nodeId);
            var n := g[p].1;
            var r := Inject(g, nodeId, field, val);
            && r == g[p := (nodeId, WithInput(n, field, val))]
            && Keys(r) == Keys(g)
            && r[p].1.classType == n.classType && r[p].1.title == n.title
            && Get(r[p].1.inputs.value, field) == Some(val)
            && forall f :: f != field ==> Get(r[p].1.inputs.value, f) == Get(n.inputs.GetOr([]), f)
  {
    var p := IndexOf(g, nodeId);
    var n := g[p].1;
    GetFindsFirst(g, nodeId);
    PutShape(g, nodeId, WithInput(n, field, val));
    KeysPut(g, nodeId, WithInput(n, field, val));
    forall f ensures Get(Put(n.inputs.GetOr([]), field, val), f) == if f == field then Some(val) else Get(n.inputs.GetOr([]), f) {
      GetPut(n.inputs.GetOr([]), field, val, f);
    }
  }

  /** Whatever the guard says, injection keeps the node ids and leaves every
      node but `nodeId` as it was. */
  lemma InjectFrame(g: Graph, nodeId: string, field: string, val: Value)
    ensures Keys(Inject(g, nodeId, field, val)) == Keys(g)
    ensures forall k :: k != nodeId ==> Get(Inject(g, nodeId, field, val), k) == Get(g, k)
  {
    if nodeId != "" && field != "" && Get(g, nodeId).Some? {
      var n := WithInput(Get(g, nodeId).value, field, val);
      GetFindsFirst(g, nodeId);
      KeysPut(g, nodeId, n);
      forall k | k != nodeId ensures Get(Put(g, nodeId, n), k) == Get(g, k) {
        GetPut(g, nodeId, n, k);
      }
    }
  }

  // ---------------------------------------------------------------------
  // The sequence of injections of one submission
  // ---------------------------------------------------------------------

  /** What the uploaded reference image is: its stored name is learnt from the backend. */
  datatype ImageFile = ImageFile(fileName: string)

  /** The values a generation page passes. */
  datatype GenParams = GenParams(
    prompt: string, negativePrompt: string, model: string,
    batchSize: int, width: int, height: int, image: Option<ImageFile>)

  /** `mappings.m?.nodeId` and `mappings.m?.field`, "" when the mapping is absent. */
  function Target(mappings: map<ModuleType, MappingConfig>, m: ModuleType): (string, string) {
    if m in mappings then (mappings[m].nodeId, mappings[m].field) else ("", "")
  }

  function OrEmpty(s: Option<string>): string {
    s.GetOr("")
  }

  /** One `inject` call: where it writes and what. */
  datatype Write = Write(nodeId: string, field: string, val: Value)

  /** The `inject` call of a module that has a node/field mapping. */
  function ModuleWrite(mappings: map<ModuleType, MappingConfig>, m: ModuleType, val: Value): Write {
    Write(Target(mappings, m).0, Target(mappings, m).1, val)
  }

  /** The `inject` calls of one submission, in the source's order: prompt,
      negative prompt, model, batch size, uploaded file name, then width and
      height when an aspect-ratio mapping exists. */
  function Writes(mappings: map<ModuleType, MappingConfig>, params: GenParams, uploaded: string): seq<Write> {
    [ModuleWrite(mappings, Prompt, Str(params.prompt)),
     ModuleWrite(mappings, NegativePrompt, Str(params.negativePrompt)),
     ModuleWrite(mappings, Model, Str(params.model)),
     ModuleWrite(mappings, BatchSize, Num(params.batchSize)),
     ModuleWrite(mappings, ImageUpload, Str(uploaded))] +
    if AspectRatio in mappings then
      var ar := mappings[AspectRatio];
      [Write(OrEmpty(ar.widthNodeId), OrEmpty(ar.widthField), Num(params.width)),
       Write(OrEmpty(ar.heightNodeId), OrEmpty(ar.heightField), Num(params.height))]
    else []
  }

  /** The calls one after the other, each on the graph the previous one left. */
  function InjectEach(g: Graph, ws: seq<Write>): Graph
    decreases |ws|
  {
    if |ws| == 0 then g else InjectEach(Inject(g, ws[0].nodeId, ws[0].field, ws[0].val), ws[1..])
  }

  /** The graph after all the injections of one submission. */
  function InjectAll(g: Graph, mappings: map<ModuleType, MappingConfig>, params: GenParams, uploaded: string): (r: Graph)
    ensures Keys(r) == Keys(g)
    ensures forall k :: k !in TargetNodes(mappings) ==> Get(r, k) == Get(g, k)
  {
    var ws := Writes(mappings, params, uploaded);
    InjectEachFrame(g, ws);
    assert forall w :: w in ws ==> w.nodeId in TargetNodes(mappings);
    InjectEach(g, ws)
  }

  /** The node ids the mappings point the injections at. */
  function TargetNodes(mappings: map<ModuleType, MappingConfig>): set<string> {
    {Target(mappings, Prompt).0, Target(mappings, NegativePrompt).0, Target(mappings, Model).0,
     Target(mappings, BatchSize).0, Target(mappings, ImageUpload).0} +
    (if AspectRatio in mappings
     then {OrEmpty(mappings[AspectRatio].widthNodeId), OrEmpty(mappings[AspectRatio].heightNodeId)}
     else {})
  }

  /** A run of injections keeps the node ids and every node none of them names. */
  lemma {:induction false} InjectEachFrame(g: Graph, ws: seq<Write>)
    ensures Keys(InjectEach(g, ws)) == Keys(g)
    ensures forall k :: (forall w :: w in ws ==> w.nodeId != k) ==> Get(InjectEach(g, ws), k) == Get(g, k)
    decreases |ws|
  {
    if |ws| > 0 {
      var w := ws[0];
      InjectFrame(g, w.nodeId, w.field, w.val);
      InjectEachFrame(Inject(g, w.nodeId, w.field, w.val), ws[1..]);
      assert forall x :: x in ws[1..] ==> x in ws;
    }
  }

  /** `graph[nodeId].inputs[field]`, None when the node, its inputs or the
      field is missing. */
  function InputAt(g: Graph, nodeId: string, field: string): Option<Value> {
    match Get(g, nodeId)
    case None => None
    case Some(n) => if n.inputs.None? then None else Get(n.inputs.value, field)
  }

  /** One injection as the field `field` of node `nodeId` sees it: it now
      holds the injected value when the call writes exactly there, and is as
      before otherwise. */
  lemma InjectReads(g: Graph, w: Write, nodeId: string, field: string)
    ensures InputAt(Inject(g, w.nodeId, w.field, w.val), nodeId, field) ==
            if Applies(g, w.nodeId, w.field) && w.nodeId == nodeId && w.field == field
            then Some(w.val) else InputAt(g, nodeId, field)
  {
    GetFindsFirst(g, w.nodeId);
    if Applies(g, w.nodeId, w.field) {
      var n := Get(g, w.nodeId).value;
      var n' := WithInput(n, w.field, w.val);
      GetPut(g, w.nodeId, n', nodeId);
      GetPut(n.inputs.GetOr([]), w.field, w.val, field);
    }
  }

  /** A run of injections none of which writes at (nodeId, field) leaves it be. */
  lemma {:induction false} InjectEachUntouched(g: Graph, ws: seq<Write>, nodeId: string, field: string)
    requires forall j :: 0 <= j < |ws| ==> ws[j].nodeId != nodeId || ws[j].field != field
    ensures InputAt(InjectEach(g, ws), nodeId, field) == InputAt(g, nodeId, field)
    decreases |ws|
  {
    if |ws| > 0 {
      InjectReads(g, ws[0], nodeId, field);
      InjectEachUntouched(Inject(g, ws[0].nodeId, ws[0].field, ws[0].val), ws[1..], nodeId, field);
    }
  }

  /** The last writer wins: when the m-th injection applies and no later one
      writes at the same node and field, the final graph holds its value there. */
  lemma {:induction false} InjectEachLastWriter(g: Graph, ws: seq<Write>, m: nat)
    requires m < |ws| && Applies(g, ws[m].nodeId, ws[m].field)
    requires forall j :: m < j < |ws| ==> ws[j].nodeId != ws[m].nodeId || ws[j].field != ws[m].field
    ensures InputAt(InjectEach(g, ws), ws[m].nodeId, ws[m].field) == Some(ws[m].val)
    decreases |ws|
  {
    var w := ws[0];
    var g' := Inject(g, w.nodeId, w.field, w.val);
    InjectFrame(g, w.nodeId, w.field, w.val);
    if m == 0 {
      InjectReads(g, w, w.nodeId, w.field);
      InjectEachUntouched(g', ws[1..], w.nodeId, w.field);
    } else {
      InjectEachLastWriter(g', ws[1..], m - 1);
    }
  }

  /** The value each module's injection writes. */
  function ModuleValue(m: ModuleType, params: GenParams, uploaded: string): Value {
    match m
    case Prompt => Str(params.prompt)
    case NegativePrompt => Str(params.negativePrompt)
    case Model => Str(params.model)
    case BatchSize => Num(params.batchSize)
    case ImageUpload => Str(uploaded)
    case _ => Undefined
  }

  /** The position of a module's call in the order of the injections. */
  function ModuleOrder(m: ModuleType): nat {
    match m
    case Prompt => 0
    case NegativePrompt => 1
    case Model => 2
    case BatchSize => 3
    case ImageUpload => 4
    case _ => 7
  }

  /** After all injections, a module's mapped input holds the module's value
      (the uploaded name for the image upload) when the mapping points at an
      existing node and no later injection of the same submission writes the
      same node and field. */
  lemma InjectAllWritesModule(g: Graph, mappings: map<ModuleType, MappingConfig>, params: GenParams, uploaded: string, m: ModuleType)
    requires m in {Prompt, NegativePrompt, Model, BatchSize, ImageUpload}
    requires Applies(g, Target(mappings, m).0, Target(mappings, m).1)
    requires var ws := Writes(mappings, params, uploaded);
             forall j :: ModuleOrder(m) < j < |ws| ==> ws[j].nodeId != Target(mappings, m).0 || ws[j].field != Target(mappings, m).1
    ensures InputAt(InjectAll(g, mappings, params, uploaded), Target(mappings, m).0, Target(mappings, m).1) ==
            Some(ModuleValue(m, params, uploaded))
  {
    var ws := Writes(mappings, params, uploaded);
    assert ws[ModuleOrder(m)] == ModuleWrite(mappings, m, ModuleValue(m, params, uploaded));
    InjectEachLastWriter(g, ws, ModuleOrder(m));
  }

  /** With an aspect-ratio mapping, the width input holds the width unless
      the height is mapped to the same place, and the height input always
      holds the height. */
  lemma InjectAllWritesSize(g: Graph, mappings: map<ModuleType, MappingConfig>, params: GenParams, uploaded: string)
    requires AspectRatio in mappings
    ensures var ar := mappings[AspectRatio];
            var (wn, wf, hn, hf) := (OrEmpty(ar.widthNodeId), OrEmpty(ar.widthField), OrEmpty(ar.heightNodeId), OrEmpty(ar.heightField));
            var r := InjectAll(g, mappings, params, uploaded);
            && (Applies(g, hn, hf) ==> InputAt(r, hn, hf) == Some(Num(params.height)))
            && (Applies(g, wn, wf) && (wn, wf) != (hn, hf) ==> InputAt(r, wn, wf) == Some(Num(params.width)))
  {
    var ws := Writes(mappings, params, uploaded);
    var ar := mappings[AspectRatio];
    assert ws[5] == Write(OrEmpty(ar.widthNodeId), OrEmpty(ar.widthField), Num(params.width));
    assert ws[6] == Write(OrEmpty(ar.heightNodeId), OrEmpty(ar.heightField), Num(params.height));
    if Applies(g, ws[6].nodeId, ws[6].field) {
      InjectEachLastWriter(g, ws, 6);
    }
    if Applies(g, ws[5].nodeId, ws[5].field) && (ws[5].nodeId, ws[5].field) != (ws[6].nodeId, ws[6].field) {
      InjectEachLastWriter(g, ws, 5);
    }
  }

  // ---------------------------------------------------------------------
  // Seed randomisation
  // ---------------------------------------------------------------------

  /** `Math.floor(Math.random() * 1000000000000000)` stays below this bound. */
  const SeedBound: nat := 1000000000000000

  predicate IsSeedKey(k: string) {
    k == "seed" || k == "noise_seed" || k == "seed_int"
  }

  /** `/^\d+$/`: non-empty, ASCII digits only. */
  predicate IsDigits(s: string) {
    |s| > 0 && forall i :: 0 <= i < |s| ==> '0' <= s[i] <= '9'
  }

  /** A number, or a string that looks like one (not a link such as `["4", 0]`). */
  predicate IsSeedValue(v: Value) {
    v.Num? || (v.Str? && IsDigits(v.s))
  }

  predicate InSeedRange(v: Value) {
    v.Num? && 0 <= v.n < SeedBound
  }

  /** One input before and after: same key; a seed-like entry now holds a
      number in [0, 10^15); any other entry is unchanged. */
  predicate EntryReseeded(before: (string, Value), after: (string, Value)) {
    after.0 == before.0 &&
    if IsSeedKey(before.0) && IsSeedValue(before.1) then InSeedRange(after.1) else after.1 == before.1
  }

  predicate InputsReseeded(before: Fields<Value>, after: Fields<Value>) {
    |after| == |before| && forall j :: 0 <= j < |before| ==> EntryReseeded(before[j], after[j])
  }

  predicate NodeReseeded(before: Node, after: Node) {
    && after.classType == before.classType
    && after.title == before.title
    && after.inputs.Some? == before.inputs.Some?
    && (before.inputs.Some? ==> InputsReseeded(before.inputs.value, after.inputs.value))
  }

  /** The whole graph before and after randomisation. */
  predicate GraphReseeded(before: Graph, after: Graph) {
    |after| == |before| &&
    forall i :: 0 <= i < |before| ==> after[i].0 == before[i].0 && NodeReseeded(before[i].1, after[i].1)
  }

  /** The seed loop: every node with `inputs`, every key of it, in enumeration
      order; `random(k)` is the k-th call of `Math.random()`. */
  method RandomizeSeeds(g: Graph, random: nat -> Unit) returns (r: Graph)
    ensures GraphReseeded(g, r)
  {
    r := g;
    var calls := 0;
    for i := 0 to |g|
      invariant |r| == |g|
      invariant forall j :: 0 <= j < i ==> r[j].0 == g[j].0 && NodeReseeded(g[j].1, r[j].1)
      invariant forall j :: i <= j < |g| ==> r[j] == g[j]
    {
      var node := r[i].1;
      if node.inputs.Some? {
        var before := node.inputs.value;
        var inputs := before;
        for k := 0 to |before|
          invariant |inputs| == |before|
          invariant forall j :: 0 <= j < k ==> EntryReseeded(before[j], inputs[j])
          invariant forall j :: k <= j < |before| ==> inputs[j] == before[j]
        {
          var key := inputs[k].0;
          if IsSeedKey(key) && IsSeedValue(inputs[k].1) {
            inputs := inputs[k := (key, Num(Scale(random(calls), SeedBound)))];
            calls := calls + 1;
          }
        }
        r := r[i := (r[i].0, node.(inputs := Some(inputs)))];
      }
    }
  }

  /** How a lookup sees randomisation: a key keeps its presence; a seed-like
      value becomes a number in range, any other value stays. */
  lemma {:induction false} GetReseeded(before: Fields<Value>, after: Fields<Value>, k: string)
    requires InputsReseeded(before, after)
    ensures Get(after, k).Some? == Get(before, k).Some?
    ensures Get(before, k).Some? && IsSeedKey(k) && IsSeedValue(Get(before, k).value) ==> InSeedRange(Get(after, k).value)
    ensures Get(before, k).Some? && !(IsSeedKey(k) && IsSeedValue(Get(before, k).value)) ==> Get(after, k) == Get(before, k)
  {
    if |before| > 0 {
      assert EntryReseeded(before[0], after[0]);
      if before[0].0 != k {
        assert InputsReseeded(before[1..], after[1..]) by {
          forall j | 0 <= j < |before| - 1 ensures EntryReseeded(before[1..][j], after[1..][j]) {
            assert EntryReseeded(before[j + 1], after[j + 1]);
          }
        }
        GetReseeded(before[1..], after[1..], k);
      }
    }
  }

  lemma {:induction false} GetNodeReseeded(before: Graph, after: Graph, id: string)
    requires GraphReseeded(before, after)
    ensures Get(after, id).Some? == Get(before, id).Some?
    ensures Get(before, id).Some? ==> NodeReseeded(Get(before, id).value, Get(after, id).value)
  {
    if |before| > 0 && before[0].0 != id {
      assert GraphReseeded(before[1..], after[1..]) by {
        forall j | 0 <= j < |before| - 1 ensures after[1..][j].0 == before[1..][j].0 && NodeReseeded(before[1..][j].1, after[1..][j].1) {
          assert after[j + 1].0 == before[j + 1].0 && NodeReseeded(before[j + 1].1, after[j + 1].1);
        }
      }
      GetNodeReseeded(before[1..], after[1..], id);
    }
  }

  /** Randomisation runs after injection: an injected value survives it unless
      the field is a seed key and the value looks numeric, in which case the
      value sent is a fresh seed in range. */
  lemma InjectThenReseed(g: Graph, nodeId: string, field: string, val: Value, sent: Graph)
    requires Applies(g, nodeId, field)
    requires GraphReseeded(Inject(g, nodeId, field, val), sent)
    ensures Get(sent, nodeId).Some? && Get(sent, nodeId).value.inputs.Some?
    ensures var v := Get(Get(sent, nodeId).value.inputs.value, field);
            v.Some? && if IsSeedKey(field) && IsSeedValue(val) then InSeedRange(v.value) else v.value == val
  {
    var injected := Inject(g, nodeId, field, val);
    InjectWrites(g, nodeId, field, val);
    var p := IndexOf(g, nodeId);
    GetFindsFirst(injected, nodeId);
    assert Keys(injected) == Keys(g);
    assert IndexOf(injected, nodeId) == p by {
      assert injected[p].0 == nodeId;
      assert forall j :: 0 <= j < p ==> injected[j].0 == g[j].0;
    }
    GetNodeReseeded(injected, sent, nodeId);
    GetReseeded(injected[p].1.inputs.value, Get(sent, nodeId).value.inputs.value, field);
  }

  /** Randomisation keeps every input present; it replaces a seed-like value
      under a seed key by a seed in range and leaves any other value. */
  lemma ReseedKeepsInput(before: Graph, after: Graph, nodeId: string, field: string)
    requires GraphReseeded(before, after) && InputAt(before, nodeId, field).Some?
    ensures var v := InputAt(before, nodeId, field).value;
            InputAt(after, nodeId, field).Some? &&
            if IsSeedKey(field) && IsSeedValue(v) then InSeedRange(InputAt(after, nodeId, field).value)
            else InputAt(after, nodeId, field) == Some(v)
  {
    GetNodeReseeded(before, after, nodeId);
    GetReseeded(Get(before, nodeId).value.inputs.value, Get(after, nodeId).value.inputs.value, field);
  }

  /** What is sent for a module: the module's value reaches the submitted
      graph when its mapping applies and no later injection overwrites it,
      unless it is a seed-like value under a seed key. */
  lemma ModuleValueSent(g: Graph, mappings: map<ModuleType, MappingConfig>, params: GenParams, uploaded: string,
                        m: ModuleType, sent: Graph)
    requires m in {Prompt, NegativePrompt, Model, BatchSize, ImageUpload}
    requires Applies(g, Target(mappings, m).0, Target(mappings, m).1)
    requires var ws := Writes(mappings, params, uploaded);
             forall j :: ModuleOrder(m) < j < |ws| ==> ws[j].nodeId != Target(mappings, m).0 || ws[j].field != Target(mappings, m).1
    requires GraphReseeded(InjectAll(g, mappings, params, uploaded), sent)
    ensures var (nodeId, field) := Target(mappings, m);
            var v := ModuleValue(m, params, uploaded);
            InputAt(sent, nodeId, field).Some? &&
            if IsSeedKey(field) && IsSeedValue(v) then InSeedRange(InputAt(sent, nodeId, field).value)
            else InputAt(sent, nodeId, field) == Some(v)
  {
    InjectAllWritesModule(g, mappings, params, uploaded, m);
    ReseedKeepsInput(InjectAll(g, mappings, params, uploaded), sent, Target(mappings, m).0, Target(mappings, m).1);
  }

  /** Without an uploaded image the mapped image input is sent as `''`: the
      empty name is no seed value, so randomisation leaves it. */
  lemma NoUploadSendsEmptyName(g: Graph, mappings: map<ModuleType, MappingConfig>, params: GenParams, sent: Graph)
    requires Applies(g, Target(mappings, ImageUpload).0, Target(mappings, ImageUpload).1)
    requires AspectRatio in mappings ==>
               var ar := mappings[AspectRatio];
               && (OrEmpty(ar.widthNodeId), OrEmpty(ar.widthField)) != Target(mappings, ImageUpload)
               && (OrEmpty(ar.heightNodeId), OrEmpty(ar.heightField)) != Target(mappings, ImageUpload)
    requires GraphReseeded(InjectAll(g, mappings, params, ""), sent)
    ensures InputAt(sent, Target(mappings, ImageUpload).0, Target(mappings, ImageUpload).1) == Some(Str(""))
  {
    ModuleValueSent(g, mappings, params, "", ImageUpload, sent);
  }
}
