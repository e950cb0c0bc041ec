/**
 * The configuration edits of components/AdminDashboard.tsx: the node list
 * of a bound workflow, reordering, deleting and toggling pages, patching
 * pages and servers, module toggles and field mappings, departments.
 *
 * Each handler is a function (or a method that changes nothing outside
 * itself) from the current list to the list it saves.
 */
module AdminConsole {
  import opened Wrappers
  import opened Json
  import opened Lists
  import opened Types
  import opened ComfyStorage

  // ---------------------------------------------------------------------
  // getAvailableNodes
  // ---------------------------------------------------------------------

  /** An entry of the node picker. */
  datatype NodeInfo = NodeInfo(id: string, kind: Option<string>, title: string, inputs: seq<string>)

  /** `_meta?.title || class_type || "Node " + id`. */
  function NodeTitle(id: string, n: Node): string {
    if Truthy(n.title) then n.title.value
    else if Truthy(n.classType) then n.classType.value
    else "Node " + id
  }

  function Describe(id: string, n: Node): NodeInfo {
    NodeInfo(id, n.classType, NodeTitle(id, n), Keys(n.inputs.GetOr([])))
  }

  /** The graph bound to a workflow id, if the id is set, stored and has an `apiJson`. */
  function BoundGraph(workflows: seq<Workflow>, workflowId: Option<string>): Option<Graph> {
    if !Truthy(workflowId) then None
    else
      var wf := WorkflowById(workflows, workflowId.value);
      if wf.Some? then wf.value.apiJson else None
  }

  /** `getAvailableNodes`: one entry per node of the bound graph, in key order,
      with the node's input names; empty when nothing is bound. */
  function AvailableNodes(workflows: seq<Workflow>, workflowId: Option<string>): (r: seq<NodeInfo>)
    ensures BoundGraph(workflows, workflowId).None? ==> r == []
    ensures BoundGraph(workflows, workflowId).Some? ==>
              var g := BoundGraph(workflows, workflowId).value;
              |r| == |g| &&
              forall i :: 0 <= i < |g| ==>
                && r[i].id == g[i].0 && r[i].kind == g[i].1.classType
                && r[i].title == (if Truthy(g[i].1.title) then g[i].1.title.value
                                  else if Truthy(g[i].1.classType) then g[i].1.classType.value
                                  else "Node " + g[i].0)
                && r[i].title != ""
                && r[i].inputs == Keys(g[i].1.inputs.GetOr([]))
  {
    match BoundGraph(workflows, workflowId)
    case None => []
    case Some(g) => seq(|g|, i requires 0 <= i < |g| => Describe(g[i].0, g[i].1))
  }

  /** The first input of node `nodeId` of the bound graph, "" if the node is
      unknown or has no inputs. */
  function FirstInput(workflows: seq<Workflow>, workflowId: Option<string>, nodeId: string): string {
    var g := BoundGraph(workflows, workflowId);
    if g.Some? && Get(g.value, nodeId).Some? && |Keys(Get(g.value, nodeId).value.inputs.GetOr([]))| > 0
    then Keys(Get(g.value, nodeId).value.inputs.GetOr([]))[0]
    else ""
  }

  /** `nodes.find(n => n.id === nodeId)` on the picker finds the graph's node,
      so the picker's first input is the graph's first input. */
  lemma {:induction false} PickerFindsNode(workflows: seq<Workflow>, workflowId: Option<string>, nodeId: string)
    ensures var sel := FindFirst(AvailableNodes(workflows, workflowId), (n: NodeInfo) => n.id == nodeId);
            (if sel.Some? && |sel.value.inputs| > 0 then sel.value.inputs[0] else "") ==
            FirstInput(workflows, workflowId, nodeId)
  {
    var nodes := AvailableNodes(workflows, workflowId);
    var sel := FindFirst(nodes, (n: NodeInfo) => n.id == nodeId);
    var g := BoundGraph(workflows, workflowId);
    if g.Some? {
      GetFindsFirst(g.value, nodeId);
      if sel.Some? {
        var i :| 0 <= i < |nodes| && nodes[i] == sel.value && nodes[i].id == nodeId && forall j :: 0 <= j < i ==> nodes[j].id != nodeId;
        assert nodeId in Keys(g.value);
        var p := IndexOf(g.value, nodeId);
        assert nodes[p].id == nodeId;
        assert i == p;
      }
    }
  }

  /** The first input of the picker entry with the id, as the console reads it. */
  function PickerFirstInput(workflows: seq<Workflow>, workflowId: Option<string>, nodeId: string): (s: string)
    ensures s == FirstInput(workflows, workflowId, nodeId)
  {
    PickerFindsNode(workflows, workflowId, nodeId);
    var selected := FindFirst(AvailableNodes(workflows, workflowId), (n: NodeInfo) => n.id == nodeId);
    if selected.Some? && |selected.value.inputs| > 0 then selected.value.inputs[0] else ""
  }

  // ---------------------------------------------------------------------
  // Page list
  // ---------------------------------------------------------------------

  datatype Direction = Up | Down

  /** `moveMenuItem`: swap with the neighbour above or below, when there is
      one, in a copy of the list. The console only passes indices of the list. */
  method MoveMenuItem<T(0)>(configs: seq<T>, index: nat, direction: Direction) returns (r: seq<T>)
    requires index < |configs|
    ensures |r| == |configs| && multiset(r) == multiset(configs)
    ensures var other := if direction == Up then index - 1 else index + 1;
            if 0 <= other < |configs| then
              r[index] == configs[other] && r[other] == configs[index] &&
              forall k :: 0 <= k < |configs| && k != index && k != other ==> r[k] == configs[k]
            else r == configs
  {
    var a := new T[|configs|](i requires 0 <= i < |configs| => configs[i]);
    assert a[..] == configs;
    if direction == Up && index > 0 {
      a[index], a[index - 1] := a[index - 1], a[index];
    } else if direction == Down && index < a.Length - 1 {
      a[index], a[index + 1] := a[index + 1], a[index];
    }
    r := a[..];
    if direction == Up && index > 0 {
      assert r == configs[index := configs[index - 1]][index - 1 := configs[index]];
      SwapKeepsMultiset(configs, index, index - 1);
    } else if direction == Down && index < |configs| - 1 {
      assert r == configs[index := configs[index + 1]][index + 1 := configs[index]];
      SwapKeepsMultiset(configs, index, index + 1);
    }
  }

  /** Exchanging two entries keeps the same entries. */
  lemma SwapKeepsMultiset<T>(s: seq<T>, i: nat, j: nat)
    requires i < |s| && j < |s|
    ensures multiset(s[i := s[j]][j := s[i]]) == multiset(s)
  {
    var t := s[i := s[j]];
    assert multiset(t) == multiset(s) - multiset{s[i]} + multiset{s[j]};
  }

  /** `SYSTEM_PAGE_IDS`: pages that can be disabled but not deleted. */
  const SystemPageIds: seq<string> := ["history", "guestbook", "outfit", "t2i"]

  /** `handleDeletePage`: a system page is refused; otherwise, once the
      admin confirms, every page with the id is removed. */
  function DeletePage(configs: seq<MenuConfig>, id: string, confirmed: bool): (r: seq<MenuConfig>)
    ensures id in SystemPageIds || !confirmed ==> r == configs
    ensures id !in SystemPageIds && confirmed ==> forall c :: c in r <==> c in configs && c.id != id
    ensures id !in SystemPageIds && confirmed ==>
              forall c :: multiset(r)[c] == if c.id != id then multiset(configs)[c] else 0
  {
    if id in SystemPageIds then configs
    else if confirmed then Filter(configs, (c: MenuConfig) => c.id != id)
    else configs
  }

  /** No deletion ever removes a system page. */
  lemma SystemPagesSurvive(configs: seq<MenuConfig>, id: string, confirmed: bool, c: MenuConfig)
    requires c in configs && c.id in SystemPageIds
    ensures c in DeletePage(configs, id, confirmed)
  {
  }

  /** `handleToggleMenu`. */
  function ToggleMenu(configs: seq<MenuConfig>, id: string): (r: seq<MenuConfig>)
    ensures |r| == |configs|
    ensures forall i :: 0 <= i < |configs| ==>
              r[i].id == configs[i].id &&
              (configs[i].id == id ==> r[i].isEnabled == !configs[i].isEnabled) &&
              r[i].(isEnabled := configs[i].isEnabled) == configs[i]
    ensures forall i :: 0 <= i < |configs| && configs[i].id != id ==> r[i] == configs[i]
  {
    seq(|configs|, i requires 0 <= i < |configs| =>
      if configs[i].id == id then configs[i].(isEnabled := !configs[i].isEnabled) else configs[i])
  }

  /** Toggling a page twice restores the list. */
  lemma ToggleMenuTwice(configs: seq<MenuConfig>, id: string)
    ensures ToggleMenu(ToggleMenu(configs, id), id) == configs
  {
    var twice := ToggleMenu(ToggleMenu(configs, id), id);
    assert forall i :: 0 <= i < |configs| ==> twice[i] == configs[i];
  }

  /** The fields of `Partial<MenuConfig>` the console edits. */
  datatype MenuPatch = MenuPatch(
    caption: Option<string>, workflowId: Option<string>, pageTitle: Option<string>,
    pageDesc: Option<string>, outputNodeId: Option<string>, layout: Option<PageLayout>,
    inputMappings: Option<map<ModuleType, MappingConfig>>, modelPresets: Option<seq<ModelPreset>>)

  /** `{ ...m, ...updates }`. */
  function PatchMenu(m: MenuConfig, p: MenuPatch): MenuConfig {
    m.(caption := p.caption.GetOr(m.caption),
       workflowId := if p.workflowId.Some? then p.workflowId else m.workflowId,
       pageTitle := if p.pageTitle.Some? then p.pageTitle else m.pageTitle,
       pageDesc := if p.pageDesc.Some? then p.pageDesc else m.pageDesc,
       outputNodeId := if p.outputNodeId.Some? then p.outputNodeId else m.outputNodeId,
       layout := p.layout.GetOr(m.layout),
       inputMappings := p.inputMappings.GetOr(m.inputMappings),
       modelPresets := p.modelPresets.GetOr(m.modelPresets))
  }

  function LayoutPatch(l: PageLayout): MenuPatch {
    MenuPatch(None, None, None, None, None, Some(l), None, None)
  }

  function MappingsPatch(ms: map<ModuleType, MappingConfig>): MenuPatch {
    MenuPatch(None, None, None, None, None, None, Some(ms), None)
  }

  /** `updateMenuItem`: patch every page with the id, keep the rest. */
  function UpdateMenuItem(configs: seq<MenuConfig>, id: string, p: MenuPatch): (r: seq<MenuConfig>)
    ensures |r| == |configs|
    ensures forall i :: 0 <= i < |configs| ==> r[i].id == configs[i].id && r[i].isEnabled == configs[i].isEnabled
    ensures forall i :: 0 <= i < |configs| && configs[i].id != id ==> r[i] == configs[i]
    ensures forall i :: 0 <= i < |configs| && configs[i].id == id ==>
              && r[i].icon == configs[i].icon
              && r[i].caption == (if p.caption.Some? then p.caption.value else configs[i].caption)
              && r[i].workflowId == (if p.workflowId.Some? then p.workflowId else configs[i].workflowId)
              && r[i].pageTitle == (if p.pageTitle.Some? then p.pageTitle else configs[i].pageTitle)
              && r[i].pageDesc == (if p.pageDesc.Some? then p.pageDesc else configs[i].pageDesc)
              && r[i].outputNodeId == (if p.outputNodeId.Some? then p.outputNodeId else configs[i].outputNodeId)
              && r[i].layout == (if p.layout.Some? then p.layout.value else configs[i].layout)
              && r[i].inputMappings == (if p.inputMappings.Some? then p.inputMappings.value else configs[i].inputMappings)
              && r[i].modelPresets == (if p.modelPresets.Some? then p.modelPresets.value else configs[i].modelPresets)
  {
    seq(|configs|, i requires 0 <= i < |configs| => if configs[i].id == id then PatchMenu(configs[i], p) else configs[i])
  }

  /** Applying the same patch again changes nothing. */
  lemma UpdateMenuItemIdempotent(configs: seq<MenuConfig>, id: string, p: MenuPatch)
    ensures UpdateMenuItem(UpdateMenuItem(configs, id, p), id, p) == UpdateMenuItem(configs, id, p)
  {
    var once := UpdateMenuItem(configs, id, p);
    assert forall i :: 0 <= i < |configs| ==> UpdateMenuItem(once, id, p)[i] == once[i];
  }

  // ---------------------------------------------------------------------
  // Layout modules and mappings
  // ---------------------------------------------------------------------

  /** Flip `isEnabled` of the modules with the id. */
  function FlipModule(modules: seq<LayoutModule>, moduleId: ModuleType): (r: seq<LayoutModule>)
    ensures |r| == |modules|
    ensures forall i :: 0 <= i < |modules| ==>
              r[i].id == modules[i].id && r[i].caption == modules[i].caption &&
              r[i].isEnabled == (if modules[i].id == moduleId then !modules[i].isEnabled else modules[i].isEnabled)
  {
    seq(|modules|, i requires 0 <= i < |modules| =>
      if modules[i].id == moduleId then modules[i].(isEnabled := !modules[i].isEnabled) else modules[i])
  }

  lemma FlipModuleTwice(modules: seq<LayoutModule>, moduleId: ModuleType)
    ensures FlipModule(FlipModule(modules, moduleId), moduleId) == modules
  {
    var twice := FlipModule(FlipModule(modules, moduleId), moduleId);
    assert forall i :: 0 <= i < |modules| ==> twice[i] == modules[i];
  }

  /** `toggleLayoutModule`: flip the module in the page's layout (or in the
      default layout when the page has no module list) and save that layout
      on the page. */
  function ToggleLayoutModule(configs: seq<MenuConfig>, menuId: string, moduleId: ModuleType): (r: seq<MenuConfig>)
    ensures MenuConfigById(configs, menuId).None? ==> r == configs
    ensures MenuConfigById(configs, menuId).Some? ==>
              var menu := MenuConfigById(configs, menuId).value;
              |r| == |configs| &&
              forall i :: 0 <= i < |configs| ==>
                if configs[i].id == menuId
                then r[i] == configs[i].(layout := PageLayout(Some(FlipModule(menu.layout.modules.GetOr(DefaultModules()), moduleId))))
                else r[i] == configs[i]
  {
    match MenuConfigById(configs, menuId)
    case None => configs
    case Some(menu) =>
      var current := menu.layout.modules.GetOr(DefaultModules());
      UpdateMenuItem(configs, menuId, LayoutPatch(PageLayout(Some(FlipModule(current, moduleId)))))
  }

  /** The key of a mapping the console writes. */
  datatype MappingKey = KeyNodeId | KeyField | KeyWidthNodeId | KeyWidthField | KeyHeightNodeId | KeyHeightField

  /** `mapping[key]`. */
  function Read(m: MappingConfig, key: MappingKey): Option<string> {
    match key
    case KeyNodeId => Some(m.nodeId)
    case KeyField => Some(m.field)
    case KeyWidthNodeId => m.widthNodeId
    case KeyWidthField => m.widthField
    case KeyHeightNodeId => m.heightNodeId
    case KeyHeightField => m.heightField
  }

  /** `{ ...mapping, [key]: value }`. */
  function Write(m: MappingConfig, key: MappingKey, value: string): (r: MappingConfig)
    ensures Read(r, key) == Some(value)
    ensures forall k :: k != key ==> Read(r, k) == Read(m, k)
  {
    match key
    case KeyNodeId => m.(nodeId := value)
    case KeyField => m.(field := value)
    case KeyWidthNodeId => m.(widthNodeId := Some(value))
    case KeyWidthField => m.(widthField := Some(value))
    case KeyHeightNodeId => m.(heightNodeId := Some(value))
    case KeyHeightField => m.(heightField := Some(value))
  }

  /** Every page with the id gets the mapping table `ms`, nothing else changes. */
  lemma SetMappings(configs: seq<MenuConfig>, menuId: string, ms: map<ModuleType, MappingConfig>)
    ensures var r := UpdateMenuItem(configs, menuId, MappingsPatch(ms));
            |r| == |configs| &&
            forall i :: 0 <= i < |configs| ==> r[i] == if configs[i].id == menuId then configs[i].(inputMappings := ms) else configs[i]
  {
  }

  /** The mapping after writing `key`, with the field reset to `firstInput` when it resets. */
  function MappingAfter(before: MappingConfig, moduleId: ModuleType, key: MappingKey, value: string, firstInput: string): (m: MappingConfig)
    ensures Read(m, key) == Some(value)
    ensures forall k :: k != key && !(k == KeyField && ResetsField(moduleId, key)) ==> Read(m, k) == Read(before, k)
    ensures ResetsField(moduleId, key) ==> m.field == firstInput
  {
    var w := Write(before, key, value);
    if ResetsField(moduleId, key) then w.(field := firstInput) else w
  }

  function EmptyMapping(): MappingConfig {
    MappingConfig("", "", None, None, None, None)
  }

  /** Page `after` is page `c` whose mapping table is `ms` with module
      `moduleId` updated: `key` reads `value`, other keys keep their
      values (but for a reset field, which reads `firstInput`), and other
      modules keep their mappings. */
  predicate MappingUpdated(
    c: MenuConfig, after: MenuConfig, ms: map<ModuleType, MappingConfig>,
    moduleId: ModuleType, key: MappingKey, value: string, firstInput: string)
  {
    var before := if moduleId in ms then ms[moduleId] else EmptyMapping();
    && after == c.(inputMappings := after.inputMappings)
    && after.inputMappings.Keys == ms.Keys + {moduleId}
    && (forall m :: m in ms && m != moduleId ==> after.inputMappings[m] == ms[m])
    && Read(after.inputMappings[moduleId], key) == Some(value)
    && (forall k :: k != key && !(k == KeyField && ResetsField(moduleId, key)) ==>
          Read(after.inputMappings[moduleId], k) == Read(before, k))
    && (ResetsField(moduleId, key) ==> after.inputMappings[moduleId].field == firstInput)
  }

  lemma MappingAfterUpdates(
    c: MenuConfig, ms: map<ModuleType, MappingConfig>,
    moduleId: ModuleType, key: MappingKey, value: string, firstInput: string)
    ensures var before := if moduleId in ms then ms[moduleId] else EmptyMapping();
            MappingUpdated(c, c.(inputMappings := ms[moduleId := MappingAfter(before, moduleId, key, value, firstInput)]),
                           ms, moduleId, key, value, firstInput)
  {
  }

  /** Writing the new mapping table onto the page with the id updates that
      page as MappingUpdated says and leaves the others alone. */
  lemma PagesAfterMappingUpdate(
    configs: seq<MenuConfig>, menuId: string, ms: map<ModuleType, MappingConfig>,
    moduleId: ModuleType, key: MappingKey, value: string, firstInput: string)
    ensures var before := if moduleId in ms then ms[moduleId] else EmptyMapping();
            var r := UpdateMenuItem(configs, menuId, MappingsPatch(ms[moduleId := MappingAfter(before, moduleId, key, value, firstInput)]));
            |r| == |configs| &&
            forall i :: 0 <= i < |configs| ==>
              if configs[i].id != menuId then r[i] == configs[i]
              else MappingUpdated(configs[i], r[i], ms, moduleId, key, value, firstInput)
  {
    var before := if moduleId in ms then ms[moduleId] else EmptyMapping();
    var after := ms[moduleId := MappingAfter(before, moduleId, key, value, firstInput)];
    SetMappings(configs, menuId, after);
    forall i | 0 <= i < |configs| && configs[i].id == menuId
      ensures MappingUpdated(configs[i], UpdateMenuItem(configs, menuId, MappingsPatch(after))[i], ms, moduleId, key, value, firstInput)
    {
      MappingAfterUpdates(configs[i], ms, moduleId, key, value, firstInput);
    }
  }

  /** Choosing a node for a module other than aspect ratio also resets its field. */
  predicate ResetsField(moduleId: ModuleType, key: MappingKey) {
    key == KeyNodeId && moduleId != AspectRatio
  }

  /** `updateModuleMapping`: set one key of the module's mapping on the page;
      choosing a node (outside aspect ratio) resets the field to that node's
      first input, or "" when the node is unknown or has no inputs. Other
      modules' mappings and all other pages are unchanged. */
  method UpdateModuleMapping(
    configs: seq<MenuConfig>, workflows: seq<Workflow>,
    menuId: string, moduleId: ModuleType, key: MappingKey, value: string)
    returns (r: seq<MenuConfig>)
    ensures MenuConfigById(configs, menuId).None? ==> r == configs
    ensures MenuConfigById(configs, menuId).Some? ==>
              var menu := MenuConfigById(configs, menuId).value;
              |r| == |configs| &&
              forall i :: 0 <= i < |configs| ==>
                if configs[i].id != menuId then r[i] == configs[i]
                else MappingUpdated(configs[i], r[i], menu.inputMappings, moduleId, key, value,
                                    FirstInput(workflows, menu.workflowId, value))
  {
    var found := MenuConfigById(configs, menuId);
    if found.None? {
      return configs;
    }
    var menu := found.value;
    var currentMappings := menu.inputMappings;
    var current := if moduleId in currentMappings then currentMappings[moduleId] else EmptyMapping();
    // the picker's first input; MappingAfter reads it only when the field resets
    var firstInput := PickerFirstInput(workflows, menu.workflowId, value);
    var updated := MappingAfter(current, moduleId, key, value, firstInput);
    currentMappings := currentMappings[moduleId := updated];
    r := UpdateMenuItem(configs, menuId, MappingsPatch(currentMappings));
    PagesAfterMappingUpdate(configs, menuId, menu.inputMappings, moduleId, key, value, firstInput);
  }

  // ---------------------------------------------------------------------
  // Servers and departments
  // ---------------------------------------------------------------------

  /** The fields of `Partial<ComfyServer>` the console edits. */
  datatype ServerPatch = ServerPatch(name: Option<string>, url: Option<string>, isEnabled: Option<bool>, allowedDepartments: Option<seq<string>>)

  function PatchServer(s: ComfyServer, p: ServerPatch): ComfyServer {
    s.(name := p.name.GetOr(s.name), url := p.url.GetOr(s.url), isEnabled := p.isEnabled.GetOr(s.isEnabled),
       allowedDepartments := p.allowedDepartments.GetOr(s.allowedDepartments))
  }

  /** `updateServer`: patch every server with the id, keep the rest. */
  function UpdateServer(servers: seq<ComfyServer>, id: string, p: ServerPatch): (r: seq<ComfyServer>)
    ensures |r| == |servers|
    ensures forall i :: 0 <= i < |servers| ==> r[i].id == servers[i].id
    ensures forall i :: 0 <= i < |servers| && servers[i].id != id ==> r[i] == servers[i]
    ensures forall i :: 0 <= i < |servers| && servers[i].id == id ==>
              && r[i].name == (if p.name.Some? then p.name.value else servers[i].name)
              && r[i].url == (if p.url.Some? then p.url.value else servers[i].url)
              && r[i].isEnabled == (if p.isEnabled.Some? then p.isEnabled.value else servers[i].isEnabled)
              && r[i].allowedDepartments == (if p.allowedDepartments.Some? then p.allowedDepartments.value else servers[i].allowedDepartments)
  {
    seq(|servers|, i requires 0 <= i < |servers| => if servers[i].id == id then PatchServer(servers[i], p) else servers[i])
  }

  /** The department list after a click: removed if present, appended if not. */
  function FlipDepartment(depts: seq<string>, dept: string): (r: seq<string>)
    ensures dept in r <==> dept !in depts
    ensures forall d :: d != dept ==> (d in r <==> d in depts)
    // a new department goes at the end
    ensures dept !in depts ==> r == depts + [dept]
    // a listed one is removed, every occurrence of it and nothing else
    ensures dept in depts ==> r == RemoveDepartment(depts, dept)
    ensures dept in depts ==> forall d :: multiset(r)[d] == if d != dept then multiset(depts)[d] else 0
  {
    if dept in depts then RemoveDepartment(depts, dept) else depts + [dept]
  }

  /** Flipping keeps a duplicate-free list duplicate-free. */
  lemma FlipDepartmentNoDuplicates(depts: seq<string>, dept: string)
    requires NoDuplicates(depts)
    ensures NoDuplicates(FlipDepartment(depts, dept))
  {
  }

  /** Flipping twice restores a duplicate-free list whose department was
      at the end or absent. */
  lemma FlipDepartmentTwice(depts: seq<string>, dept: string)
    requires NoDuplicates(depts) && dept !in depts
    ensures FlipDepartment(FlipDepartment(depts, dept), dept) == depts
  {
    RemoveDepartmentAt(depts + [dept], dept, |depts|);
    assert (depts + [dept])[..|depts|] == depts;
  }

  /** `toggleServerDept`: flip the department's membership on the server. */
  function ToggleServerDept(servers: seq<ComfyServer>, serverId: string, dept: string): (r: seq<ComfyServer>)
    ensures FindFirst(servers, (s: ComfyServer) => s.id == serverId).None? ==> r == servers
    ensures FindFirst(servers, (s: ComfyServer) => s.id == serverId).Some? ==>
              var srv := FindFirst(servers, (s: ComfyServer) => s.id == serverId).value;
              |r| == |servers| &&
              forall i :: 0 <= i < |servers| ==>
                if servers[i].id == serverId
                then r[i] == servers[i].(allowedDepartments := FlipDepartment(srv.allowedDepartments, dept)) &&
                     (dept in r[i].allowedDepartments <==> dept !in srv.allowedDepartments) &&
                     (forall d :: d != dept ==> (d in r[i].allowedDepartments <==> d in srv.allowedDepartments))
                else r[i] == servers[i]
  {
    match FindFirst(servers, (s: ComfyServer) => s.id == serverId)
    case None => servers
    case Some(srv) =>
      UpdateServer(servers, serverId, ServerPatch(None, None, None, Some(FlipDepartment(srv.allowedDepartments, dept))))
  }

  /** `addDepartment`: `prompt()` gives a name or null (None); only a
      non-empty name not yet listed is appended. */
  function AddDepartment(depts: seq<string>, name: Option<string>): (r: seq<string>)
    ensures forall d :: d in r <==> d in depts || (Truthy(name) && d == name.value)
    ensures NoDuplicates(depts) ==> NoDuplicates(r)
    // a new name goes at the end; otherwise the list is unchanged
    ensures Truthy(name) && name.value !in depts ==> r == depts + [name.value]
    ensures !Truthy(name) || name.value in depts ==> r == depts
  {
    if Truthy(name) && name.value !in depts then depts + [name.value] else depts
  }

  /** `removeDepartment`. */
  function RemoveDepartment(depts: seq<string>, name: string): (r: seq<string>)
    ensures forall d :: d in r <==> d in depts && d != name
    ensures forall d :: multiset(r)[d] == if d != name then multiset(depts)[d] else 0
    ensures NoDuplicates(depts) ==> NoDuplicates(r)
  {
    FilterNoDuplicates(depts, (d: string) => d != name);
    Filter(depts, (d: string) => d != name)
  }

  /** In a duplicate-free list, removing the department at index k closes
      the gap and keeps the order of the others. */
  lemma RemoveDepartmentAt(depts: seq<string>, name: string, k: nat)
    requires NoDuplicates(depts) && k < |depts| && depts[k] == name
    ensures RemoveDepartment(depts, name) == depts[..k] + depts[k+1..]
  {
    FilterDropsOne(depts, k, (d: string) => d != name);
  }

}
