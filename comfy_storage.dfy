/**
 * The storage half of services/comfyService.ts: workflows, page (menu)
 * configurations with their default back-filling, backend servers, the
 * bounded history log and the guestbook.
 *
 * localStorage is abstract: each operation takes the list it reads from its
 * storage key and returns the list it writes back.
 */
module ComfyStorage {
  import opened Wrappers
  import opened Lists
  import opened RandomSource
  import opened Types

  // ---------------------------------------------------------------------
  // Workflows
  // ---------------------------------------------------------------------

  /** `getWorkflowById`. */
  function WorkflowById(ws: seq<Workflow>, id: string): Option<Workflow> {
    FindFirst(ws, (w: Workflow) => w.id == id)
  }

  /** `saveWorkflow`: push onto the stored list. */
  function SaveWorkflow(ws: seq<Workflow>, w: Workflow): (r: seq<Workflow>)
    ensures |r| == |ws| + 1 && r[..|ws|] == ws && r[|ws|] == w
  {
    ws + [w]
  }

  /** A saved workflow is found by its id unless an older one has that id. */
  lemma SaveWorkflowThenFind(ws: seq<Workflow>, w: Workflow)
    ensures WorkflowById(SaveWorkflow(ws, w), w.id) ==
            if WorkflowById(ws, w.id).Some? then WorkflowById(ws, w.id) else Some(w)
  {
    var r := SaveWorkflow(ws, w);
    var found := WorkflowById(r, w.id);
    if WorkflowById(ws, w.id).Some? {
      var i :| 0 <= i < |ws| && ws[i] == WorkflowById(ws, w.id).value && ws[i].id == w.id && forall j :: 0 <= j < i ==> ws[j].id != w.id;
      var k :| 0 <= k < |r| && r[k] == found.value && r[k].id == w.id && forall j :: 0 <= j < k ==> r[j].id != w.id;
      assert r[i] == ws[i];
      assert !(k < i) && !(i < k);
    }
  }

  /** The fields of `Partial<ComfyWorkflow>` the console edits. */
  datatype WorkflowPatch = WorkflowPatch(name: Option<string>, description: Option<string>)

  /** `{ ...w, ...updates }`. */
  function PatchWorkflow(w: Workflow, p: WorkflowPatch): Workflow {
    w.(name := p.name.GetOr(w.name), description := p.description.GetOr(w.description))
  }

  /** `updateWorkflow`: patch every workflow with the id, keep the rest. */
  function UpdateWorkflow(ws: seq<Workflow>, id: string, p: WorkflowPatch): (r: seq<Workflow>)
    ensures |r| == |ws|
    ensures forall i :: 0 <= i < |ws| ==> r[i].id == ws[i].id && r[i].apiJson == ws[i].apiJson && r[i].createdAt == ws[i].createdAt
    ensures forall i :: 0 <= i < |ws| && ws[i].id != id ==> r[i] == ws[i]
    ensures forall i :: 0 <= i < |ws| && ws[i].id == id ==>
              r[i].name == (if p.name.Some? then p.name.value else ws[i].name) &&
              r[i].description == (if p.description.Some? then p.description.value else ws[i].description)
  {
    seq(|ws|, i requires 0 <= i < |ws| => if ws[i].id == id then PatchWorkflow(ws[i], p) else ws[i])
  }

  /** `deleteWorkflow`: drop every workflow with the id. */
  function DeleteWorkflow(ws: seq<Workflow>, id: string): (r: seq<Workflow>)
    ensures forall w :: w in r <==> w in ws && w.id != id
    ensures forall w :: multiset(r)[w] == if w.id != id then multiset(ws)[w] else 0
  {
    Filter(ws, (w: Workflow) => w.id != id)
  }

  /** After deletion the id is gone and every other id resolves as before. */
  lemma {:induction false} DeleteWorkflowLookup(ws: seq<Workflow>, id: string, other: string)
    ensures WorkflowById(DeleteWorkflow(ws, id), id).None?
    ensures other != id ==> WorkflowById(DeleteWorkflow(ws, id), other) == WorkflowById(ws, other)
  {
    var r := DeleteWorkflow(ws, id);
    assert forall i :: 0 <= i < |r| ==> r[i].id != id by {
      forall i | 0 <= i < |r| ensures r[i].id != id { assert r[i] in r; }
    }
    if |ws| > 0 && other != id {
      DeleteWorkflowLookup(ws[1..], id, other);
      if ws[0].id != id {
        assert r == [ws[0]] + DeleteWorkflow(ws[1..], id);
      } else {
        assert r == DeleteWorkflow(ws[1..], id);
      }
    }
  }

  // ---------------------------------------------------------------------
  // Page configurations
  // ---------------------------------------------------------------------

  /** `DEFAULT_LAYOUT.modules`. */
  function DefaultModules(): seq<LayoutModule> {
    [ LayoutModule(Prompt, true, "提示词 (Prompt)"),
      LayoutModule(NegativePrompt, false, "负向提示词"),
      LayoutModule(ImageUpload, false, "上传参考图"),
      LayoutModule(Model, true, "模型选择"),
      LayoutModule(AspectRatio, true, "画面比例"),
      LayoutModule(BatchSize, false, "生成数量"),
      LayoutModule(TextOutput, false, "结果文本显示") ]
  }

  function DefaultLayout(): PageLayout {
    PageLayout(Some(DefaultModules()))
  }

  /** `DEFAULT_MENU_ITEMS`: home, text-to-image, outfit change, history and guestbook. */
  function DefaultMenuItems(): seq<MenuConfig> {
    [ MenuConfig("home", "首页", "Home", None, None, None, true, DefaultLayout(), map[], [], None),
      MenuConfig("t2i", "AI文生图", "Wand2", Some("AI 创意文生图"),
        Some("输入描述，选择模型与比例，AI 将为您生成创意图像。"), None, true,
        PageLayout(Some([
          LayoutModule(Prompt, true, "画面描述"),
          LayoutModule(NegativePrompt, true, "不希望出现的内容"),
          LayoutModule(ImageUpload, false, "上传参考图"),
          LayoutModule(Model, true, "风格模型"),
          LayoutModule(AspectRatio, true, "画面比例"),
          LayoutModule(BatchSize, true, "生成数量"),
          LayoutModule(TextOutput, false, "分析结果文本")])),
        map[], [], None),
      MenuConfig("outfit", "一键换装", "Shirt", Some("智能一键换装"),
        Some("上传模特图与服装图，保持姿势与光影，完美融合。"), None, true,
        PageLayout(Some([
          LayoutModule(ImageUpload, true, "上传模特与服装"),
          LayoutModule(Prompt, true, "换装描述"),
          LayoutModule(Model, false, "模型"),
          LayoutModule(AspectRatio, false, "比例"),
          LayoutModule(BatchSize, false, "数量"),
          LayoutModule(TextOutput, false, "换装分析")])),
        map[], [], None),
      MenuConfig("history", "历史记录", "History", None, None, None, true, DefaultLayout(), map[], [], None),
      MenuConfig("guestbook", "留言板", "MessageSquare", None, None, None, true, DefaultLayout(), map[], [], None) ]
  }

  /** A page configuration as it may be stored: the fields that reading
      back-fills may be missing. */
  datatype RawMenu = RawMenu(
    id: string,
    caption: Option<string>,
    icon: string,
    pageTitle: Option<string>,
    pageDesc: Option<string>,
    workflowId: Option<string>,
    isEnabled: Option<bool>,
    layout: Option<PageLayout>,
    inputMappings: Option<map<ModuleType, MappingConfig>>,
    modelPresets: Option<seq<ModelPreset>>,
    outputNodeId: Option<string>)

  /** What the menu-config key holds: nothing, text that does not parse, a
      JSON value that is not an array, or an array whose `null` entries are None. */
  datatype StoredMenus = Absent | Unparseable | NotAList | Items(entries: seq<Option<RawMenu>>)

  /** The back-filling applied to each stored page. */
  function Backfill(m: RawMenu): (c: MenuConfig)
    ensures c.id == m.id && c.icon == m.icon && c.workflowId == m.workflowId && c.outputNodeId == m.outputNodeId
    ensures c.caption != "" && (Truthy(m.caption) ==> c.caption == m.caption.value)
    ensures !Truthy(m.caption) ==> c.caption == "Unknown Page"
    ensures c.isEnabled == (m.isEnabled != Some(false))
    ensures c.pageTitle == m.pageTitle && c.pageDesc == m.pageDesc
    ensures c.layout == if m.layout.Some? then m.layout.value else DefaultLayout()
    ensures c.inputMappings == if m.inputMappings.Some? then m.inputMappings.value else map[]
    ensures c.modelPresets == if m.modelPresets.Some? then m.modelPresets.value else []
  {
    MenuConfig(
      m.id,
      if Truthy(m.caption) then m.caption.value else "Unknown Page",
      m.icon, m.pageTitle, m.pageDesc, m.workflowId,
      m.isEnabled.GetOr(true),
      m.layout.GetOr(DefaultLayout()),
      m.inputMappings.GetOr(map[]),
      m.modelPresets.GetOr([]),
      m.outputNodeId)
  }

  /** `getMenuConfigs`: the defaults unless the key holds a non-empty array;
      a `null` entry makes the back-filling throw, which also yields the defaults. */
  function MenuConfigs(stored: StoredMenus): (cs: seq<MenuConfig>)
    ensures |cs| > 0
    ensures forall i :: 0 <= i < |cs| ==> cs[i].caption != ""
    ensures stored.Items? && |stored.entries| > 0 && (forall i :: 0 <= i < |stored.entries| ==> stored.entries[i].Some?) ==>
              |cs| == |stored.entries| &&
              forall i :: 0 <= i < |cs| ==> cs[i] == Backfill(stored.entries[i].value)
    ensures !(stored.Items? && |stored.entries| > 0 && (forall i :: 0 <= i < |stored.entries| ==> stored.entries[i].Some?)) ==>
              cs == DefaultMenuItems()
  {
    match stored
    case Items(es) =>
      if |es| == 0 || exists i :: 0 <= i < |es| && es[i].None? then DefaultMenuItems()
      else seq(|es|, i requires 0 <= i < |es| => Backfill(es[i].value))
    case _ => DefaultMenuItems()
  }

  /** The stored form of a configuration (`saveMenuConfigs`, field by field). */
  function ToRaw(c: MenuConfig): RawMenu {
    RawMenu(c.id, Some(c.caption), c.icon, c.pageTitle, c.pageDesc, c.workflowId, Some(c.isEnabled),
      Some(c.layout), Some(c.inputMappings), Some(c.modelPresets), c.outputNodeId)
  }

  /** `saveMenuConfigs`. */
  function SaveMenuConfigs(cs: seq<MenuConfig>): StoredMenus {
    Items(seq(|cs|, i requires 0 <= i < |cs| => Some(ToRaw(cs[i]))))
  }

  /** Back-filling is a one-time migration: saving what was read and reading
      again gives the same configurations. */
  lemma MenuConfigsRoundTrip(stored: StoredMenus)
    ensures MenuConfigs(SaveMenuConfigs(MenuConfigs(stored))) == MenuConfigs(stored)
  {
    var cs := MenuConfigs(stored);
    var again := MenuConfigs(SaveMenuConfigs(cs));
    assert |again| == |cs|;
    forall i | 0 <= i < |cs| ensures again[i] == cs[i] {
      assert again[i] == Backfill(ToRaw(cs[i]));
    }
  }

  /** `getMenuConfigById`. */
  function MenuConfigById(cs: seq<MenuConfig>, id: string): Option<MenuConfig> {
    FindFirst(cs, (c: MenuConfig) => c.id == id)
  }

  // ---------------------------------------------------------------------
  // Servers
  // ---------------------------------------------------------------------

  /** `getComfyServers`: the stored list, or one enabled default without a url. */
  function ComfyServers(stored: Option<seq<ComfyServer>>): seq<ComfyServer> {
    match stored
    case Some(servers) => servers
    case None => [ComfyServer("srv_1", "默认服务器", "", [], true)]
  }

  /** Enabled, with a non-empty url. */
  predicate Usable(s: ComfyServer) {
    s.isEnabled && s.url != ""
  }

  /** `url.replace(/\/$/, '')`: drops one trailing slash. */
  function StripTrailingSlash(url: string): (r: string)
    ensures url == r || url == r + "/"
    ensures url == r + "/" <==> |url| > 0 && url[|url| - 1] == '/'
  {
    if |url| > 0 && url[|url| - 1] == '/' then url[..|url| - 1] else url
  }

  /** `getAvailableServerUrl`, with the draw of `Math.random()` as `u`: fails
      (None) exactly when no server is usable, otherwise gives the url, without
      its trailing slash, of one of the usable servers. Which one depends on
      the draw (the body takes index floor(u * count)); the contract leaves
      the choice open, as a random pick is. */
  function AvailableServerUrl(stored: Option<seq<ComfyServer>>, u: Unit): (r: Option<string>)
    ensures r.None? <==> forall s :: s in ComfyServers(stored) ==> !Usable(s)
    ensures r.Some? ==> exists s :: s in ComfyServers(stored) && Usable(s) && r.value == StripTrailingSlash(s.url)
  {
    var usable := Filter(ComfyServers(stored), Usable);
    if |usable| == 0 then None
    else
      var s := usable[Scale(u, |usable|)];
      assert s in usable;
      Some(StripTrailingSlash(s.url))
  }

  /** Without a stored server list there is no usable server. */
  lemma FreshInstallHasNoServer(u: Unit)
    ensures AvailableServerUrl(None, u).None?
  {
    var s := ComfyServers(None)[0];
    assert forall t :: t in ComfyServers(None) ==> t == s;
  }

  // ---------------------------------------------------------------------
  // History
  // ---------------------------------------------------------------------

  const MaxHistory: nat := 50

  /** `saveHistoryItem`: prepend and keep the 50 most recent. */
  function SaveHistoryItem(history: seq<HistoryItem>, item: HistoryItem): (r: seq<HistoryItem>)
    ensures |r| == if |history| + 1 < MaxHistory then |history| + 1 else MaxHistory
    ensures r[0] == item
    ensures r[1..] == history[..|r| - 1]
  {
    var all := [item] + history;
    var n := if |all| < MaxHistory then |all| else MaxHistory;
    assert all[1..][..n - 1] == history[..n - 1];
    all[..n]
  }

  /** Once the log is full, saving drops exactly the oldest entry. */
  lemma FullHistoryEvictsOldest(history: seq<HistoryItem>, item: HistoryItem)
    requires |history| == MaxHistory
    ensures SaveHistoryItem(history, item) == [item] + history[..MaxHistory - 1]
  {
    var r := SaveHistoryItem(history, item);
    assert r == [r[0]] + r[1..];
  }

  // ---------------------------------------------------------------------
  // Guestbook
  // ---------------------------------------------------------------------

  /** `saveComment`: newest first. */
  function SaveComment(cs: seq<Comment>, c: Comment): (r: seq<Comment>)
    ensures |r| == |cs| + 1 && r[0] == c && r[1..] == cs
  {
    [c] + cs
  }

  /** `replyToComment`: append the reply to every comment with the parent id. */
  function ReplyToComment(cs: seq<Comment>, parentId: string, reply: Comment): (r: seq<Comment>)
    ensures |r| == |cs|
    ensures forall i :: 0 <= i < |cs| ==>
              if cs[i].id == parentId then r[i] == cs[i].(replies := cs[i].replies + [reply]) else r[i] == cs[i]
  {
    seq(|cs|, i requires 0 <= i < |cs| =>
      if cs[i].id == parentId then cs[i].(replies := cs[i].replies + [reply]) else cs[i])
  }

  /** `toggleLikeComment`: add one like to the reply `id` under `parentId`
      when a reply and a parent are named, otherwise to the top-level comment `id`. */
  function ToggleLikeComment(cs: seq<Comment>, id: string, isReply: bool, parentId: Option<string>): (r: seq<Comment>)
    ensures |r| == |cs|
    ensures !(isReply && Truthy(parentId)) ==> forall i :: 0 <= i < |cs| ==>
              r[i] == cs[i].(likes := r[i].likes) && r[i].likes == cs[i].likes + (if cs[i].id == id then 1 else 0)
    ensures isReply && Truthy(parentId) ==> forall i :: 0 <= i < |cs| ==>
              r[i] == cs[i].(replies := r[i].replies) &&
              (cs[i].id != parentId.value ==> r[i] == cs[i]) &&
              (cs[i].id == parentId.value ==>
                 |r[i].replies| == |cs[i].replies| &&
                 forall k :: 0 <= k < |cs[i].replies| ==>
                   r[i].replies[k] == cs[i].replies[k].(likes := r[i].replies[k].likes) &&
                   r[i].replies[k].likes == cs[i].replies[k].likes + (if cs[i].replies[k].id == id then 1 else 0))
  {
    if isReply && Truthy(parentId) then
      seq(|cs|, i requires 0 <= i < |cs| =>
        if cs[i].id == parentId.value then cs[i].(replies := LikeWhere(cs[i].replies, id)) else cs[i])
    else LikeWhere(cs, id)
  }

  /** `list.map(c => c.id === id ? { ...c, likes: c.likes + 1 } : c)`. */
  function LikeWhere(cs: seq<Comment>, id: string): (r: seq<Comment>)
    ensures |r| == |cs|
    ensures forall i :: 0 <= i < |cs| ==>
              r[i] == cs[i].(likes := r[i].likes) && r[i].likes == cs[i].likes + (if cs[i].id == id then 1 else 0)
  {
    seq(|cs|, i requires 0 <= i < |cs| => if cs[i].id == id then cs[i].(likes := cs[i].likes + 1) else cs[i])
  }

  /** Sum of the likes of a list of comments (replies not included). */
  function TotalLikes(cs: seq<Comment>): int {
    if |cs| == 0 then 0 else cs[0].likes + TotalLikes(cs[1..])
  }

  /** Number of comments with the id. */
  function CountId(cs: seq<Comment>, id: string): nat {
    if |cs| == 0 then 0 else (if cs[0].id == id then 1 else 0) + CountId(cs[1..], id)
  }

  /** A like adds one to every comment with the id and changes no other count:
      with unique ids, the total grows by exactly one when the id exists. */
  lemma {:induction false} LikeWhereTotal(cs: seq<Comment>, id: string)
    ensures TotalLikes(LikeWhere(cs, id)) == TotalLikes(cs) + CountId(cs, id)
  {
    if |cs| > 0 {
      LikeWhereTotal(cs[1..], id);
      assert LikeWhere(cs, id)[1..] == LikeWhere(cs[1..], id);
    }
  }
}
