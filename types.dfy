/** The records of the application (types.ts), as values. */
module Types {
  import opened Wrappers
  import opened Json

  /** JavaScript truthiness of an optional string: present and non-empty. */
  predicate Truthy(s: Option<string>) {
    s.Some? && s.value != ""
  }

  // --- Workflow graphs ---

  /** A node of a workflow graph: `class_type`, `_meta.title` and `inputs`. */
  datatype Node = Node(classType: Option<string>, title: Option<string>, inputs: Option<Fields<Value>>)

  /** A workflow graph in API format: node id to node. */
  type Graph = Fields<Node>

  datatype Workflow = Workflow(id: string, name: string, description: string, apiJson: Option<Graph>, createdAt: int)

  // --- Pages ---

  datatype ModuleType = Prompt | NegativePrompt | ImageUpload | Model | AspectRatio | BatchSize | TextOutput

  /** Where a module's value is injected; the aspect-ratio module uses the
      width and height pairs instead of nodeId/field. */
  datatype MappingConfig = MappingConfig(
    nodeId: string, field: string,
    widthNodeId: Option<string>, widthField: Option<string>,
    heightNodeId: Option<string>, heightField: Option<string>)

  /** `caption` is the `label` field (`label` is a Dafny keyword). */
  datatype LayoutModule = LayoutModule(id: ModuleType, isEnabled: bool, caption: string)

  /** A page layout; `modules` may be missing in stored data. */
  datatype PageLayout = PageLayout(modules: Option<seq<LayoutModule>>)

  datatype ModelPreset = ModelPreset(id: string, name: string, value: string)

  datatype MenuConfig = MenuConfig(
    id: string,
    caption: string,
    icon: string,
    pageTitle: Option<string>,
    pageDesc: Option<string>,
    workflowId: Option<string>,
    isEnabled: bool,
    layout: PageLayout,
    inputMappings: map<ModuleType, MappingConfig>,
    modelPresets: seq<ModelPreset>,
    outputNodeId: Option<string>)

  // --- Servers, history, guestbook, users ---

  datatype ComfyServer = ComfyServer(id: string, name: string, url: string, allowedDepartments: seq<string>, isEnabled: bool)

  datatype HistoryItem = HistoryItem(
    id: string, imageUrl: Option<string>, textOutput: Option<string>,
    prompt: string, timestamp: int, width: int, height: int, menuId: string)

  datatype Comment = Comment(
    id: string, userPhone: string, userNickname: Option<string>, userAvatar: Option<string>,
    userDepartment: Option<string>, content: string, timestamp: int, likes: int, replies: seq<Comment>)

  datatype UserRole = SuperAdmin | Admin | User

  /** A user record as stored, or a profile handed to the application after login. */
  datatype UserProfile = UserProfile(
    phone: string, password: Option<string>, department: Option<string>,
    nickname: Option<string>, avatarUrl: Option<string>, role: Option<UserRole>)
}
