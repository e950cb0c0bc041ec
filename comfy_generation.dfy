/**
 * generateWithComfy and pollResult (services/comfyService.ts): the checks
 * before a job is built, the optional upload, injection and seed
 * randomisation, submission, then polling the history endpoint.
 *
 * The network is modelled by the replies it would give: `UploadReply`,
 * `SubmitReply` and, per polling tick, `HistoryReply`.
 */
module ComfyGeneration {
  import opened Wrappers
  import opened Json
  import opened RandomSource
  import opened Types
  import opened ComfyStorage
  import opened ComfyInjection

  /** The errors generateWithComfy throws, and the ones a polling tick throws. */
  datatype GenError =
    | NotConfigured                         // page missing, disabled or without workflow
    | WorkflowLost                          // bound workflow no longer stored
    | NoServer                              // no enabled server with a url
    | CloneFailed                           // JSON.parse(JSON.stringify(undefined)) throws
    | UploadFailed                          // upload answered with a non-2xx status
    | NetworkError                          // a fetch gave no response (TypeError)
    | CorsOrTimeout                         // the TypeError of the submission, reworded
    | Rejected(status: int, detail: string) // submission answered with a non-2xx status
    | BadReply                              // a body that is not the expected JSON
    | MissingOutputs                        // a history record without `outputs` (TypeError)
    | RepeatedPollFailure                   // more than ten failed polls in a row
    | Timeout                               // 150 polls without output

  // ---------------------------------------------------------------------
  // Building the job
  // ---------------------------------------------------------------------

  /** What `POST /upload/image` gives: no response, a non-2xx status, a 2xx
      body that is not JSON, or the stored file name. */
  datatype UploadReply = UploadUnreachable | UploadNotOk | UploadGarbled | UploadStored(name: string)

  /** What is submitted, and what polling needs to know. */
  datatype Job = Job(baseUrl: string, payload: Graph, imageNodeId: Option<string>, textNodeId: Option<string>)

  function ConfigFor(menus: StoredMenus, menuId: string): Option<MenuConfig> {
    MenuConfigById(MenuConfigs(menus), menuId)
  }

  /** The first check: the page exists, is enabled and has a workflow. */
  predicate Runnable(c: Option<MenuConfig>) {
    c.Some? && c.value.isEnabled && Truthy(c.value.workflowId)
  }

  /** The upload gate: an image was given and the page maps the upload module. */
  predicate WantsUpload(params: GenParams, c: MenuConfig) {
    params.image.Some? && ImageUpload in c.inputMappings
  }

  /** What the checks before the submission look at: the page's
      configuration, the stored workflow it is bound to (only looked up for a
      runnable page) and the chosen server's url. */
  datatype Lookup = Lookup(config: Option<MenuConfig>, workflow: Option<Workflow>, baseUrl: Option<string>)

  function LookupFor(menus: StoredMenus, menuId: string, workflows: seq<Workflow>,
                     servers: Option<seq<ComfyServer>>, serverDraw: Unit): Lookup {
    var c := ConfigFor(menus, menuId);
    Lookup(c, if Runnable(c) then WorkflowById(workflows, c.value.workflowId.value) else None,
           AvailableServerUrl(servers, serverDraw))
  }

  /** Every check before the upload passes: the page is runnable, its
      workflow is stored and has a graph, and a server is usable. */
  predicate Ready(l: Lookup) {
    Runnable(l.config) && l.workflow.Some? && l.workflow.value.apiJson.Some? && l.baseUrl.Some?
  }

  /** The job is built: every check passes and the upload, when one is
      made, stores the image. */
  predicate Built(l: Lookup, params: GenParams, upload: UploadReply) {
    Ready(l) && (WantsUpload(params, l.config.value) ==> upload.UploadStored?)
  }

  /** The error the checks before the submission stop with, if any, in the
      order they run: page, workflow, server, the deep copy of the graph,
      then the upload when one is wanted. */
  function PrepError(l: Lookup, params: GenParams, upload: UploadReply): (e: Option<GenError>)
    ensures e.Some? ==> e.value in {NotConfigured, WorkflowLost, NoServer, CloneFailed, NetworkError, UploadFailed, BadReply}
  {
    if !Runnable(l.config) then Some(NotConfigured)
    else if l.workflow.None? then Some(WorkflowLost)
    else if l.baseUrl.None? then Some(NoServer)
    else if l.workflow.value.apiJson.None? then Some(CloneFailed)
    else if WantsUpload(params, l.config.value) then
      match upload
      case UploadUnreachable => Some(NetworkError)
      case UploadNotOk => Some(UploadFailed)
      case UploadGarbled => Some(BadReply)
      case UploadStored(_) => None
    else None
  }

  /** The checks stop the job exactly when it is not built, and an upload
      error is reported only once every other check has passed. */
  lemma PrepErrorIffNotBuilt(l: Lookup, params: GenParams, upload: UploadReply)
    ensures PrepError(l, params, upload).None? <==> Built(l, params, upload)
    ensures PrepError(l, params, upload) in {Some(NetworkError), Some(UploadFailed), Some(BadReply)} ==>
              Ready(l) && WantsUpload(params, l.config.value)
  {
  }

  /** `mappings.textOutput?.nodeId`. */
  function TextNodeOf(c: MenuConfig): Option<string> {
    if TextOutput in c.inputMappings then Some(c.inputMappings[TextOutput].nodeId) else None
  }

  /** generateWithComfy up to the submission, given what its lookups found;
      `seedDraws(k)` is the k-th draw of the seed loop and `uploadSent` tells
      whether the upload request was made. A missing `apiJson` makes the
      deep copy throw before the upload. */
  method PrepareJob(look: Lookup, params: GenParams, seedDraws: nat -> Unit, upload: UploadReply)
    returns (r: Result<Job, GenError>, uploadSent: bool)
    ensures uploadSent <==> Ready(look) && WantsUpload(params, look.config.value)
    ensures r.Failure? <==> PrepError(look, params, upload).Some?
    ensures r.Failure? ==> PrepError(look, params, upload) == Some(r.error)
    ensures r.Success? ==>
              var cfg := look.config.value;
              var uploaded := if uploadSent then upload.name else "";
              && r.value.baseUrl == look.baseUrl.value
              && GraphReseeded(InjectAll(look.workflow.value.apiJson.value, cfg.inputMappings, params, uploaded), r.value.payload)
              && r.value.imageNodeId == cfg.outputNodeId
              && r.value.textNodeId == TextNodeOf(cfg)
  {
    uploadSent := false;
    if !Runnable(look.config) {
      return Failure(NotConfigured), false;
    }
    var cfg := look.config.value;
    if look.workflow.None? {
      return Failure(WorkflowLost), false;
    }
    if look.baseUrl.None? {
      return Failure(NoServer), false;
    }
    var workflow := look.workflow.value;
    if workflow.apiJson.None? {
      return Failure(CloneFailed), false;
    }
    // The deep copy: a value, so the stored template cannot change.
    var apiPayload := workflow.apiJson.value;
    var mappings := cfg.inputMappings;

    var uploadedFilename := "";
    if WantsUpload(params, cfg) {
      uploadSent := true;
      match upload
      case UploadUnreachable => return Failure(NetworkError), true;
      case UploadNotOk => return Failure(UploadFailed), true;
      case UploadGarbled => return Failure(BadReply), true;
      case UploadStored(name) => uploadedFilename := name;
    }

    // the five module writes, then width and height when an aspect ratio is mapped
    apiPayload := InjectAll(apiPayload, mappings, params, uploadedFilename);

    apiPayload := RandomizeSeeds(apiPayload, seedDraws);

    r := Success(Job(look.baseUrl.value, apiPayload, cfg.outputNodeId, TextNodeOf(cfg)));
  }

  // ---------------------------------------------------------------------
  // Submission
  // ---------------------------------------------------------------------

  datatype SubmitReply =
    | SubmitUnreachable                   // fetch rejected (TypeError)
    | SubmitRefused(status: int, body: string)
    | SubmitGarbled                       // 2xx, body is not JSON
    | SubmitWithoutId                     // 2xx JSON with no `prompt_id`
    | SubmitAccepted(promptId: string)

  /** A 2xx JSON reply: the caller goes on to poll. */
  predicate Queued(reply: SubmitReply) {
    reply.SubmitAccepted? || reply.SubmitWithoutId?
  }

  /** `data.prompt_id` as it is spliced into `history/${promptId}` and used
      as the key into the history: a missing id reads `"undefined"`. */
  function PromptIdOf(reply: SubmitReply): string
    requires Queued(reply)
  {
    if reply.SubmitAccepted? then reply.promptId else "undefined"
  }

  const MaxDetail: nat := 100

  /** The try block around `POST /prompt`: the prompt id, or the error the
      caller sees; a refusal carries the status and the first 100 characters
      of the body. */
  function SubmitOutcome(reply: SubmitReply): (r: Result<string, GenError>)
    ensures Queued(reply) <==> r.Success?
    ensures reply.SubmitAccepted? ==> r.value == reply.promptId
    ensures reply.SubmitWithoutId? ==> r.value == "undefined"
    ensures reply.SubmitUnreachable? ==> r == Failure(CorsOrTimeout)
    ensures reply.SubmitGarbled? ==> r == Failure(BadReply)
    ensures reply.SubmitRefused? ==>
              r.Failure? && r.error.Rejected? && r.error.status == reply.status &&
              |r.error.detail| == (if |reply.body| < MaxDetail then |reply.body| else MaxDetail) &&
              reply.body[..|r.error.detail|] == r.error.detail
  {
    match reply
    case SubmitUnreachable => Failure(CorsOrTimeout)
    case SubmitRefused(status, body) =>
      Failure(Rejected(status, if |body| < MaxDetail then body else body[..MaxDetail]))
    case SubmitGarbled => Failure(BadReply)
    case SubmitWithoutId => Success("undefined")
    case SubmitAccepted(id) => Success(id)
  }

  // ---------------------------------------------------------------------
  // Polling
  // ---------------------------------------------------------------------

  /** `type` of an image output is `kind` here (`type` is a Dafny keyword). */
  datatype ImageRef = ImageRef(filename: string, subfolder: string, kind: string)

  /** One node's output record: its `images`, `text` and `string` arrays
      when present, and its `JSON.stringify` text. */
  datatype NodeOutput = NodeOutput(
    images: Option<seq<ImageRef>>, text: Option<seq<string>>, strings: Option<seq<string>>, serialized: string)

  /** `hData[promptId]`; `outputs` may be missing. */
  datatype PromptRecord = PromptRecord(outputs: Option<Fields<NodeOutput>>)

  /** What one `GET /history/{id}` gives. */
  datatype HistoryReply =
    | PollUnreachable                       // fetch rejected
    | PollNotOk(status: int)
    | PollUnparseable                       // 2xx, body is not JSON
    | PollParsed(data: Fields<PromptRecord>)

  datatype GenOutput = GenOutput(images: Option<seq<string>>, imageUrl: Option<string>, textOutput: Option<string>)

  const MaxTicks: nat := 150
  const MaxConsecutiveErrors: nat := 10

  /** `{base}/view?filename=..&subfolder=..&type=..`, without escaping. */
  function ViewUrl(baseUrl: string, img: ImageRef): string {
    baseUrl + "/view?filename=" + img.filename + "&subfolder=" + img.subfolder + "&type=" + img.kind
  }

  function ViewUrls(baseUrl: string, imgs: seq<ImageRef>): (urls: seq<string>)
    ensures |urls| == |imgs|
    ensures forall i :: 0 <= i < |imgs| ==> urls[i] == ViewUrl(baseUrl, imgs[i])
  {
    seq(|imgs|, i requires 0 <= i < |imgs| => ViewUrl(baseUrl, imgs[i]))
  }

  /** `Object.values(outputs).find(o => o.images)`. */
  function FirstWithImages(outs: Fields<NodeOutput>): (r: Option<NodeOutput>)
    ensures r.Some? ==> r.value.images.Some?
    ensures r.None? <==> forall i :: 0 <= i < |outs| ==> outs[i].1.images.None?
    ensures r.Some? ==> exists i :: 0 <= i < |outs| && outs[i].1 == r.value &&
                          forall j :: 0 <= j < i ==> outs[j].1.images.None?
  {
    if |outs| == 0 then None
    else if outs[0].1.images.Some? then Some(outs[0].1)
    else
      var r := FirstWithImages(outs[1..]);
      assert r.Some? ==> exists i :: 1 <= i < |outs| && outs[i].1 == r.value &&
                          forall j :: 0 <= j < i ==> outs[j].1.images.None? by {
        if r.Some? {
          var i :| 0 <= i < |outs| - 1 && outs[1..][i].1 == r.value && forall j :: 0 <= j < i ==> outs[1..][j].1.images.None?;
          forall j | 0 <= j < i + 1 ensures outs[j].1.images.None? {
            if j > 0 { assert outs[j] == outs[1..][j - 1]; }
          }
        }
      }
      r
  }

  /** `t.text ? t.text[0] : (t.string ? t.string[0] : JSON.stringify(t))`;
      reading index 0 of an empty array gives undefined (None). */
  function TextOf(t: NodeOutput): (r: Option<string>)
    ensures t.text.Some? ==> r == (if |t.text.value| > 0 then Some(t.text.value[0]) else None)
    ensures t.text.None? && t.strings.Some? ==> r == (if |t.strings.value| > 0 then Some(t.strings.value[0]) else None)
    ensures t.text.None? && t.strings.None? ==> r == Some(t.serialized)
  {
    if t.text.Some? then (if |t.text.value| > 0 then Some(t.text.value[0]) else None)
    else if t.strings.Some? then (if |t.strings.value| > 0 then Some(t.strings.value[0]) else None)
    else Some(t.serialized)
  }

  /** The result built from a job's outputs: the images of the configured
      node, or of the first node with an `images` array, and the text of the
      configured text node. */
  function Extract(baseUrl: string, imageNodeId: Option<string>, textNodeId: Option<string>, outs: Fields<NodeOutput>): (o: GenOutput)
    ensures var src := ImageSource(imageNodeId, outs);
            if src.Some? && src.value.images.Some? && |src.value.images.value| > 0
            then o.images == Some(ViewUrls(baseUrl, src.value.images.value)) &&
                 o.imageUrl == Some(ViewUrl(baseUrl, src.value.images.value[0]))
            else o.images.None? && o.imageUrl.None?
    ensures Truthy(textNodeId) && Get(outs, textNodeId.value).Some? ==> o.textOutput == TextOf(Get(outs, textNodeId.value).value)
    ensures !(Truthy(textNodeId) && Get(outs, textNodeId.value).Some?) ==> o.textOutput.None?
  {
    var imgOut := ImageSource(imageNodeId, outs);
    var images := if imgOut.Some? && imgOut.value.images.Some? && |imgOut.value.images.value| > 0
                  then Some(ViewUrls(baseUrl, imgOut.value.images.value)) else None;
    var text := if Truthy(textNodeId) && Get(outs, textNodeId.value).Some?
                then TextOf(Get(outs, textNodeId.value).value) else None;
    GenOutput(images, if images.Some? then Some(images.value[0]) else None, text)
  }

  /** Where the images are read from: the configured node when one is set,
      else the first output that has an `images` array. */
  function ImageSource(imageNodeId: Option<string>, outs: Fields<NodeOutput>): Option<NodeOutput> {
    if Truthy(imageNodeId) then Get(outs, imageNodeId.value) else FirstWithImages(outs)
  }

  /** `result.imageUrl || result.textOutput`. */
  predicate Finished(o: GenOutput) {
    Truthy(o.imageUrl) || Truthy(o.textOutput)
  }

  /** The output a reply completes the job with, if it does. */
  function Completed(baseUrl: string, promptId: string, imageNodeId: Option<string>, textNodeId: Option<string>, reply: HistoryReply): (r: Option<GenOutput>)
    ensures r.Some? ==> reply.PollParsed? && Finished(r.value)
    ensures r.Some? <==>
              && reply.PollParsed?
              && Get(reply.data, promptId).Some?
              && Get(reply.data, promptId).value.outputs.Some?
              && Finished(Extract(baseUrl, imageNodeId, textNodeId, Get(reply.data, promptId).value.outputs.value))
    ensures r.Some? ==> r.value == Extract(baseUrl, imageNodeId, textNodeId, Get(reply.data, promptId).value.outputs.value)
  {
    match reply
    case PollParsed(data) =>
      var entry := Get(data, promptId);
      if entry.Some? && entry.value.outputs.Some? then
        var o := Extract(baseUrl, imageNodeId, textNodeId, entry.value.outputs.value);
        if Finished(o) then Some(o) else None
      else None
    case _ => None
  }

  /** One of the first n polls completes the job. */
  predicate CompletesWithin(baseUrl: string, promptId: string, imageNodeId: Option<string>, textNodeId: Option<string>,
                            replies: nat -> HistoryReply, n: nat) {
    exists k :: 0 <= k < n && Completed(baseUrl, promptId, imageNodeId, textNodeId, replies(k)).Some?
  }

  /** Poll k is the first of the 150 to complete the job, and with o. */
  predicate FirstCompletion(baseUrl: string, promptId: string, imageNodeId: Option<string>, textNodeId: Option<string>,
                            replies: nat -> HistoryReply, k: nat, o: GenOutput) {
    && k < MaxTicks
    && Completed(baseUrl, promptId, imageNodeId, textNodeId, replies(k)) == Some(o)
    && forall j :: 0 <= j < k ==> Completed(baseUrl, promptId, imageNodeId, textNodeId, replies(j)).None?
  }

  /** How one pass of the loop body ends: `continue`, a `throw` (which the
      surrounding catch swallows), or a `return`. */
  datatype TickStep = Continue | Raise(error: GenError) | Done(output: GenOutput)

  /** One tick of pollResult, given the consecutive-error count before it;
      also gives the count after it. */
  function Tick(baseUrl: string, promptId: string, imageNodeId: Option<string>, textNodeId: Option<string>,
                reply: HistoryReply, errors: nat): (r: (TickStep, nat))
    ensures r.0.Done? <==> Completed(baseUrl, promptId, imageNodeId, textNodeId, reply).Some?
    ensures r.0.Done? ==> r.0.output == Completed(baseUrl, promptId, imageNodeId, textNodeId, reply).value
    ensures r.0 == Raise(RepeatedPollFailure) <==> reply.PollNotOk? && errors >= MaxConsecutiveErrors
    ensures reply.PollNotOk? ==> r.1 == errors + 1
    ensures reply.PollUnreachable? ==> r.1 == errors
    ensures reply.PollUnparseable? || reply.PollParsed? ==> r.1 == 0
  {
    match reply
    case PollUnreachable => (Raise(NetworkError), errors)
    case PollNotOk(_) =>
      if errors + 1 > MaxConsecutiveErrors then (Raise(RepeatedPollFailure), errors + 1) else (Continue, errors + 1)
    case PollUnparseable => (Raise(BadReply), 0)
    case PollParsed(data) =>
      var entry := Get(data, promptId);
      if entry.None? then (Continue, 0)
      // `outputs` missing: reading it throws a TypeError
      else if entry.value.outputs.None? then (Raise(MissingOutputs), 0)
      else
        var o := Extract(baseUrl, imageNodeId, textNodeId, entry.value.outputs.value);
        if Finished(o) then (Done(o), 0) else (Continue, 0)
  }

  /** The history entry saved on completion. */
  function HistoryEntry(promptId: string, o: GenOutput, params: GenParams, now: int, menuId: string): (h: HistoryItem)
    ensures h.id == promptId && h.imageUrl == o.imageUrl && h.textOutput == o.textOutput
    ensures h.prompt == (if params.prompt != "" then params.prompt else "Art Task") && h.prompt != ""
    ensures h.timestamp == now && h.width == params.width && h.height == params.height && h.menuId == menuId
  {
    HistoryItem(promptId, o.imageUrl, o.textOutput,
      if params.prompt != "" then params.prompt else "Art Task",
      now, params.width, params.height, menuId)
  }

  /** pollResult. `replies(i)` is the reply to the i-th poll and `now` the
      clock at completion; `ticks` counts the polls made. It returns at the
      first completing reply; every thrown error, the repeated-failure one
      included, is caught and polling goes on, so the only failure is the
      timeout. */
  method PollResult(
    baseUrl: string, promptId: string, imageNodeId: Option<string>, textNodeId: Option<string>,
    menuId: string, params: GenParams, now: int,
    replies: nat -> HistoryReply, history: seq<HistoryItem>)
    returns (r: Result<GenOutput, GenError>, ticks: nat, newHistory: seq<HistoryItem>)
    ensures 1 <= ticks <= MaxTicks
    ensures forall j :: 0 <= j < ticks - 1 ==> Completed(baseUrl, promptId, imageNodeId, textNodeId, replies(j)).None?
    ensures r.Success? ==> Completed(baseUrl, promptId, imageNodeId, textNodeId, replies(ticks - 1)) == Some(r.value)
    ensures r.Success? ==> newHistory == SaveHistoryItem(history, HistoryEntry(promptId, r.value, params, now, menuId))
    ensures r.Failure? ==> r.error == Timeout && ticks == MaxTicks && newHistory == history &&
                           Completed(baseUrl, promptId, imageNodeId, textNodeId, replies(ticks - 1)).None?
    ensures r.Success? <==> CompletesWithin(baseUrl, promptId, imageNodeId, textNodeId, replies, MaxTicks)
    ensures r.Success? ==> FirstCompletion(baseUrl, promptId, imageNodeId, textNodeId, replies, ticks - 1, r.value)
  {
    var consecutiveErrors := 0;
    ticks := 0;
    for i := 0 to MaxTicks
      invariant ticks == i
      invariant forall j :: 0 <= j < i ==> Completed(baseUrl, promptId, imageNodeId, textNodeId, replies(j)).None?
    {
      var (step, errors) := Tick(baseUrl, promptId, imageNodeId, textNodeId, replies(i), consecutiveErrors);
      consecutiveErrors := errors;
      ticks := i + 1;
      match step
      case Done(o) =>
        newHistory := SaveHistoryItem(history, HistoryEntry(promptId, o, params, now, menuId));
        return Success(o), ticks, newHistory;
      case Raise(_) =>   // caught: "ignore a single network hiccup"
      case Continue =>
    }
    return Failure(Timeout), ticks, history;
  }

  // ---------------------------------------------------------------------
  // The whole operation
  // ---------------------------------------------------------------------

  /** The rest of generateWithComfy once the job is built: submit it, then
      poll for its result. */
  method SubmitAndPoll(
    job: Job, submit: SubmitReply, replies: nat -> HistoryReply,
    menuId: string, params: GenParams, now: int, history: seq<HistoryItem>)
    returns (r: Result<GenOutput, GenError>, newHistory: seq<HistoryItem>)
    ensures !Queued(submit) ==> r == Failure(SubmitOutcome(submit).error) && newHistory == history
    ensures Queued(submit) ==>
              && (r.Success? <==> CompletesWithin(job.baseUrl, PromptIdOf(submit), job.imageNodeId, job.textNodeId, replies, MaxTicks))
              && (r.Failure? ==> r.error == Timeout)
              && (r.Success? ==> exists k :: FirstCompletion(job.baseUrl, PromptIdOf(submit), job.imageNodeId, job.textNodeId, replies, k, r.value))
    ensures r.Success? ==> Queued(submit) && Finished(r.value) &&
                           newHistory == SaveHistoryItem(history, HistoryEntry(PromptIdOf(submit), r.value, params, now, menuId))
    ensures r.Failure? ==> newHistory == history && r.error != RepeatedPollFailure
  {
    var submitted := SubmitOutcome(submit);
    if submitted.Failure? {
      return Failure(submitted.error), history;
    }
    var ticks;
    r, ticks, newHistory := PollResult(job.baseUrl, submitted.value, job.imageNodeId, job.textNodeId,
                                       menuId, params, now, replies, history);
  }

  /** generateWithComfy: build the job, submit it, poll for the result. */
  method GenerateWithComfy(
    menuId: string, params: GenParams,
    menus: StoredMenus, workflows: seq<Workflow>, servers: Option<seq<ComfyServer>>,
    serverDraw: Unit, seedDraws: nat -> Unit, upload: UploadReply, submit: SubmitReply,
    replies: nat -> HistoryReply, now: int, history: seq<HistoryItem>)
    returns (r: Result<GenOutput, GenError>, newHistory: seq<HistoryItem>)
    // the checks before the submission stop it with their error
    ensures var l := LookupFor(menus, menuId, workflows, servers, serverDraw);
            PrepError(l, params, upload).Some? ==> r == Failure(PrepError(l, params, upload).value)
    // a job that was built but not accepted fails with the submission's error
    ensures Built(LookupFor(menus, menuId, workflows, servers, serverDraw), params, upload) && !Queued(submit) ==>
              r == Failure(SubmitOutcome(submit).error)
    // an accepted job succeeds iff one of the 150 polls completes it, with the first such output
    ensures var l := LookupFor(menus, menuId, workflows, servers, serverDraw);
            Built(l, params, upload) && Queued(submit) ==>
              var base := l.baseUrl.value;
              var cfg := l.config.value;
              && (r.Success? <==> CompletesWithin(base, PromptIdOf(submit), cfg.outputNodeId, TextNodeOf(cfg), replies, MaxTicks))
              && (r.Failure? ==> r.error == Timeout)
              && (r.Success? ==> exists k :: FirstCompletion(base, PromptIdOf(submit), cfg.outputNodeId, TextNodeOf(cfg), replies, k, r.value))
    ensures r.Success? ==> Queued(submit) && Finished(r.value) &&
                           newHistory == SaveHistoryItem(history, HistoryEntry(PromptIdOf(submit), r.value, params, now, menuId))
    ensures r.Failure? ==> newHistory == history && r.error != RepeatedPollFailure
  {
    var look := LookupFor(menus, menuId, workflows, servers, serverDraw);
    var job, _ := PrepareJob(look, params, seedDraws, upload);
    PrepErrorIffNotBuilt(look, params, upload);
    if job.Failure? {
      return Failure(job.error), history;
    }
    r, newHistory := SubmitAndPoll(job.value, submit, replies, menuId, params, now, history);
  }
}
