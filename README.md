# SmartPic generation service and console logic in Dafny

SmartPic is a browser front end for a ComfyUI backend. A user picks a page
(a "menu"); the page names a stored ComfyUI workflow graph and maps its UI
modules (prompt, negative prompt, model, batch size, image upload, aspect
ratio, text output) onto node inputs of that graph. `generateWithComfy`
copies the graph, injects the user's values, re-rolls seeds, submits the
job to a randomly chosen enabled server and polls its history until an
image or a text output appears, which is then logged in a 50-entry history.
An admin console edits pages, mappings, servers and departments, and a
modal handles login, registration and a four-character captcha.

This project models that logic and proves what it promises:

- `Types` — the records of `types.ts` (workflow, page, mapping, server,
  history item, comment, user).
- `Json` — JSON objects as ordered association lists. `Get` is property
  read, `Put` is property assignment (replace in place, or append a new key).
- `Lists` — `find` and `filter` on lists.
- `RandomSource` — a draw of `Math.random()` as a real in [0, 1), and
  `Math.floor(u * n)`.
- `ComfyStorage` — these parts of `services/comfyService.ts`:
  - workflow store;
  - page configs with back-filling;
  - server list and server choice;
  - history log;
  - guestbook.
- `ComfyInjection` — `inject`, the order of the seven injections, and the
  seed loop (a method over the graph with loop invariants).
- `ComfyGeneration` — `generateWithComfy`:
  - checks, upload gating and job preparation (`PrepareJob`);
  - the submission reply;
  - the poller (`PollResult`, a bounded loop over a stream of replies);
  - the whole operation.
- `AdminConsole` — the handlers of `components/AdminDashboard.tsx`.
- `AuthModal` — `handleSubmit` and `generateCaptcha` of
  `components/AuthModal.tsx`.

localStorage is abstract. Each operation takes the value it reads from its
storage key and returns the value it writes back. Each reply from the
backend (`/upload/image`, `/prompt`, `/history/{id}`) is an input datatype.
`Math.random()` is either a `Unit` parameter or an oracle `nat -> Unit`
giving the n-th draw. The clock (`Date.now()`) is a parameter. Dafny values
cannot be aliased, so the stored template graph is never modified.
`GenerateWithComfy` reads the page, its workflow and a server once
(`LookupFor`), and `PrepError` gives the error the checks stop with, in the
order the code runs them. `PrepareJob` states which graph is sent: the
template with the injections and the seed step applied.

The poller counts refused polls and, after more than ten in a row, throws
to give up (services/comfyService.ts:349). That `throw` sits inside the
`try` whose `catch` (services/comfyService.ts:380-382) discards every
error, so the poller never ends early, and its only failure is the timeout
after 150 ticks. The model follows the code:

- `Tick` raises the repeated-failure error;
- `PollResult` swallows it;
- `GenerateWithComfy` proves that this error never reaches the caller.

A consequence of the login rules, proved as
`AuthModal.AdminPhoneRegistrationShadowsBootstrap`: while no administrator
record is stored, anyone can register the phone `admin`. That creates an
ordinary user, and from then on the built-in `admin`/`admin` login is no
longer available.

## Model

| member | source | states |
|---|---|---|
| `Lists.FindFirst` | services/comfyService.ts:109-111 | `find` gives None iff no element satisfies the predicate; otherwise the element at the first index that does |
| `Lists.Filter` | services/comfyService.ts:104-107 | `filter` keeps exactly the elements that pass, each as often as in the input, and drops the rest; the result is no longer than the input, and equals it when everything passes |
| `Lists.FilterAppend` | services/comfyService.ts:104-107 | `filter` keeps the order: filtering a concatenation concatenates the filtered parts |
| `Lists.FilterSingleton` | services/comfyService.ts:104-107 | one element is kept iff it passes; with `FilterAppend`, the result is the passing elements in their original order |
| `Lists.FilterNoDuplicates` | components/AdminDashboard.tsx:397-399 | filtering a duplicate-free list leaves it duplicate-free |
| `Lists.FilterDropsMiddle` | components/AdminDashboard.tsx:309 | filtering out one failing element between two runs that pass closes the gap: the two runs, joined |
| `Lists.FilterDropsOne` | components/AdminDashboard.tsx:309 | when only the element at index k fails, `filter` gives the list without position k, the others in order |
| `RandomSource.Scale` | services/comfyService.ts:171 | `Math.floor(u * n)` is an index below n, and it is the floor of u·n |
| `RandomSource.ScaledBelow` | services/comfyService.ts:171 | for a draw in [0, 1), u·n lies in [0, n) |
| `Json.GetPut` | services/comfyService.ts:280 | after `o[k] = v`, key k reads v and every other key reads as before |
| `Json.PutShape` | services/comfyService.ts:280 | assigning an existing key replaces its entry in place; a new key is appended at the end |
| `Json.KeysPut` | services/comfyService.ts:280 | assignment keeps the key list, or appends the new key |
| `Json.GetFindsFirst` | components/AdminDashboard.tsx:95-106 | a property read finds a value iff the key is among the object's keys, and that value is the one at its first position |
| `ComfyStorage.SaveWorkflow` | services/comfyService.ts:93-97 | the new workflow is appended after the unchanged stored list |
| `ComfyStorage.SaveWorkflowThenFind` | services/comfyService.ts:109-111 | after saving, a lookup by id gives the new workflow, unless an older one with that id shadows it |
| `ComfyStorage.UpdateWorkflow` | services/comfyService.ts:99-102 | workflows with another id are unchanged; on those with the id, the name and description become the patched ones when given and stay otherwise; id, graph and creation time are always kept |
| `ComfyStorage.DeleteWorkflow` | services/comfyService.ts:104-107 | exactly the workflows with another id remain, each as often as before (in order, by `Lists.FilterAppend`) |
| `ComfyStorage.DeleteWorkflowLookup` | services/comfyService.ts:104-111 | after deletion the id no longer resolves, and every other id resolves as before |
| `ComfyStorage.Backfill` | services/comfyService.ts:135-143 | a stored page keeps its id, icon, workflow, output node, page title and description; its label is kept when set, is `Unknown Page` when missing or empty, and so is never empty; it is enabled unless stored as `false`; a missing layout becomes the default layout, missing mappings `{}` and missing presets `[]`, and stored ones are kept |
| `ComfyStorage.MenuConfigs` | services/comfyService.ts:128-146 | the default pages unless the key holds a non-empty array without nulls, in which case each entry is back-filled; the result is never empty, and no label is empty |
| `ComfyStorage.MenuConfigsRoundTrip` | services/comfyService.ts:128-154 | saving what was read and reading it again gives the same pages |
| `ComfyStorage.StripTrailingSlash` | services/comfyService.ts:172 | removes one trailing `/`, exactly when there is one |
| `ComfyStorage.AvailableServerUrl` | services/comfyService.ts:166-173 | fails iff no server is enabled with a non-empty url; otherwise gives such a server's url without its trailing slash |
| `ComfyStorage.FreshInstallHasNoServer` | services/comfyService.ts:156-160 | the default server list has no usable server |
| `ComfyStorage.SaveHistoryItem` | services/comfyService.ts:206-210 | the length is min(old+1, 50), the new item comes first, and the rest is a prefix of the old log |
| `ComfyStorage.FullHistoryEvictsOldest` | services/comfyService.ts:208 | on a full log, exactly the oldest entry is dropped |
| `ComfyStorage.SaveComment` | services/comfyService.ts:217-221 | the new comment comes first, before the unchanged list |
| `ComfyStorage.ReplyToComment` | services/comfyService.ts:223-230 | the reply is appended to the replies of every comment with the parent id; the other comments are unchanged |
| `ComfyStorage.ToggleLikeComment` | services/comfyService.ts:232-246 | one like goes to the matching reply under the parent when a reply and a parent are named, otherwise to the matching top-level comment; nothing else changes |
| `ComfyStorage.LikeWhere` | services/comfyService.ts:243 | only likes change, by one, on the comments with the id |
| `ComfyStorage.LikeWhereTotal` | services/comfyService.ts:243 | the total number of likes grows by the number of comments with the id |
| `ComfyInjection.InjectSkips` | services/comfyService.ts:277-282 | when the node id or the field is empty, or the node is absent, the graph is unchanged |
| `ComfyInjection.InjectWrites` | services/comfyService.ts:278-281 | otherwise only that node's entry is replaced, in place. The field reads the value, `inputs` is created when missing, and all other inputs, nodes and node attributes are unchanged |
| `ComfyInjection.RandomizeSeeds` | services/comfyService.ts:298-312 | each `seed`/`noise_seed`/`seed_int` input holding a number or a non-empty digit string now holds an integer in [0, 10^15); every other input, key and node is unchanged |
| `ComfyInjection.GetReseeded` | services/comfyService.ts:298-312 | through a property read: a key keeps its presence, a seed-like value lies in range, and anything else reads as before |
| `ComfyInjection.GetNodeReseeded` | services/comfyService.ts:298-312 | every node id keeps its presence, and its node is reseeded as above |
| `ComfyInjection.InjectFrame` | services/comfyService.ts:277-282 | an injection keeps the node ids and leaves every other node as it was |
| `ComfyInjection.InjectAll` | services/comfyService.ts:284-293 | the injections of one submission (`Writes`: prompt, negative prompt, model, batch size, uploaded name, then width and height when an aspect ratio is mapped), applied in that order, keep the node ids and touch only nodes the mappings name |
| `ComfyInjection.InjectEachFrame` | services/comfyService.ts:284-293 | a run of injections keeps the node ids and every node that none of them names |
| `ComfyInjection.InjectReads` | services/comfyService.ts:277-282 | after one injection, a node's input holds the injected value exactly when the call applies and writes that node and field; otherwise it reads as before, including when the node had no `inputs` |
| `ComfyInjection.InjectEachUntouched` | services/comfyService.ts:284-293 | a run of injections none of which writes a given node and field leaves that input as it was |
| `ComfyInjection.InjectEachLastWriter` | services/comfyService.ts:284-293 | the last writer wins: when an injection applies and no later one writes the same node and field, the final graph holds its value there |
| `ComfyInjection.InjectAllWritesModule` | services/comfyService.ts:284-288 | after all injections, the input a prompt, negative-prompt, model, batch-size or image-upload mapping points at holds that module's value (the uploaded name for the image) when the node exists and no later injection writes the same place |
| `ComfyInjection.InjectAllWritesSize` | services/comfyService.ts:290-293 | with an aspect-ratio mapping, the height input holds the height, and the width input holds the width unless the height is mapped to the same node and field |
| `ComfyInjection.InjectThenReseed` | services/comfyService.ts:284-312 | an injected value reaches the submitted graph unchanged, unless it is a seed-like value under a seed key, which then lies in range |
| `ComfyInjection.ReseedKeepsInput` | services/comfyService.ts:298-312 | seed randomisation keeps every present input; a seed-like value under a seed key becomes a seed in range, any other value is kept |
| `ComfyInjection.ModuleValueSent` | services/comfyService.ts:284-312 | the submitted graph holds a module's value at its mapped input when the mapping applies and is not overwritten later, unless the value is seed-like under a seed key |
| `ComfyInjection.NoUploadSendsEmptyName` | services/comfyService.ts:271-288 | without an upload, the mapped image input of the submitted graph holds `''` |
| `ComfyGeneration.PrepErrorIffNotBuilt` | services/comfyService.ts:260-276 | the checks stop the job exactly when it is not built (page runnable, workflow stored with a graph, server usable, upload stored when wanted), and an upload error arises only once every other check has passed |
| `ComfyGeneration.PrepareJob` | services/comfyService.ts:250-312 | fails iff a check fails, with `PrepError`'s error: not configured, workflow lost, no server, failed deep copy, then an unreachable, refused or non-JSON upload. The upload is sent iff the other checks pass, an image is given and the upload module is mapped. On success it gives the chosen server's url, the template with the injections (`''` for the image unless uploaded) and the seed step applied, and the output and text node ids |
| `ComfyGeneration.SubmitOutcome` | services/comfyService.ts:316-338 | success iff the reply is 2xx JSON, with its prompt id, or `"undefined"` when it has none. A refusal carries the status and at most 100 characters of the body, a non-JSON 2xx body is `BadReply`, and a network failure becomes the CORS/timeout error |
| `ComfyGeneration.ViewUrls` | services/comfyService.ts:364-366 | one `{base}/view?filename=..&subfolder=..&type=..` url per image, in order |
| `ComfyGeneration.FirstWithImages` | services/comfyService.ts:360 | the first output that has `images`, or none iff no output has them |
| `ComfyGeneration.TextOf` | services/comfyService.ts:373 | `text[0]`, else `string[0]`, else the serialised record |
| `ComfyGeneration.Extract` | services/comfyService.ts:360-374 | images come from the configured node, otherwise from the first output with `images`. When that output has images, `images` is their view urls and `imageUrl` the first of them; otherwise both are absent. The text is the configured text node's text when that node has an output, and absent otherwise |
| `ComfyGeneration.Completed` | services/comfyService.ts:354-379 | a reply completes the job iff it parsed, holds a record for the prompt with `outputs`, and the extracted result has an image url or a text; the output is then that extracted result |
| `ComfyGeneration.HistoryEntry` | services/comfyService.ts:377 | the saved entry carries the prompt id, the image url, the text, the clock, the size and the page; its prompt is the user's, or `Art Task` when empty, so never empty |
| `ComfyGeneration.Tick` | services/comfyService.ts:345-382 | one poll ends done iff the reply completes the job; a record without `outputs` raises its own error. The repeated-failure error is raised iff the poll is refused for the eleventh consecutive time or later. The counter grows on a refused poll, is kept on an unreachable one, and is reset otherwise |
| `ComfyGeneration.PollResult` | services/comfyService.ts:341-385 | at most 150 polls, returning at the first that completes the job, with the history entry saved. Otherwise the only failure is the timeout, after all 150 polls, none of which completed, with the history unchanged |
| `ComfyGeneration.SubmitAndPoll` | services/comfyService.ts:314-385 | a refused, unreachable or garbled submission fails with `SubmitOutcome`'s error. A queued one (2xx JSON) succeeds iff one of the 150 polls for its prompt id completes it, with the first completing poll's output; otherwise it fails with the timeout |
| `ComfyGeneration.GenerateWithComfy` | services/comfyService.ts:260-385 | a failed check fails with `PrepError`'s error. A built job that is not queued fails with `SubmitOutcome`'s error. A built, queued job succeeds iff one of the 150 polls completes it, with the output of the first that does; its only failure is the timeout. A result is logged as `HistoryEntry`; a failure leaves the history unchanged and is never the repeated-failure error |
| `AdminConsole.AvailableNodes` | components/AdminDashboard.tsx:95-106 | empty unless a stored workflow with a graph is bound. Otherwise one entry per graph key, in order, with the node's type and input keys; its title is `_meta.title`, else the node type, else `Node <id>`, so never empty |
| `AdminConsole.PickerFindsNode` | components/AdminDashboard.tsx:257-259 | looking the node up in the picker list finds the graph's node, so its first input is the graph's first input of that node |
| `AdminConsole.PickerFirstInput` | components/AdminDashboard.tsx:257-259 | the field reset value is the selected node's first input, or `''` when the node is unknown or has no inputs |
| `AdminConsole.SwapKeepsMultiset` | components/AdminDashboard.tsx:218-222 | exchanging two entries keeps the same entries |
| `AdminConsole.MoveMenuItem` | components/AdminDashboard.tsx:216-225 | swaps with the neighbour above or below exactly when it exists, otherwise leaves the list unchanged; always a permutation of the same length in which only the two swapped positions differ |
| `AdminConsole.DeletePage` | components/AdminDashboard.tsx:190-202 | a system page id, or an unconfirmed delete, leaves the list unchanged; otherwise exactly the pages with another id remain, each as often as before (in order, by `Lists.FilterAppend`) |
| `AdminConsole.SystemPagesSurvive` | components/AdminDashboard.tsx:34 | no deletion removes a history, guestbook, outfit or text-to-image page |
| `AdminConsole.ToggleMenu` | components/AdminDashboard.tsx:204-208 | flips `isEnabled` of the pages with the id and changes nothing else on them; pages with another id are unchanged |
| `AdminConsole.ToggleMenuTwice` | components/AdminDashboard.tsx:204-208 | toggling twice restores the list |
| `AdminConsole.UpdateMenuItem` | components/AdminDashboard.tsx:210-214 | pages with another id are unchanged; every page keeps its id and enabled flag; on the pages with the id, each field the patch gives (label, workflow, title, description, output node, layout, mappings, presets) takes the patched value, the others stay |
| `AdminConsole.UpdateMenuItemIdempotent` | components/AdminDashboard.tsx:210-214 | applying the same patch twice is the same as once |
| `AdminConsole.FlipModule` | components/AdminDashboard.tsx:232-234 | flips `isEnabled` of exactly the modules with the id; ids and labels are kept |
| `AdminConsole.FlipModuleTwice` | components/AdminDashboard.tsx:232-234 | flipping twice restores the modules |
| `AdminConsole.ToggleLayoutModule` | components/AdminDashboard.tsx:227-236 | an unknown page changes nothing. Otherwise every page with the id gets the flipped module list of the page found: its own list, or the default when it has none. Nothing else changes |
| `AdminConsole.Write` | components/AdminDashboard.tsx:254 | the key reads the value and every other key reads as before |
| `AdminConsole.MappingAfter` | components/AdminDashboard.tsx:252-260 | the key reads the value; choosing a node outside aspect ratio resets the field; every other key keeps its value |
| `AdminConsole.PagesAfterMappingUpdate` | components/AdminDashboard.tsx:248-264 | writing the new mapping table onto the page with the id updates that page as `UpdateModuleMapping` states and leaves the other pages alone |
| `AdminConsole.UpdateModuleMapping` | components/AdminDashboard.tsx:248-264 | an unknown page changes nothing. Otherwise, on the pages with the id (the default `{nodeId:'', field:''}` when unmapped): only this module's mapping changes; the key reads the value; choosing a node outside aspect ratio resets the field to that node's first input, or `''`; other modules and other pages are unchanged |
| `AdminConsole.UpdateServer` | components/AdminDashboard.tsx:301-303 | servers with another id are unchanged; ids are kept; on the servers with the id, name, url, enabled flag and departments take the patched value when given and stay otherwise |
| `AdminConsole.FlipDepartment` | components/AdminDashboard.tsx:308-310 | the department's membership is flipped and every other department's is kept: a new one is appended at the end; a listed one is removed with all its occurrences (`RemoveDepartment`), every other department kept as often as before |
| `AdminConsole.FlipDepartmentNoDuplicates` | components/AdminDashboard.tsx:308-310 | flipping keeps a duplicate-free list duplicate-free |
| `AdminConsole.FlipDepartmentTwice` | components/AdminDashboard.tsx:308-310 | on a duplicate-free list, adding an absent department and flipping it again restores the list |
| `AdminConsole.ToggleServerDept` | components/AdminDashboard.tsx:305-312 | an unknown server changes nothing. Otherwise the servers with the id get `FlipDepartment` of the found server's list, so the department is appended at the end or removed; other fields and other servers are unchanged |
| `AdminConsole.AddDepartment` | components/AdminDashboard.tsx:390-395 | a non-empty new name is appended at the end; otherwise the list is unchanged; a duplicate-free list stays duplicate-free |
| `AdminConsole.RemoveDepartment` | components/AdminDashboard.tsx:397-399 | exactly the other departments remain, each as often as before and in order (by `Lists.FilterAppend`), still duplicate-free |
| `AdminConsole.RemoveDepartmentAt` | components/AdminDashboard.tsx:397-399 | in a duplicate-free list, removing the department at index k closes the gap and keeps the others in order |
| `AuthModal.GenerateCaptcha` | components/AuthModal.tsx:32-40 | four characters, the i-th being the alphabet letter at floor(draw·36), so every character is a digit or an upper-case letter from `0-9A-Z` |
| `AuthModal.Upper` | components/AuthModal.tsx:114 | upper-cases the ASCII letters, position by position |
| `AuthModal.CaptchaCaseInsensitive` | components/AuthModal.tsx:114 | a code of digits and upper-case letters, as every generated code is, passes the check typed as shown or in lower case |
| `AuthModal.HandleSubmit` | components/AuthModal.tsx:77-158 | a stored admin record decides an `admin` login, by exact password match and before any other check. The built-in admin login is given iff no admin is stored and the password is `admin`. Any other submission, including an `admin` login that neither rule decides, has empty fields, then a wrong captcha, rejected first. Registration succeeds iff the passwords match and the phone is new, and it appends exactly one `user`; past the captcha it is rejected first for mismatched passwords, then for a taken phone, neither of which redraws the captcha. Such a login succeeds iff some stored user matches phone and password, giving the first such user's profile without password and with role `user` by default; otherwise it is `BadCredentials`. The list changes only on registration, and the captcha is redrawn exactly after a wrong password, a wrong captcha, bad credentials or a registration |
| `AuthModal.AdminPhoneFallsThrough` | components/AuthModal.tsx:82-157 | with no administrator stored, a login as `admin` with another password than `admin` never logs in; with filled fields and the right captcha it is `BadCredentials` |
| `AuthModal.SubmitKeepsPhonesUnique` | components/AuthModal.tsx:120-140 | no submission makes two users share a phone |
| `AuthModal.RegisterThenLogin` | components/AuthModal.tsx:120-157 | after registering, logging in with the same phone and password succeeds with role `user` and the chosen department |
| `AuthModal.AdminPhoneRegistrationShadowsBootstrap` | components/AuthModal.tsx:82-108 | once `admin` has been registered as an ordinary user, it is the stored administrator record, and the built-in administrator login no longer succeeds |

## Left out

- Network I/O is not modelled; backend replies are inputs. This covers `fetch` itself, the connection probes `checkComfyConnection` and `testConnection`, CORS, and the `TypeError` test that tells a network error apart (an unreachable server is its own reply).
- Delays (`setTimeout` between polls) are not modelled. Only the number of polls is.
- The client id string (`client_` plus random base-36 characters) is not part of the submitted payload model, since it does not affect any result.
- JSON numbers are integers. Floating-point values, and JavaScript's rule that integer-like keys enumerate first, are not modelled; key order is insertion order.
- `JSON.parse` failures of the user list and of the other storage keys are not modelled; those keys hold well-formed values, and only the page-config key models its malformed states.
- `saveHistoryItem` failing inside the poller (a storage quota error, which the poller would swallow and then poll again) is not modelled.
- A comment without a `replies` array is not modelled; comments always carry one.
- `AuthModal.Upper`: upper-cases ASCII only. Unicode case mapping (where, for example, `ı` upper-cases to `I`) is not modelled.
- Closing the modal, alerts, confirmation dialogs (modelled as a `confirmed` flag), the expanded-page and expanded-module state, and resetting the form on a tab change are UI effects and are not modelled.
- `updateModuleLabel`, the model-preset handlers, page creation, server add/remove/save, home-page slides and features, site settings, and the user-management tab are not modelled. They are further record updates of the same shape as `UpdateMenuItem`, and no property depends on them.
- `ProfilePage.tsx`, `services/imageUtils.ts` (canvas work), `services/geminiService.ts` (a foreign SDK), and the presentational components are not part of this model.
- `SubmitOutcome`: cuts a refusal's body at 100 Dafny characters (code points), where JavaScript's `slice` counts UTF-16 code units. The two differ only for bodies with characters outside the Basic Multilingual Plane.
- `HistoryEntry`: when the `/prompt` reply has no `prompt_id`, the code saves the entry with an `undefined` id; the model uses the string `"undefined"`, the value the poll url and the history lookup see.
- `PrepareJob`: an upload that answers 2xx with JSON lacking `name` is not modelled (the code would inject `undefined`). A 2xx body that is not JSON is modelled as `UploadGarbled` and fails with `BadReply`.
- `PrepareJob`: a missing `apiJson` fails at the deep copy, before the upload, as the code does when it is `undefined`. A `null` `apiJson` passes the copy and fails later with a `TypeError`, after the upload. The model does not distinguish `null` from a missing graph.
- `saveWorkflow` is modelled as a function that returns the appended list, not as an in-place `push`. No other reference to that list exists.
