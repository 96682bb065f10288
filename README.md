# modu-web front-end core, modelled in Dafny

This project models the data and control logic at the centre of the modu-web front end, and
proves properties of it. There are four parts:

- **The request pipeline of `src/app.ts`:**
  - `toCamelCase`, the recursive body normaliser that renames snake_case keys to camelCase.
  - `errorShow`, the decision table from an error's `show_type` tag to toasts, notifications
    and navigation.
  - `responseHandler`, the session guard that sends a 401 to the login page and normalises
    every body.
  - `errorThrower` and `errorHandler`, which turn a `success: false` envelope into a
    `BizError` and classify every thrown error.
  - The request interceptor that adds the `Authorization` header.
- **The login request of `src/services/auth/index.ts`:** the form-urlencoded body built with
  `encodeURIComponent`, and the request options.
- **The model picker of `ModelSelect.tsx`:** the default provider and model lookup, hiding
  empty provider groups, the case-insensitive keyword filter, the disabled predicate and its
  click guard, and the "add" button rule.
- **The Cube sidebar of `CubeWrapper.tsx`:** building the menu items and the menu-key to
  `{path, key}` table from the workspace list, highlighting the current page's item (the last
  prefix match wins), and the click rule.

Modules:

| module | file | contents |
|---|---|---|
| `Wrappers` | `wrappers.dfy` | `Option` |
| `Text` | `text.dfy` | prefixes, substrings, ASCII case mapping, decimal rendering |
| `Lists` | `lists.dfy` | lodash `_.find` and `_.filter` with their order guarantees |
| `OrderedMaps` | `ordered_maps.dfy` | a JavaScript object as insertion-ordered entries |
| `Json` | `json.dfy` | JSON values, truthiness, property access, `toCamelCase` |
| `FormEncoding` | `form_encoding.dfy` | `encodeURIComponent` / `decodeURIComponent`, the login body |
| `RequestPipeline` | `request_pipeline.dfy` | `errorShow`, `errorThrower`, `responseHandler`, `errorHandler`, the interceptor |
| `ModelPicker` | `model_select.dfy` | the model picker rules |
| `CubeMenu` | `cube_menu.dfy` | the sidebar menu |

How the environment is modelled:

- The browser calls (antd `message` and `notification`, `history.push`,
  `window.location.href = …`) are entries appended to an action log. This log is the `log`
  field of `RequestPipeline.Browser`, and the `navigations` field of `CubeMenu.CubeWrapper`.
- `location` and `localStorage` are inputs.
- Objects that the source updates in place are classes whose methods state their whole new
  state: the response, the per-request options, the request config and the sidebar component.
  The pure parts are functions, each with lemmas relating it to a partner property.

A JavaScript object is a sequence of (key, value) entries in insertion order:

- Assigning to a key that is present replaces its value in place.
- Assigning to a new key appends it.
- `_.mapKeys`, the `{...a, ...b}` spread and a run of `obj[k] = v` statements are all folds
  of that assignment (`OrderedMaps.PutAll`).
- Lodash's `_.forEach` over an object visits the entries in this order.

## Model

| member | source | states |
|---|---|---|
| Text.ToLower | src/pages/Cube/Workspace/components/llm/ModelSelector/ModelSelect.tsx:139-144 | `_.toLower` keeps the length and lower-cases every ASCII capital, leaving every other character |
| Text.ToLowerIdempotent | src/pages/Cube/Workspace/components/llm/ModelSelector/ModelSelect.tsx:139-144 | lower-casing twice is lower-casing once |
| Text.NatToString | src/app.ts:244 | the rendering of a natural number is a non-empty digit string without a leading zero whose decimal value is the number |
| Text.IntToString | src/app.ts:244 | the decimal rendering in a template literal starts with `-` exactly for negative numbers, and what follows the sign is a digit string whose value is the magnitude |
| Lists.Find | src/pages/Cube/Workspace/components/llm/ModelSelector/ModelSelect.tsx:62-71 | `_.find` returns an element exactly when some element satisfies the predicate, and then the first such element |
| Lists.Filter | src/pages/Cube/Workspace/components/llm/ModelSelector/ModelSelect.tsx:116-121 | `_.filter` keeps exactly the satisfying elements as an order-preserving subsequence, with the count of them as its length |
| Lists.FilterAll | src/pages/Cube/Workspace/components/llm/ModelSelector/ModelSelect.tsx:132-148 | a filter whose predicate holds everywhere returns its input |
| Lists.FilterCongruent | src/pages/Cube/Workspace/components/llm/ModelSelector/ModelSelect.tsx:132-148 | filters with predicates that agree on every element return the same list |
| OrderedMaps.Get | src/wrappers/cube/CubeWrapper.tsx:196-197 | `obj[k]` is undefined exactly when `k` is not a key, and is otherwise the value stored under `k` |
| OrderedMaps.Put | src/wrappers/cube/CubeWrapper.tsx:124-127 | `obj[k] = v` keeps every existing key in its position, appends a new key at the end, and preserves distinct keys |
| OrderedMaps.GetPut | src/wrappers/cube/CubeWrapper.tsx:124-127 | after `obj[k] = v`, `k` reads `v` and every other key reads what it did before |
| OrderedMaps.LastValue | src/app.ts:50 | the value of the last entry with a given key, the one a left-to-right run of assignments leaves |
| OrderedMaps.PutAll | src/app.ts:50 | a run of assignments yields the union of the key sets, keeps distinct keys and the positions of the keys already present |
| OrderedMaps.GetPutAll | src/app.ts:50 | after a run of assignments each key holds its last assigned value, or its old value when never assigned |
| OrderedMaps.PutAllEntriesFrom | src/app.ts:49-58 | every entry of the result comes from the object or from the assignments |
| OrderedMaps.PutAllFresh | src/app.ts:49-58 | assigning new, pairwise distinct keys just appends them in order |
| OrderedMaps.MapValues | src/app.ts:49-58 | `_.mapValues` keeps every key in its position and applies the callback to its value |
| OrderedMaps.PutAllMapValues | src/app.ts:49-58 | renaming keys and then mapping values equals mapping values first: assignment decides where a value goes, never what it is |
| Json.Prop | src/app.ts:145-150 | a property read finds a value only on an object holding that key, and always finds one there |
| Json.CamelCase | src/app.ts:50 | the converted key has no `_`, `-` or space and does not start with a capital |
| Json.CamelCaseIdempotent | src/app.ts:50 | converting a converted key changes nothing |
| Json.CamelCaseFixedPoints | src/app.ts:50 | the converter leaves a key alone exactly when it has no separator and does not start with a capital |
| Json.CamelCaseExamples | src/app.ts:50 | `show_type` becomes `showType` |
| Json.MapKeys | src/app.ts:50 | renaming the keys gives distinct keys, and never more entries than the input |
| Json.ToCamelCase | src/app.ts:43-62 | scalars are returned unchanged; arrays stay arrays of the same length and objects stay objects; every object in the result has distinct keys |
| Json.ConvertValue | src/app.ts:51-57 | the value callback returns values whose objects, at every depth, have distinct keys: always for arrays and objects, which it normalises, and for anything else whenever the input already has them |
| Json.ArrayCase | src/app.ts:44-46 | an array is mapped element by element, in order |
| Json.ObjectCaseAsWritten | src/app.ts:47-58 | the object case is `_.mapValues(_.mapKeys(obj, camelCase), convert)`, in the order written |
| Json.NormalisedValueOrigin | src/app.ts:49-58 | every value of a normalised object is the normalisation of some value of the input |
| Json.ObjectKeys | src/app.ts:49-50 | the key set of the result is the image of the input's key set under the converter |
| Json.ObjectLaterKeyWins | src/app.ts:50 | when two keys convert to the same key, the later field supplies the value |
| Json.ObjectIdempotent | src/app.ts:47-58 | the object step of idempotence, given idempotent field values |
| Json.ToCamelCaseIdempotent | src/app.ts:43-62 | normalising a normalised value changes nothing |
| FormEncoding.EncodeUriComponent | src/services/auth/index.ts:37 | `encodeURIComponent` writes only unescaped characters and `%`, so never a literal `=` or `&` |
| FormEncoding.Utf8 | src/services/auth/index.ts:37 | a character is written as one to four octets |
| FormEncoding.DecodeEncodeChar | src/services/auth/index.ts:37 | decoding undoes the encoding of one character, whatever follows it |
| FormEncoding.DecodeEncode | src/services/auth/index.ts:37 | `decodeURIComponent(encodeURIComponent(s)) == s` for every string |
| FormEncoding.LoginBody | src/services/auth/index.ts:34-39 | the body is empty exactly when the record is |
| FormEncoding.LoginBodySegments | src/services/auth/index.ts:34-39 | an empty record gives the empty body; `n` entries give exactly `n - 1` literal `&`, and the `&`-segments are the encoded pairs in entry order |
| FormEncoding.Join | src/services/auth/index.ts:39 | joining nothing gives the empty string, and a join starts with its first segment |
| FormEncoding.EncodePair | src/services/auth/index.ts:37 | each segment holds exactly one `=`, between the encoded key and the encoded value |
| FormEncoding.JoinOccurrences | src/services/auth/index.ts:39 | joining `n` separator-free segments puts exactly `n - 1` separators in |
| FormEncoding.SplitJoin | src/services/auth/index.ts:39 | splitting undoes joining when no segment holds the separator |
| FormEncoding.ParsePairEncoded | src/services/auth/index.ts:37 | reading one segment back gives the original key and value |
| FormEncoding.LoginBodyRoundTrip | src/services/auth/index.ts:34-39 | splitting the body on `&` and `=` and percent-decoding recovers every entry, in order |
| FormEncoding.LoginDefaults | src/services/auth/index.ts:29-39 | the default options have the distinct names `method`, `headers` and `data` |
| FormEncoding.Login | src/services/auth/index.ts:29-41 | the request goes to `/api/login` |
| FormEncoding.LoginOptions | src/services/auth/index.ts:29-40 | a caller option overrides the default of the same name; without one the default stays |
| FormEncoding.LoginWithoutOptions | src/services/auth/index.ts:29-39 | without caller options the request is a POST with the form content type and the login body as data |
| RequestPipeline.ShowTypeOf | src/app.ts:151-171 | a tag selects the case whose wire value it equals, and every other value selects `default` |
| RequestPipeline.ErrorSource | src/app.ts:145-150 | the fields are read from the error itself or from its `content` when that is truthy; a present error never yields null |
| RequestPipeline.ErrorShowActions | src/app.ts:138-175 | an array shows one warning with its first element's `msg` (none when empty); otherwise, reading from `content` when truthy: SILENT shows nothing, WARN_MESSAGE one warning with the message, ERROR_MESSAGE one error toast, NOTIFICATION one notification titled by the code, REDIRECT an error toast then a push to `target`, and any other tag one error toast |
| RequestPipeline.ErrorShowUsesContent | src/app.ts:145-150 | an error with a truthy `content` is presented as that content would be |
| RequestPipeline.ErrorShowPolicy | src/app.ts:140-174 | nothing is shown exactly for a non-array SILENT error; there is a navigation exactly for REDIRECT, and then only after its error toast; never an info notice or a location change |
| RequestPipeline.ErrorThrower | src/app.ts:212-226 | reading `content.message` throws a TypeError exactly when the body or its `content` is missing or null; otherwise a `BizError` is thrown exactly when `success` is falsy |
| RequestPipeline.BizErrorObject | src/app.ts:218-224 | the object thrown is recognised as a `BizError` by the handler |
| RequestPipeline.DefaultShowType | src/app.ts:215 | the `showType` is always truthy: the content's own `show_type` when truthy, ERROR_MESSAGE otherwise |
| RequestPipeline.BizErrorKeysUnique | src/app.ts:218-224 | the thrown error has distinct property names |
| RequestPipeline.BizErrorCode | src/app.ts:220 | the thrown error's `code` is the envelope's |
| RequestPipeline.BizErrorMessage | src/app.ts:214-221 | its `message` is the content's |
| RequestPipeline.BizErrorTarget | src/app.ts:216-224 | its `target` is the content's |
| RequestPipeline.BizErrorFixedFields | src/app.ts:215-223 | its `name` is `BizError`, its `content` the content, its `showType` the content's `show_type` or ERROR_MESSAGE |
| RequestPipeline.BizErrorNoShowTypeKey | src/app.ts:218-224 | the thrown error has no `show_type` property of its own |
| RequestPipeline.BizErrorFields | src/app.ts:212-226 | all of the above for the error `errorThrower` throws |
| RequestPipeline.BizErrorThrownExample | src/app.ts:212-226 | a concrete `success: false` envelope is thrown as the expected `BizError` |
| RequestPipeline.BizErrorShownExample | src/app.ts:145-157 | that `BizError` would be presented as one warning carrying its message |
| RequestPipeline.IsAuthExempt | src/app.ts:184-188 | every page under `/login` is exempt from the guard |
| RequestPipeline.RedirectUri | src/app.ts:191-197 | on a page that is not exempt the redirect target is `/` for an API path and the page itself otherwise |
| RequestPipeline.SessionGuardActions | src/app.ts:184-199 | the guard does nothing exactly on exempt pages, and elsewhere shows the signing-in notice and then changes the location |
| RequestPipeline.SessionGuardRedirect | src/app.ts:182-199 | exempt pages do nothing; any other page shows one notice, then goes to `/login?redirectUri=` followed by `/` for an API path and by the page otherwise, so the query-parameter branch never fires |
| RequestPipeline.SessionGuardExamples | src/app.ts:182-199 | `/login` and `/setup` do nothing, and `/cube/chat` is sent to `/login?redirectUri=/cube/chat` |
| RequestPipeline.NoShowTypeAfterNormalising | src/app.ts:204 | a normalised body has no `show_type` property |
| RequestPipeline.NoShowTypeInNormalisedSource | src/app.ts:145-150 | nor has the `content` that `errorShow` reads in its place |
| RequestPipeline.TransportBodyPresentation | src/app.ts:238-242 | a response body reaches `errorShow` normalised, so it is always exactly one toast: a warning for an array, an error toast otherwise |
| RequestPipeline.SilentBodyConverted | src/app.ts:49-58 | the converted fields of `{show_type: SILENT, message: "m"}` are `showType` and `message` |
| RequestPipeline.SilentBodyNormalised | src/app.ts:43-62 | that body normalises to `{showType: SILENT, message: "m"}` |
| RequestPipeline.RawSilentBody | src/app.ts:145-154 | the raw body would be shown as nothing |
| RequestPipeline.NormalisedSilentBody | src/app.ts:145-173 | the normalised body is shown as one error toast |
| RequestPipeline.SilentBodyExample | src/app.ts:238-242 | the two together: SILENT before normalising, an error toast after |
| RequestPipeline.IsBizError | src/app.ts:236 | only an object can be recognised as a `BizError` |
| RequestPipeline.Presentation | src/app.ts:236-254 | a `BizError` is shown by `errorShow`; otherwise a response with a truthy body is shown by `errorShow` on that body, one without gives "Response status:N", and no response gives the retry message for a sent or an unsent request |
| RequestPipeline.HandleError | src/app.ts:228-255 | as written, the handler crashes exactly when the error has no response |
| RequestPipeline.HandleErrorOutcomes | src/app.ts:228-255 | a crash shows nothing; the handler re-throws exactly when options exist and ask to skip or the status is 401; otherwise the guard's actions are followed by the presentation of the normalised response |
| RequestPipeline.UnauthorisedHandling | src/app.ts:228-234 | a 401 with an options object runs the guard and re-throws; without one it runs the guard and presents the error as well |
| RequestPipeline.BizErrorNeverShown | src/app.ts:228-236 | as written, a `BizError` from `errorThrower` crashes in the guard and shows nothing |
| RequestPipeline.HandleErrorGuarded | src/app.ts:228-255 | the handler with the guard applied only to errors with a response never crashes |
| RequestPipeline.HandleErrorGuardedOutcomes | src/app.ts:228-255 | it agrees with the handler as written whenever there is a response, and otherwise re-throws on request or presents the error |
| RequestPipeline.BizErrorExample | src/app.ts:212-237 | a concrete raw envelope: nothing is shown as written, and one warning with the guard applied only to responses |
| RequestPipeline.NormalisedBizErrorShownAsError | src/app.ts:204-237 | if the envelope was camel-cased by the response interceptor first, a `BizError` is shown by the guarded handler as one error toast carrying its message, whatever tag the server sent |
| RequestPipeline.GuardedBizErrorShown | src/app.ts:236-237 | with the guard applied only to responses, a `BizError` is shown as `errorShow` shows its content |
| RequestPipeline.TokenScheme | src/app.ts:262 | the scheme is the stored token type whenever that is non-empty, and `bearer` when it is absent or empty |
| RequestPipeline.AuthorizationValue | src/app.ts:260-264 | there is a header value exactly when the stored access token is non-empty |
| RequestPipeline.InterceptedHeaders | src/app.ts:260-264 | `Authorization` is added or replaced exactly when there is a value; every other header is untouched |
| RequestPipeline.AuthorizationParses | src/app.ts:261-263 | the header reads back as the scheme, one space, and the access token |
| RequestPipeline.AuthorizationExamples | src/app.ts:260-264 | `bearer T` by default, `Bearer T` with a stored type, nothing for an empty token |
| RequestPipeline.Browser.ErrorShow | src/app.ts:138-175 | the calls appended to the log are exactly `ErrorShowActions(error)` |
| RequestPipeline.Browser.ResponseHandler | src/app.ts:177-206 | the body is replaced by its normalisation; on 401 the guard's actions are logged and the options object, when there is one, is told to skip |
| RequestPipeline.Browser.Present | src/app.ts:236-254 | the calls appended are exactly `Presentation` of the error as it now is |
| RequestPipeline.Browser.ErrorHandler | src/app.ts:228-255 | the outcome and the calls appended are those of `HandleError` on the error and options as they were before the call; the response keeps its status and its data is normalised |
| RequestPipeline.Browser.ErrorHandlerGuarded | src/app.ts:228-255 | the outcome and the calls appended are those of `HandleErrorGuarded` |
| RequestPipeline.Browser.RequestInterceptor | src/app.ts:258-266 | the config's headers become `InterceptedHeaders`, and a fresh shallow copy of the config is returned |
| ModelPicker.DefaultSelection | src/pages/Cube/Workspace/components/llm/ModelSelector/ModelSelect.tsx:61-73 | a provider is selected exactly when one matches `defaultProvider`; a model only under a selected provider, and then one of its models matching `defaultModel` |
| ModelPicker.DefaultSelectionFirst | src/pages/Cube/Workspace/components/llm/ModelSelector/ModelSelect.tsx:61-73 | the selected provider is the first match, and the model the first matching model of it |
| ModelPicker.VisibleGroups | src/pages/Cube/Workspace/components/llm/ModelSelector/ModelSelect.tsx:116-121 | exactly the groups with models are listed, in input order, as many as there are non-empty groups |
| ModelPicker.KeywordMatchAsWritten | src/pages/Cube/Workspace/components/llm/ModelSelector/ModelSelect.tsx:135-147 | the keyword predicate as written, with its duplicated `_.includes` test, holds exactly when the single-test form does |
| ModelPicker.KeywordMatch | src/pages/Cube/Workspace/components/llm/ModelSelector/ModelSelect.tsx:137-141 | a model matches when no keyword is set or its lower-cased name contains the lower-cased keyword; an absent or empty keyword matches every model |
| ModelPicker.VisibleModels | src/pages/Cube/Workspace/components/llm/ModelSelector/ModelSelect.tsx:132-148 | exactly the matching models are kept, as an order-preserving subsequence, as many as there are matching models |
| ModelPicker.EmptyKeywordKeepsAll | src/pages/Cube/Workspace/components/llm/ModelSelector/ModelSelect.tsx:137 | an absent or empty keyword keeps every model |
| ModelPicker.KeywordCaseInsensitive | src/pages/Cube/Workspace/components/llm/ModelSelector/ModelSelect.tsx:138-145 | the keyword's case does not matter |
| ModelPicker.ModelNameCaseInsensitive | src/pages/Cube/Workspace/components/llm/ModelSelector/ModelSelect.tsx:138-145 | the model name's case does not matter |
| ModelPicker.GroupListedWithoutMatches | src/pages/Cube/Workspace/components/llm/ModelSelector/ModelSelect.tsx:116-148 | a group with models but no match is still listed, with an empty list |
| ModelPicker.Disabled | src/pages/Cube/Workspace/components/llm/ModelSelector/ModelSelect.tsx:164-168 | a row is enabled exactly when the model is not deprecated and its provider is active |
| ModelPicker.ClickEffects | src/pages/Cube/Workspace/components/llm/ModelSelector/ModelSelect.tsx:164-183 | a click on a disabled row does nothing; on an enabled row one call per present callback: `onSelect` with the provider and model names exactly when it is given, and first, and the popover closed exactly when its ref is set |
| ModelPicker.ClickSelectsOnce | src/pages/Cube/Workspace/components/llm/ModelSelector/ModelSelect.tsx:169-183 | an enabled click calls `onSelect(provider, model)` exactly once, before closing the popover |
| ModelPicker.ShowAddButton | src/pages/Cube/Workspace/components/llm/ModelSelector/ModelSelect.tsx:187-189 | the "add" button shows only on disabled rows, and exactly on those disabled by their provider and not deprecated |
| CubeMenu.PrivateSpace | src/wrappers/cube/CubeWrapper.tsx:100-105 | there is a private space exactly when the list holds one, and it is the first private workspace of the list |
| CubeMenu.PublicSpaces | src/wrappers/cube/CubeWrapper.tsx:108-112 | exactly the public workspaces, in list order, as many as the list holds |
| CubeMenu.FixedEntries | src/wrappers/cube/CubeWrapper.tsx:115-157 | the four assignments made before the team loop have distinct keys |
| CubeMenu.TeamEntries | src/wrappers/cube/CubeWrapper.tsx:168-171 | one assignment per public space, in list order: `menu-team-{uid}` to path `/cube/space/{uid}/bots` and key `/cube/space/{uid}` |
| CubeMenu.TeamItems | src/wrappers/cube/CubeWrapper.tsx:160-167 | one team item per public space, in list order: key `menu-team-{uid}`, caption the space's name |
| CubeMenu.KeyPathTable | src/wrappers/cube/CubeWrapper.tsx:115-173 | the finished table holds between four and four-plus-the-number-of-spaces entries, and its first four keys are the fixed ones in assignment order |
| CubeMenu.LastMatch | src/wrappers/cube/CubeWrapper.tsx:185-189 | the key of the last entry whose key prefixes the pathname, and none when no entry does |
| CubeMenu.TeamKeyNotFixed | src/wrappers/cube/CubeWrapper.tsx:161-169 | a `menu-team-` key never equals a fixed key |
| CubeMenu.TeamKeyInjective | src/wrappers/cube/CubeWrapper.tsx:161-169 | team keys are equal only for equal uids |
| CubeMenu.FixedEntriesPresent | src/wrappers/cube/CubeWrapper.tsx:124-157 | `menu-chat`, `menu-personal`, `menu-store-bot` and `menu-store-plugin` always map to their fixed paths and keys |
| CubeMenu.TeamEntryPresent | src/wrappers/cube/CubeWrapper.tsx:160-173 | every public space's team key maps to `/cube/space/{uid}/bots` and `/cube/space/{uid}` |
| CubeMenu.TableKeys | src/wrappers/cube/CubeWrapper.tsx:115-173 | the table's keys are the four fixed keys and one team key per public space |
| CubeMenu.TableEntryOrigin | src/wrappers/cube/CubeWrapper.tsx:115-173 | every entry of the table is a fixed entry or the team entry of a public space |
| CubeMenu.TableKeysUnique | src/wrappers/cube/CubeWrapper.tsx:115-173 | the table's keys are distinct |
| CubeMenu.FixedItemsNavigable | src/wrappers/cube/CubeWrapper.tsx:118-157 | every default and explore menu item has an entry in the table, so clicking it navigates |
| CubeMenu.TeamItemsNavigable | src/wrappers/cube/CubeWrapper.tsx:160-172 | clicking a team item navigates to that space's bots page |
| CubeMenu.BotStoreOnlyMatch | src/wrappers/cube/CubeWrapper.tsx:185-189 | on a bot store page only the bot store entry's key prefixes the pathname |
| CubeMenu.BotStoreSelected | src/wrappers/cube/CubeWrapper.tsx:185-189 | every bot store page selects `menu-store-bot`, whatever the workspaces |
| CubeMenu.PrefixMatchSelectsOtherSpace | src/wrappers/cube/CubeWrapper.tsx:185-189 | as written, the bots page of space `u10` selects the team item of space `u1` |
| CubeMenu.LastSegmentMatch | src/wrappers/cube/CubeWrapper.tsx:185-189 | with matching at a segment boundary: the last entry whose key prefixes the pathname up to a `/` or its end |
| CubeMenu.SpaceKeySegment | src/wrappers/cube/CubeWrapper.tsx:169-172 | with slash-free uids, a space key matches the bots page of a space at a segment boundary only for that space |
| CubeMenu.SegmentMatchIsOwnSpace | src/wrappers/cube/CubeWrapper.tsx:185-189 | every entry matching a space's bots page at a segment boundary carries that space's key |
| CubeMenu.OwnSpaceEntry | src/wrappers/cube/CubeWrapper.tsx:133-172 | every known space has an entry keyed by its own space key |
| CubeMenu.SegmentMatchSelectsOwnSpace | src/wrappers/cube/CubeWrapper.tsx:185-189 | with segment-boundary matching, the bots page of any known space selects an item of that space |
| CubeMenu.CubeWrapper.constructor | src/wrappers/cube/CubeWrapper.tsx:88-92 | the menu items, the selection and the table start empty |
| CubeMenu.CubeWrapper.LoadMenu | src/wrappers/cube/CubeWrapper.tsx:94-192 | without a private space nothing is set; otherwise there are two default items, two explore items, one team item per public space, and the table; the selection is `[k]` for the last matching key, or stays unchanged when none matches |
| CubeMenu.CubeWrapper.BuildTable | src/wrappers/cube/CubeWrapper.tsx:115-173 | the loop over the public spaces builds exactly `TeamItems` and `KeyPathTable` |
| CubeMenu.CubeWrapper.Highlight | src/wrappers/cube/CubeWrapper.tsx:185-189 | the scan leaves the selection at `[k]` for the `LastMatch` key, or unchanged |
| CubeMenu.CubeWrapper.OnMenuClick | src/wrappers/cube/CubeWrapper.tsx:193-199 | the selection becomes `[key]`; the mapped path is navigated to exactly when the table holds the key |

## Left out

- `getInitialState` in `src/app.ts` is not part of this model. It is a set of parallel
  network fetches with no logic of its own.
- The 10-second request `timeout` and the 200 ms search debounce are not modelled, because
  they concern timing only.
- Rendering, icons, theming and layout are left out of both UI components.
- The streaming chat service, the thin service wrappers and the other pages are not part of
  this model.
- `console.error` is left out; it has no effect on state.
- `Json.CamelCase` is a simplified `_.camelCase`:
  - It drops `_`, `-` and space.
  - It upper-cases the character after a dropped separator and lower-cases the first
    character.
  - It keeps every other character as it is.
  - Lodash also splits at case changes and digits, and lower-cases whole words.
  - The two agree on keys made of lower-case letters joined by single `_`, such as
    `show_type`. They differ on keys with digits (lodash turns `a2b_c` into `a2BC`, the
    model into `a2bC`), on keys with capitals, and on keys with other punctuation. Lodash
    drops characters such as `.`, `/` and `:` as word boundaries, so `a.b` becomes `aB`; the
    model keeps them and gives `a.b`.
  - `Json.ObjectKeys` and `Json.ObjectLaterKeyWins` do not depend on idempotence.
- Json.CamelCaseIdempotent: holds for the simplified converter only. Lodash's
  `_.camelCase` is not idempotent: `_.camelCase("aBC")` is `"aBc"`, so `a_b_c` becomes
  `aBC` and then `aBc`.
- Json.ObjectIdempotent: holds for the simplified converter only. With lodash,
  `{a_b_c: 1}` becomes `{aBC: 1}` and then `{aBc: 1}`.
- Json.ToCamelCaseIdempotent: holds for the simplified converter only. With lodash,
  normalising `{a_b_c: 1}` twice gives `{aBc: 1}`, not `{aBC: 1}`.
- `Text.ToLower` and the keyword filter handle ASCII letters only, so there is no Unicode
  case folding.
- `FormEncoding.EncodeUriComponent` works on Unicode scalar values. Strings with lone
  surrogates, on which `encodeURIComponent` throws, are not modelled.
- JSON numbers are integers (`JNum(int)`). JSON `undefined` and `null` are one value,
  `JNull`; both are falsy, and `toCamelCase` passes both through unchanged.
- A `BizError` property assigned `undefined` is modelled as absent, since reading it gives
  the same result.
- The wire values of `ErrorShowType` are taken to be `"SILENT"`, `"WARN_MESSAGE"`,
  `"ERROR_MESSAGE"`, `"NOTIFICATION"` and `"REDIRECT"`. The enum's own file is not part of
  this model. The model also takes every wire value to be truthy.
  `RequestPipeline.DefaultShowType` relies on this (src/app.ts:215,
  `content.show_type || ERROR_MESSAGE`): a falsy `SILENT` value would be replaced by
  ERROR_MESSAGE. Apart from that, only the equality of the tag with these values is used.
- `URLSearchParams(location.search).get('redirectUri')` is an input, `Location.redirectUriParam`.
  `RequestPipeline.SessionGuardRedirect` proves that it is never read.
- Property names that JavaScript orders before all others (integer-like keys) are ordered
  by insertion here. This matters for none of the keys that the modelled code writes.
- In the sidebar, a menu key that names an inherited property of a plain object
  (`menuKeyPath['constructor']`) is treated as absent.
- `ModelPicker` and `CubeMenu` model the provider status and the workspace type as small
  datatypes. Only the `ACTIVE`, `PRIVATE` and `PUBLIC` values matter; any other workspace
  type is `Other(tag)`, and such a workspace is neither the private space nor a team.
- `CubeMenu.CubeWrapper.LoadMenu`: when there is no private space, the source throws from
  inside a promise callback. This is modelled as `ok == false` with no state set.
- `RequestPipeline.Browser.ErrorHandler`: the error thrown inside `responseHandler` is
  modelled as the outcome `Crashed`. What the request library then does with it is not part
  of this model.
- The `BizError` branch of `errorHandler` (src/app.ts:236-237) is modelled as written,
  and as written it is never reached for a `BizError` thrown by `errorThrower`. Such an
  error has no `response`, and `responseHandler` reads `response.status` at line 182
  first (first finding below; `RequestPipeline.BizErrorNeverShown`).
- A response body's `show_type` is modelled as never honoured. `responseHandler` camel-cases
  the body at line 204, and `errorShow` then reads `show_type`, not `showType`, at lines
  148-151 (`RequestPipeline.TransportBodyPresentation`).
- RequestPipeline.BizErrorExample: assumes that `errorThrower` sees the raw envelope, before
  the response interceptor `responseHandler` (installed at src/app.ts:268) camel-cases it.
  The request library decides that order, and it is not part of this model. The same
  assumption is made by `RequestPipeline.BizErrorThrownExample`,
  `RequestPipeline.BizErrorShownExample` and `RequestPipeline.GuardedBizErrorShown` when
  they are applied to a raw envelope. If the interceptor runs first, the content has no
  `show_type`, and with the guard applied only to responses the error is shown as one error
  toast carrying its message (`RequestPipeline.NormalisedBizErrorShownAsError`).
- RequestPipeline.Browser.RequestInterceptor: `{ ...config }` is a shallow copy, so in the
  source the returned config shares its `headers` object with the one the interceptor
  changed at src/app.ts:261. The model copies the headers by value, so that sharing is not
  captured.
- FormEncoding.LoginDefaults: the login record's values are strings. How
  `encodeURIComponent` turns other value types into strings is not modelled.

## Findings

| source | as written | input that shows it | evidently intended | confidence | as-written member | corrected member |
|---|---|---|---|---|---|---|
| src/app.ts:230 | `errorHandler` calls `responseHandler(error.response, opts)`, which reads `response.status` (line 182), before the `BizError` branch at line 236 | the envelope `{success: false, code: 7, content: {message: "m", show_type: WARN_MESSAGE}}`: `errorThrower` throws a `BizError` with no `response`, so the handler throws a TypeError and shows nothing | the session guard runs only for errors with a response, and the `BizError` is shown by `errorShow`: one warning "m" if `errorThrower` sees the raw envelope, one error toast "m" if the response interceptor (line 268) has camel-cased it first | medium, not executed | RequestPipeline.BizErrorNeverShown | RequestPipeline.GuardedBizErrorShown |
| src/wrappers/cube/CubeWrapper.tsx:186 | the current menu item is chosen by a plain prefix test `_.startsWith(location.pathname, value.key)`, and the last match wins | a private space `u10`, a public space `u1`, and the page `/cube/space/u10/bots`: the key `/cube/space/u1` also prefixes it, so `menu-team-u1` is selected instead of `menu-personal` | a space's pages select that space's item: match only up to a path-segment boundary | low (only uids that prefix one another show it), not executed | CubeMenu.PrefixMatchSelectsOtherSpace | CubeMenu.SegmentMatchSelectsOwnSpace |
