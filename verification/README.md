# Taskbone flow engine for Obsidian, in Dafny

This project models the core of the Obsidian plugin for Taskbone. A *flow
configuration* ties an Obsidian command to a server-side *flow definition*. It
says where each input of the flow comes from: a constant, the active file, a
fixed file, a file the user picks, or a text prompt. It also lists the *result
actions* that carry the server's answer back into the vault: log, popup,
insert at the cursor, replace the active file, create-or-replace a file,
create-or-append a file. Configurations can also carry *triggers* that run them
when a file is opened.

The model covers these parts:

- the JSON schemas the plugin validates against, and the typed values they stand for, with decode/encode round trips (`Validation`, `Model`);
- `createRandomId`, `groupBy` and `arrayBufferToBase64` (`Tools`, `Base64`);
- the default result action and the default input configurations (`Actions`, `FlowConfigurations`);
- the execution of a flow configuration (`FlowConfigurations.Host`):
  - input resolution;
  - the prompt batch;
  - classification of the server's answer;
  - the projection of each action's output;
  - dispatch onto the vault;
- adding a configuration fetched from a URL;
- the file-open trigger engine and its once-per-file-and-session bookkeeping (`Triggers`);
- the host's command registry (`Commands`);
- the settings singleton in front of the persisted data (`SettingsStore`);
- the flow-definition cache (`FlowDefinitions`);
- the legacy image-annotation plugin in `main.ts` (`OcrPlugin`).

State the source changes in place is modelled as a class:

- the registry;
- the settings store;
- the trigger engine;
- the vault written by the actions;
- the annotation plugin.

Every method of those classes is proved equal to a specification function. The
properties are proved about those functions.

Some things the code calls are passed in as parameters:

- the network (server answers, fetched bodies, token answers);
- the file picker and the text prompt;
- the template renderer;
- the condition evaluator;
- `JSON.stringify`;
- the random value behind `createRandomId`;
- the flow definition `Host.ExecuteFlowConfiguration` runs with. The source finds it with `getCachedFlowDefinitionByURL` (`src/lib/flowConfigurations.ts:89`). The settings writes that lookup makes are not composed with the execution here.

Design choices:

- **No module cycle.** `execute` in `src/lib/commands.ts` reads the settings itself. Here `Commands.Execute` takes the current settings as an argument, which avoids a cycle between the command and settings modules.
- **Host base64.** `src/lib/flowConfigurations.ts` imports the host's `arrayBufferToBase64`, not the one in `src/lib/tools.ts`. The model uses the standard base64 encoding of `Tools.ArrayBufferToBase64` for both.
- **Finite fetch answers.** The cache lookup and the fetch in `src/lib/flowDefinitions.ts` call each other without bound. Here the server's answers are a finite list, and running out of answers (`Exhausted`) stands for retrying forever. The `undefined` result of the lookup cannot occur as written: the lookup returns a definition or keeps retrying.

## Model

| member | source | states |
|---|---|---|
| Validation.IsInputDefinition | src/lib/validation.ts:16-33 | an object with string `name` and `description` and a `type` that is "binary/base64" or "string"; other members allowed |
| Validation.IsOutputDefinition | src/lib/validation.ts:40-51 | an object with string `name` and `description`; other members allowed |
| Validation.IsFlowDefinition | src/lib/validation.ts:62-88 | an object with string `id`, `name`, `description` and `url`, and arrays of input and output definitions; the two Validation lemmas below are about it |
| Validation.IsInputConfiguration | src/lib/validation.ts:95-333 | an object with a string `name` that matches one of the eight (`type`, `sourceType`) variants with that variant's own fields (`value`, `pattern` with `isRegularExpression` and optional `autoRunOnCreate`, `path`) |
| Validation.IsCommand | src/lib/validation.ts:341-355 | an object with string `description`, `id` and `name` |
| Validation.IsAction | src/lib/validation.ts:399-454 | an object whose `action` is a plain action, or a file action with a string `filePath`, and whose `sourceType` is error or raw, or property with a string `property` |
| Validation.IsTrigger | src/lib/validation.ts:462-478 | an object with a string `condition`, event "fileOpen" and frequency "oncePerFileAndSession" |
| Validation.IsFlowConfiguration | src/lib/validation.ts:487-509 | an object with arrays of valid input configurations and actions, a valid `command`, a string `flow`, and a `triggers` member that is absent, null or an array of valid triggers |
| Validation.IsSettings | src/lib/validation.ts:519-544 | an object with string `baseUrl` and `version`, an `apiKey` that is absent, null or a string, and arrays of valid flow definitions and flow configurations |
| Validation.IsApiResponse | src/lib/validation.ts:552-576 | an object whose `constants` (an object), `records` (an array of objects) and `errors` (an array of strings) are each absent, null or of that shape |
| Validation.FlowDefinitionRequiresFields | src/lib/validation.ts:62-88 | a flow definition missing any of its six required fields is rejected |
| Validation.FlowDefinitionToleratesExtraFields | src/lib/validation.ts:62-88 | adding an unknown top-level field to a valid flow definition keeps it valid |
| Validation.InputConfigurationPairs | src/lib/validation.ts:307-333 | an accepted input configuration has a string `type` and `sourceType`, and the pair is one of the eight admitted ones |
| Validation.BinaryConstantOrPromptRejected | src/lib/validation.ts:214-280 | a binary constant or binary prompt input is rejected whatever its other fields are |
| Validation.ApiResponseErrorsMustBeStrings | src/lib/validation.ts:552-576 | a response whose `errors` holds a non-string item is rejected |
| Model.DecodeInputDefinition | src/lib/validation.ts:16-33 | decoding succeeds exactly when the input-definition schema accepts the document |
| Model.DecodeOutputDefinition | src/lib/validation.ts:40-51 | decoding succeeds exactly when the output-definition schema accepts the document |
| Model.DecodeFlowDefinition | src/lib/validation.ts:62-88 | decoding succeeds exactly when the flow-definition schema accepts the document |
| Model.FlowDefinitionRoundTrip | src/lib/validation.ts:62-88 | decoding the encoding of any flow definition gives it back |
| Model.DecodeInputConfiguration | src/lib/validation.ts:307-333 | decoding succeeds exactly when one of the eight variant schemas accepts the document, and the result is valid (no binary constant or prompt) |
| Model.InputConfigurationRoundTrip | src/lib/validation.ts:95-280 | a valid input configuration survives encoding and decoding |
| Model.InputConfigurationSchemaMatchesValid | src/lib/validation.ts:307-333 | the schema accepts a configuration's encoding if and only if the configuration is valid |
| Model.DecodeActionKind | src/lib/validation.ts:399-454 | the action kind decodes exactly when `action` is one of the six names, with a string `filePath` for the two file actions |
| Model.DecodeActionSource | src/lib/validation.ts:399-454 | the output source decodes exactly when `sourceType` is error, raw, or property with a string `property` |
| Model.DecodeAction | src/lib/validation.ts:399-454 | decoding succeeds exactly when the action schema accepts the document |
| Model.ActionRoundTrip | src/lib/validation.ts:399-454 | decoding the encoding of any action gives it back |
| Model.DecodeTrigger | src/lib/validation.ts:462-478 | decoding succeeds exactly when the trigger schema accepts the document, and the trigger is then a file-open, once-per-file-and-session one |
| Model.TriggerRoundTrip | src/lib/validation.ts:462-478 | the schema accepts a trigger's encoding if and only if it is valid, and a valid trigger round-trips |
| Model.DecodeCommand | src/lib/validation.ts:341-355 | decoding succeeds exactly when the command schema accepts the document |
| Model.DecodeTriggers | src/lib/validation.ts:487-509 | an absent or null triggers member means no triggers; otherwise it must be an array of valid triggers |
| Model.DecodeFlowConfiguration | src/lib/validation.ts:487-509 | decoding succeeds exactly when the configuration schema accepts the document, and the result is valid |
| Model.FlowConfigurationRoundTrip | src/lib/validation.ts:487-509 | a valid flow configuration survives encoding and decoding |
| Model.FlowConfigurationSchemaMatchesValid | src/lib/validation.ts:487-509 | the schema accepts a configuration's encoding if and only if every part of it is valid |
| Model.DecodeSettings | src/lib/validation.ts:519-544 | decoding succeeds exactly when the settings schema accepts the document, and the result is valid |
| Model.SettingsRoundTrip | src/lib/validation.ts:519-544 | valid settings survive encoding and decoding |
| Model.DecodeApiResponse | src/lib/validation.ts:552-576 | decoding succeeds exactly when the response schema accepts the document |
| Model.ApiResponseRoundTrip | src/lib/validation.ts:552-576 | decoding the encoding of any response gives it back |
| Base64.EncodeLength | src/lib/tools.ts:25 | the base64 text of n bytes has 4·⌈n/3⌉ characters |
| Base64.EncodeAlphabet | src/lib/tools.ts:25 | the base64 text uses only the alphabet, with `=` padding only at the end |
| Base64.DecodeEncode | src/lib/tools.ts:18-26 | decoding the base64 text of any bytes gives the bytes back |
| Tools.CreateRandomId | src/lib/tools.ts:1-4 | the id of a 32-bit value has 1 to 8 lowercase hex digits, no leading zero, and reads back as the value |
| Tools.ToHexDigits | src/lib/tools.ts:3 | `toString(16)` gives hex digits without a leading zero whose value is the number |
| Tools.GroupBy | src/lib/tools.ts:12-16 | the groups' keys are exactly the keys of the elements, each group holds its elements in array order, and the groups together hold every element once |
| Tools.MembersPlacement | src/lib/tools.ts:12-16 | each element lands in the group of its own key, after the earlier elements of that group |
| Base64.Encode | src/lib/tools.ts:25 | the RFC 4648 encoding that `btoa` applies to the byte string, three bytes per four characters with `=` padding; its length, alphabet and decoding are proved in EncodeLength, EncodeAlphabet and DecodeEncode |
| Base64.Btoa | src/lib/tools.ts:25 | `btoa` of a Latin-1 string has 4·⌈n/3⌉ characters, only alphabet characters and final padding, and decodes to the character codes |
| Tools.ArrayBufferToBase64 | src/lib/tools.ts:18-26 | the result is the base64 encoding of the bytes, has 4·⌈n/3⌉ characters and decodes back to the bytes |
| Actions.GetDefaultForAction | src/lib/actions.ts:4-42 | the named action with raw output, an empty path for file actions, `log` for an unknown name; always schema-valid and round-trips |
| FlowConfigurations.DuplicateWithNewCommand | src/lib/flowConfigurations.ts:13-18 | the copy differs only in its command: the name is prefixed with "Copy of ", the id is a fresh hex id, and the description is kept; validity is preserved |
| FlowConfigurations.GetDefaultInputConfigurationForTypes | src/lib/flowConfigurations.ts:20-62 | no configuration exactly for an unknown source type or a binary constant or prompt; otherwise a valid, schema-accepted blank of that type with the markdown or image pattern for file selection |
| FlowConfigurations.GetAdditionalFileData | src/lib/flowConfigurations.ts:64-75 | the six `/obsidian/…` keys under the input's name with the vault name, metadata, path, base name and extension; the parent path only when there is a parent |
| FlowConfigurations.MetadataKeysDistinct | src/lib/flowConfigurations.ts:64-75 | the six file-data keys never collide |
| FlowConfigurations.NameNotMetadataKey | src/lib/flowConfigurations.ts:64-75 | an input's own value is never overwritten by its file data |
| FlowConfigurations.FindDefinition | src/lib/flowConfigurations.ts:130-132 | the first input definition with the name, or none exactly when no definition has it |
| FlowConfigurations.PromptTexts | src/lib/flowConfigurations.ts:153-168 | one prompt per gathered name, in order, described by its definition or by "" |
| FlowConfigurations.ReadFile | src/lib/flowConfigurations.ts:110-126 | a text input reads the text; a binary input reads base64 that decodes to the file's bytes |
| FlowConfigurations.InputStep | src/lib/flowConfigurations.ts:97-150 | one pass of the input loop: a constant writes its literal; an active file writes "" when there is none, else the editor text, the file text or its base64, with the file data; a fixed file writes only when its path resolves; a select file writes only with a definition and a chosen file; a prompt is queued; Gather folds it and StepFrame, InertStep and the input lemmas are about it |
| FlowConfigurations.Gather | src/lib/flowConfigurations.ts:95-151 | the input loop as one step per configuration in list order; ResolveInputs is proved equal to it, and the input lemmas below are about it |
| FlowConfigurations.ApplyAnswers | src/lib/flowConfigurations.ts:171-175 | the batch answers written into the constants in order; WriteAnswers is proved equal to it, and AnswerWins, UnansweredKeyKept and AnswersOverwrite are about it |
| FlowConfigurations.ResolvedInputs | src/lib/flowConfigurations.ts:93-177 | the constants sent: the gathered ones, overwritten by the prompt batch's answers when there were prompts and an answer; ResolveInputs is proved equal to it and PromptAnswersWin is about it |
| FlowConfigurations.ResolveInputs | src/lib/flowConfigurations.ts:95-177 | the input loop and the prompt batch compute exactly the constants of the input specification |
| FlowConfigurations.WriteAnswers | src/lib/flowConfigurations.ts:171-175 | the answers are written into the constants one after the other, as the answer specification says |
| FlowConfigurations.GatheredPromptsInOrder | src/lib/flowConfigurations.ts:148-150 | prompt inputs are batched in configuration order, whatever the other inputs do |
| FlowConfigurations.ConstantInputKept | src/lib/flowConfigurations.ts:97-98 | a constant input's value is sent unless a later input writes the same key |
| FlowConfigurations.MissingActiveFileGivesEmpty | src/lib/flowConfigurations.ts:99-101 | without an active file an active-file input sends "" |
| FlowConfigurations.BinaryFileInputDecodes | src/lib/flowConfigurations.ts:110-146 | a binary input that reads a file (the active file, a fixed file whose path resolves, or the file chosen for a select-file input) sends text that decodes back to that file's bytes, unless a later input writes the same key |
| FlowConfigurations.InertInputRemovable | src/lib/flowConfigurations.ts:117-147 | an unresolvable fixed file, or a select-file input without a definition or a choice, changes nothing |
| FlowConfigurations.AnswersOverwrite | src/lib/flowConfigurations.ts:170-175 | a prompt answer not shadowed by a later one is the final value of its name; other keys keep their values |
| FlowConfigurations.PromptAnswersWin | src/lib/flowConfigurations.ts:153-177 | after an answered prompt batch, each unshadowed answer is the value sent, overriding earlier inputs |
| FlowConfigurations.Classify | src/lib/flowConfigurations.ts:255-296 | always a valid response: a valid 200 body as is, otherwise a single error: "No Response", "Unauthorized", the status followed by a space and the body as text, the error message, or the serialized thrown value |
| FlowConfigurations.ErrorOutput | src/lib/flowConfigurations.ts:193-196 | error output is non-empty exactly when the response has errors, and is then their serialization |
| FlowConfigurations.RawOutput | src/lib/flowConfigurations.ts:197-198 | raw output is the serialized response and is never empty |
| FlowConfigurations.PropertyFromConstants | src/lib/flowConfigurations.ts:199-201 | with constants present the property comes from them only, "" when missing or null |
| FlowConfigurations.PropertyFromFirstRecord | src/lib/flowConfigurations.ts:202-205 | without constants the property comes from the first record, or is "" |
| FlowConfigurations.DispatchConcat | src/lib/flowConfigurations.ts:191-241 | running two action lists one after the other equals running their concatenation |
| FlowConfigurations.IdleActionRemovable | src/lib/flowConfigurations.ts:207-238 | an action with empty output, or without its editor or active file, changes nothing |
| FlowConfigurations.Member | src/lib/flowConfigurations.ts:201-204 | `obj[property] ?? ""`: the member when it is present and not null, otherwise the empty string |
| FlowConfigurations.ActionOutput | src/lib/flowConfigurations.ts:191-206 | the output of an action's source; ErrorOutput, RawOutput, PropertyFromConstants and PropertyFromFirstRecord state its cases |
| FlowConfigurations.WriteFile | src/lib/flowConfigurations.ts:218-238 | a file action leaves every other path, the folders and the visible effects unchanged; where no file or folder exists it creates the file with the text, over a file it replaces or appends, over a folder it does nothing |
| FlowConfigurations.ActionEffect | src/lib/flowConfigurations.ts:207-239 | one pass of the action loop: nothing for a falsy output; otherwise a log, a popup titled with the command name, an insertion when an editor is open, a replacement of the active file when there is one, or a create, replace or append at the rendered path; FileActionFrame and IdleActionRemovable are about it |
| FlowConfigurations.Dispatch | src/lib/flowConfigurations.ts:191-240 | the action loop as one step per action in list order; Host.DispatchActions is proved equal to it, and DispatchConcat, IdleActionRemovable and EffectsInActionOrder are about it |
| FlowConfigurations.EffectsInActionOrder | src/lib/flowConfigurations.ts:207-215 | logs, popups and insertions appear in the order of their actions |
| FlowConfigurations.FileActionFrame | src/lib/flowConfigurations.ts:219-238 | a file action touches no path but the one its template renders, and shows nothing |
| FlowConfigurations.CreateThenAppend | src/lib/flowConfigurations.ts:224-236 | two append actions to a new path create the file and append the second text |
| FlowConfigurations.Host.DispatchActions | src/lib/flowConfigurations.ts:191-241 | the action loop leaves the vault and the screen exactly as the dispatch specification says |
| FlowConfigurations.Authorization | src/lib/flowConfigurations.ts:262 | the header `Bearer ${apiKey}`, where a missing key prints as "undefined" |
| FlowConfigurations.AfterKeyCheck | src/lib/flowConfigurations.ts:246-249 | the "not connected" notice is added to what the user sees exactly when the key is undefined or empty, and nothing else changes |
| FlowConfigurations.Host.ExecuteFlowConfiguration | src/lib/flowConfigurations.ts:77-242 | a missing flow is an error with nothing changed; otherwise the resolved constants go to the server, the answer is classified, and the actions run on it after the not-connected notice when the key is missing |
| FlowConfigurations.AddConfigurationFromURL | src/lib/flowConfigurations.ts:321-353 | a failed request or invalid body leaves the settings unchanged; a valid configuration is appended with a fresh hex command id and nothing else changes |
| Triggers.GetListOfTriggerEvents | src/lib/trigger/onChange/triggers.ts:9-20 | the events map holds `fileOpen` (mapped to true) exactly when some configuration has a file-open trigger, and nothing else |
| Triggers.TriggerEngine.RegisterTriggers | src/lib/trigger/onChange/triggers.ts:22-34 | one listener is added exactly when some configuration has a file-open trigger |
| Triggers.TriggerEngine.CheckAndExecuteFileOpenTriggers | src/lib/trigger/onChange/triggers.ts:42-71 | the configurations run and the session keys afterwards are exactly those of the trigger-run specification |
| Triggers.ScanTriggers | src/lib/trigger/onChange/triggers.ts:49-69 | the inner loop over one configuration's triggers: a non-file-open event or unmet condition stops, a throwing condition moves on, a met one fires unless its key was seen; ScanFiresOnce and ThrowingTriggersSkipped are about it |
| Triggers.TriggerKey | src/lib/trigger/onChange/triggers.ts:55 | the de-duplication key: the command id, six underscores, the file path; KeysOfDifferentFiles is about it |
| Triggers.ConfigStep | src/lib/trigger/onChange/triggers.ts:47-69 | one pass of the outer loop: a configuration without triggers is skipped; otherwise its scan decides whether it runs and gives the new key list |
| Triggers.RunUpTo | src/lib/trigger/onChange/triggers.ts:47-70 | the outer loop over the configurations, skipping those without triggers; CheckAndExecuteFileOpenTriggers is proved equal to it; RunFiresExactly states when a configuration runs and FiredOncePerConfiguration, SecondOpenFiresNothing and TwoFilesTwoRuns are about it |
| Triggers.RunKeepsSeen | src/lib/trigger/onChange/triggers.ts:54-61 | the session's key list only grows, keeping what was seen in place |
| Triggers.FiredOncePerConfiguration | src/lib/trigger/onChange/triggers.ts:47-64 | each configuration runs at most once per event, in list order, and only if it has triggers |
| Triggers.ThrowingTriggersSkipped | src/lib/trigger/onChange/triggers.ts:51-68 | triggers whose condition throws are passed over |
| Triggers.StopsAtUnmetOrForeignTrigger | src/lib/trigger/onChange/triggers.ts:50-56 | a non-file-open trigger or an unmet condition ends the configuration's scan without running it |
| Triggers.ScanFiresOnce | src/lib/trigger/onChange/triggers.ts:49-64 | a once-per-file scan fires exactly when it reaches a met condition and the key is new, and then records the key |
| Triggers.SecondOpenFiresNothing | src/lib/trigger/onChange/triggers.ts:54-62 | opening the same file again in the session runs no configuration |
| Triggers.RunFiresExactly | src/lib/trigger/onChange/triggers.ts:47-64 | a configuration runs if and only if it has triggers, its scan reaches a met condition, and its key is not in the list the earlier configurations left |
| Triggers.TwoFilesTwoRuns | src/lib/trigger/onChange/triggers.ts:54-63 | opening two different files that both meet a configuration's condition runs it once for each file |
| Triggers.KeysOfDifferentFiles | src/lib/trigger/onChange/triggers.ts:55 | the same command on two different files gives two different keys |
| Triggers.GetDefaultTriggerForEvent | src/lib/trigger/onChange/triggers.ts:73-79 | an empty condition, the event, once per file and session; valid and round-tripping for the file-open event |
| Commands.Registry.Unregister | src/lib/commands.ts:5-15 | removes exactly `pluginId:id`, if registered |
| Commands.Registry.UnregisterAll | src/lib/commands.ts:17-29 | removes exactly the commands whose id starts with `pluginId:` |
| Commands.Prefixed | src/lib/commands.ts:8 | the host's id of a plugin command, `pluginId:id`; PrefixedInjective is about it |
| Commands.PrefixedInjective | src/lib/commands.ts:8 | two prefixed ids of the same plugin are equal only when the command ids are |
| Commands.WithoutPlugin | src/lib/commands.ts:17-29 | the effect of `unregisterAll`: the commands whose id does not start with `pluginId:`; Registry.UnregisterAll is proved equal to it, and PluginCommandsRemoved and OtherPluginsUntouched are about it |
| Commands.PluginCommandsRemoved | src/lib/commands.ts:17-29 | no command of the plugin survives `unregisterAll` |
| Commands.OtherPluginsUntouched | src/lib/commands.ts:17-29 | another plugin's commands survive unchanged when plugin ids hold no ':' |
| Commands.Registry.Register | src/lib/commands.ts:31-40 | adds the command under `pluginId:id` and records the call |
| Commands.Registry.RegisterAll | src/lib/commands.ts:42-46 | registers every command once, in list order |
| Commands.RegisterEach | src/lib/commands.ts:42-46 | the effect of `registerAll`: each command put under its prefixed id, in list order; Registry.RegisterAll is proved equal to it, and RegisterEachKeys and RegisterEachDistinct are about it |
| Commands.RegisterEachKeys | src/lib/commands.ts:42-46 | after registering, the ids are the old ones plus one prefixed id per command |
| Commands.RegisterEachDistinct | src/lib/commands.ts:42-46 | with distinct ids each prefixed id names its own command |
| Commands.FindConfiguration | src/lib/commands.ts:52-54 | the index of the first configuration with the command id, none exactly when there is none |
| Commands.Execute | src/lib/commands.ts:48-58 | runs a configuration exactly when one has the id, and then the first such |
| SettingsStore.DefaultSettings | src/lib/settings.ts:68-75 | the version, the Taskbone base URL, no configurations, definitions or key; schema-valid and round-tripping |
| SettingsStore.Load | src/lib/settings.ts:12-25 | the singleton when set; else defaults for falsy data (cached), decoded data when it validates (cached), or defaults with nothing cached |
| SettingsStore.Store.GetSettings | src/lib/settings.ts:12-25 | returns and leaves what the load specification says |
| SettingsStore.Save | src/lib/settings.ts:27-30 | `saveSettings`: the singleton and the persisted data both become the settings; SaveThenLoad and SavedSettingsSurviveRestart are about it |
| SettingsStore.Store.SaveSettings | src/lib/settings.ts:27-30 | the singleton and the persisted data both become the settings |
| SettingsStore.SaveThenLoad | src/lib/settings.ts:12-30 | after a save the next load returns the saved settings |
| SettingsStore.SavedSettingsSurviveRestart | src/lib/settings.ts:12-30 | valid saved settings come back from the persisted data alone |
| SettingsStore.ApplySettings | src/lib/settings.ts:32-35 | removes the plugin's commands, then registers one per configuration in order |
| SettingsStore.AppliedCommandsMatchConfigurations | src/lib/settings.ts:32-35 | afterwards the plugin's registered commands are exactly its configurations' commands |
| SettingsStore.Store.UpdateApiKey | src/lib/settings.ts:37-41 | saves the loaded settings with the new key and nothing else changed |
| SettingsStore.Store.GetApiKey | src/lib/settings.ts:43-49 | returns the stored key exactly when it is non-empty, otherwise asks for a connection |
| SettingsStore.ReplaceById | src/lib/settings.ts:54-60 | the first configuration with the same command id becomes the new one, every other entry is kept, and without a match the list is unchanged |
| SettingsStore.ReplaceByIdKeepsValid | src/lib/settings.ts:54-60 | replacing by a valid configuration keeps the settings valid |
| SettingsStore.Store.UpdateAndSaveConfiguration | src/lib/settings.ts:51-65 | saves the settings with the configuration replaced, then applies them to the registry |
| FlowDefinitions.FindByUrl | src/lib/flowDefinitions.ts:11-14 | the first cached definition with the url, none exactly when there is none |
| FlowDefinitions.CachedByUrl | src/lib/flowDefinitions.ts:10-26 | the lookup as written: a hit returns the first match with the store a load leaves; a miss calls the fetch and, when it finds a definition, reloads the settings, appends it and saves; CacheHit, MissReturnsFirstValid and MissAppendsOncePerAttempt are about it |
| FlowDefinitions.FetchByUrl | src/lib/flowDefinitions.ts:28-46 | the fetch as written: a body that validates is decoded and returned; an invalid body or a failed request re-enters CachedByUrl with the remaining answers; FirstValid and MissReturnsFirstValid are about it |
| FlowDefinitions.GetCachedFlowDefinitions | src/lib/flowDefinitions.ts:5-8 | the stored definitions, leaving the store as a load leaves it |
| FlowDefinitions.GetCachedFlowDefinitionByURL | src/lib/flowDefinitions.ts:10-26 | result and store are those of the as-written cache specification |
| FlowDefinitions.GetFlowDefinitionByURL | src/lib/flowDefinitions.ts:28-46 | result and store are those of the as-written fetch specification |
| FlowDefinitions.CacheHit | src/lib/flowDefinitions.ts:11-25 | on a hit the first match is returned, nothing is fetched and nothing is saved |
| FlowDefinitions.ExhaustedLeavesSettings | src/lib/flowDefinitions.ts:16-25 | when the answers run out nothing is appended |
| FlowDefinitions.FirstValid | src/lib/flowDefinitions.ts:34-39 | the first answer whose body validates, decoded; none exactly when no answer validates |
| FlowDefinitions.MissReturnsFirstValid | src/lib/flowDefinitions.ts:10-46 | on a miss the lookup returns the first answer that validates |
| FlowDefinitions.MissAppendsOncePerAttempt | src/lib/flowDefinitions.ts:16-22 | as written, k failed requests and then a valid answer append the definition k+1 times |
| FlowDefinitions.OneFailureTwoCopies | src/lib/flowDefinitions.ts:16-22 | as written, a single failure already stores the definition twice |
| FlowDefinitions.CachedByUrlOnce | src/lib/flowDefinitions.ts:10-46 | the intended lookup: a hit as before; a miss appends the fetched definition once; exhaustion leaves the store |
| FlowDefinitions.SameResultAsWritten | src/lib/flowDefinitions.ts:10-46 | the intended lookup returns the same definition as the written one |
| OcrPlugin.LoadSettings | main.ts:10-13 | both default flags present; stored fields override the defaults; without stored data neither flag is set |
| OcrPlugin.SelectToken | main.ts:86 | the personal token in premium mode, the standard token otherwise |
| OcrPlugin.MarkdownPaths | main.ts:123-125 | exactly the paths of the markdown files |
| OcrPlugin.ImagesWithoutAnnotation | main.ts:126-136 | exactly the images without an annotation page among the markdown paths, in vault order |
| OcrPlugin.GetNotAnnotatedImagePaths | main.ts:121-137 | exactly the png/jpg/jpeg files without a `<path>.annotations.md` markdown file, in vault order |
| OcrPlugin.Matching | main.ts:156-159 | exactly the paths containing the query, in order |
| OcrPlugin.GetSuggestions | main.ts:150-161 | every candidate for an empty query, otherwise exactly those containing it, in order |
| OcrPlugin.TextFromAnswer | main.ts:95-106 | text only for a 200 answer, "" when the answer has none |
| OcrPlugin.AnnotationPath | main.ts:116 | the page of an image: its path followed by `.annotations.md`, the name `getNotAnnotatedImagePaths` looks for (main.ts:129); PageRemovesImageFromList is about it |
| OcrPlugin.AnnotationContent | main.ts:115 | the page text: an embed of the image, a blank line, then the recognised text |
| OcrPlugin.AnnotationStepAsWritten | main.ts:109-119 | as written, a page is created exactly for a non-empty text, with the image embed and the text |
| OcrPlugin.NoTextFoundUnreachable | main.ts:111-113 | as written, no text reaches the "No text found" message |
| OcrPlugin.AnnotationStepIntended | main.ts:109-119 | intended: nothing for no text, the message for an empty text, the page otherwise |
| OcrPlugin.AnnotationPathsDiffer | main.ts:116 | two different images have two different annotation pages |
| OcrPlugin.PageRemovesImageFromList | main.ts:56-61 | once the annotation page of an image is in the vault, the list the command offers no longer holds that image, and every other path is on the list exactly when it was before |
| OcrPlugin.Plugin.RunCommand | main.ts:28-63 | refuses without accepted terms, fetches and saves a standard token when missing, refuses premium mode without a token, then offers the images still to annotate |
| OcrPlugin.StoreToken | main.ts:41-44 | the token is stored under `standardToken`, and nothing else changes |

## Left out

- User interface: modals, the settings tab, the welcome dialog, the status-bar item and its timer, and console output. They show state and do not change it.
- `connectToAccount`, `getMyConfigurationsFromServer`, `removeTriggers`, plugin load and unload, and URL construction. They are network and host lifecycle. The key `getApiKey` ends with is a parameter of `Host.ExecuteFlowConfiguration`.
- `stringFromTemplateString` and `booleanFromConditionString` evaluate JavaScript. They are parameters (`Renderer`, `ConditionEval`).
- Regular-expression filtering in the file picker. The picker is a parameter (`FilePicker`), and its answer is assumed to be the same each time it is asked.
- Concurrency. Calls the source does not await (`vault.create`, `saveSettings` in `main.ts`, the listener callback) are taken to finish before the next step.
- CreateThenAppend: this relies on that sequencing. With the un-awaited `vault.create` the second action may not see the new file.
- The whitespace and key order of `JSON.stringify`: `serialize` is an arbitrary function from JSON values to text. It is assumed never to return empty text where that matters (`NonEmptySerializer`).
- An output property that is neither a string nor null is written through `serialize`. The source writes its `String(...)` form.
- Keys inherited from JavaScript prototypes (`constants["toString"]`) are not modelled. Objects are plain maps.
- A fixed-file path that names a folder is treated like a missing file. A failing `vault.create` is not modelled.
- A 200 response whose body is not JSON, or whose parsing throws, is passed in as a thrown value (`Threw`).
- The workspace read by the inputs (`Workspace`) is separate from the vault the actions write (`Host`). One execution does not read what it writes.
- A thrown value that `JSON.stringify` maps to `undefined` becomes `serialize`'s text of that value.
- Commands.Registry.Unregister: the exceptions caught around `removeCommand` are not modelled. This registry cannot fail.
- Commands.Registry.UnregisterAll: `removeCommand` is given the listed command object. Its effect is taken as removing that command. The registry's listing order is not modelled.
- OcrPlugin.LoadSettings: persisted data that is not an object is treated as no data.
- OcrPlugin.Plugin.RunCommand: an exception thrown by the token request, and a body that is not JSON, are not modelled. The answer is a status and an optional token.
- FlowDefinitions.GetCachedFlowDefinitionByURL: `fetches` bounds the retries. `Exhausted` stands for the lookup that, with a server that keeps failing, never returns.
- FlowConfigurations.Host.DispatchActions: the awaited vault calls `adapter.exists`, `vault.modify` and `vault.append` never fail in the model. In the source a rejection ends `executeFlowConfiguration` and skips every later action.
- SettingsStore.Load, SettingsStore.Store.GetSettings, FlowDefinitions.FetchByUrl, FlowDefinitions.GetFlowDefinitionByURL and FlowConfigurations.AddConfigurationFromURL keep the decoded record, not the validated object itself. Members that no schema mentions are therefore dropped: the validator does not remove them, so the source persists them on the next save, and the model does not.
- FlowConfigurations.ReadFile: the host's `arrayBufferToBase64` is assumed to be the standard base64 encoding, as in `src/lib/tools.ts`.

## Findings

| source | as written | input that shows it | evidently intended | confidence | as-written member | corrected member |
|---|---|---|---|---|---|---|
| src/lib/flowDefinitions.ts:16-22 | the fetch's retry goes back through `getCachedFlowDefinitionByURL`, and every nested lookup that missed pushes the definition on the way back | a url not in the cache, one failed request, then a valid definition `d`: the stored list gains `[d, d]` | append the fetched definition once | not executed | FlowDefinitions.MissAppendsOncePerAttempt | FlowDefinitions.CachedByUrlOnce |
| main.ts:111-113 | `if (!imageText) return` also returns for `""`, so the `imageText.length == 0` branch is dead | OCR answer 200 with no text: `getTextForFile` gives `""`, nothing is shown | show "No text found in <path>" for an empty text | not executed | OcrPlugin.NoTextFoundUnreachable | OcrPlugin.AnnotationStepIntended |
