/** The flow-configuration engine of src/lib/flowConfigurations.ts: default
    input configurations, copying a configuration, resolving the inputs of an
    execution, classifying the server's answer, projecting the output of each
    result action and dispatching the actions onto the vault. The vault, the
    workspace, the file picker, the text prompt, the server, the template
    renderer and `JSON.stringify` are passed in. */
module FlowConfigurations {
  import opened Wrappers
  import opened Json
  import opened Validation
  import opened Model
  import opened Base64
  import opened Tools

  /** `JSON.stringify`, taken as given. */
  type Serializer = Json -> string

  /** The real `JSON.stringify` never produces empty text for a JSON value. */
  ghost predicate NonEmptySerializer(serialize: Serializer) {
    forall j :: serialize(j) != ""
  }

  // ---------------------------------------------------------------- duplicateWithNewCommand

  /** `duplicateWithNewCommand`: a copy whose command is renamed "Copy of …" and
      carries the id made from the random value `value`. */
  function DuplicateWithNewCommand(configuration: FlowConfiguration, value: nat): (copy: FlowConfiguration)
    requires value < Uint32Limit
    ensures copy.command.name == "Copy of " + configuration.command.name
    ensures copy.command.description == configuration.command.description
    ensures 1 <= |copy.command.id| <= 8
    ensures forall i :: 0 <= i < |copy.command.id| ==> IsHexDigit(copy.command.id[i])
    ensures ParseHex(copy.command.id) == value
    ensures copy.(command := configuration.command) == configuration
    ensures configuration.Valid() ==> copy.Valid()
  {
    var c := configuration.command;
    configuration.(command := c.(name := "Copy of " + c.name, id := CreateRandomId(value)))
  }

  // ---------------------------------------------------------------- getDefaultInputConfigurationForTypes

  const SourceTypeNames: set<string> := {"constant", "activeFile", "selectFile", "fixedFile", "prompt"}
  const MarkdownPattern := "\\.md$"
  const ImagePattern := "\\.(png|jpg|jpeg|gif)$"

  /** `getDefaultInputConfigurationForTypes`: the blank configuration of a
      source type, or None where the pair does not exist. */
  function GetDefaultInputConfigurationForTypes(sourceType: string, dataType: DataType, name: string): (r: Option<InputConfiguration>)
    ensures r.None? <==> sourceType !in SourceTypeNames || (dataType == Binary && sourceType in {"constant", "prompt"})
    ensures r.Some? ==> r.value.name == name && r.value.dataType == dataType
    ensures r.Some? ==> SourceTypeName(r.value.source) == sourceType
    ensures r.Some? ==> r.value.Valid() && IsInputConfiguration(EncodeInputConfiguration(r.value))
    ensures r.Some? && r.value.source.Constant? ==> r.value.source.value == ""
    ensures r.Some? && r.value.source.FixedFile? ==> r.value.source.path == ""
    ensures r.Some? && r.value.source.SelectFile? ==>
      && r.value.source.pattern == (if dataType == Text then MarkdownPattern else ImagePattern)
      && r.value.source.isRegularExpression
      && r.value.source.autoRunOnCreate == Some(false)
  {
    var r :=
      if sourceType == "constant" && dataType == Text then Some(InputConfiguration(name, dataType, Constant("")))
      else if sourceType == "activeFile" then Some(InputConfiguration(name, dataType, ActiveFile))
      else if sourceType == "selectFile" then
        var pattern := if dataType == Text then MarkdownPattern else ImagePattern;
        Some(InputConfiguration(name, dataType, SelectFile(pattern, true, Some(false))))
      else if sourceType == "fixedFile" then Some(InputConfiguration(name, dataType, FixedFile("")))
      else if sourceType == "prompt" && dataType == Text then Some(InputConfiguration(name, dataType, Prompt))
      else
        assert sourceType in {"constant", "prompt"} ==> dataType == Binary;
        None;
    if r.Some? then InputConfigurationSchemaMatchesValid(r.value); r else r
  }

  // ---------------------------------------------------------------- the workspace the inputs read

  /** A file of the vault as an input reads it: its path parts, its parent
      folder's path when it has one, its contents as text and as bytes, and its
      metadata-cache entry (null when the cache has none). */
  datatype VaultFile = VaultFile(
    path: string,
    basename: string,
    extension: string,
    parentPath: Option<string>,
    text: string,
    bytes: seq<byte>,
    metadata: Json)

  /** The vault name, the files by path, the active file, and the text of the
      active markdown view when one is open. */
  datatype Workspace = Workspace(
    vaultName: string,
    files: map<string, VaultFile>,
    activeFile: Option<VaultFile>,
    markdownView: Option<string>)

  const VaultNameKey := "/obsidian/vaultName"
  const MetadataKey := "/obsidian/metadata"
  const FilePathKey := "/obsidian/filePath"
  const FileBaseNameKey := "/obsidian/fileBaseName"
  const FileExtensionKey := "/obsidian/fileExtension"
  const FileParentPathKey := "/obsidian/fileParentPath"

  /** Every key the file data of an input named `prefix` can hold. */
  function MetadataKeys(prefix: string): set<string> {
    {prefix + VaultNameKey, prefix + MetadataKey, prefix + FilePathKey,
     prefix + FileBaseNameKey, prefix + FileExtensionKey, prefix + FileParentPathKey}
  }

  /** `getAdditionalFileData`: the vault name, serialized metadata, path, base
      name and extension of a file under `prefix + "/obsidian/…"`, and the
      parent's path only when the file has a parent. */
  function GetAdditionalFileData(prefix: string, file: VaultFile, vaultName: string, serialize: Serializer): (data: map<string, string>)
    ensures data.Keys <= MetadataKeys(prefix)
    ensures data.Keys == MetadataKeys(prefix) - (if file.parentPath.None? then {prefix + FileParentPathKey} else {})
    ensures data[prefix + VaultNameKey] == vaultName
    ensures data[prefix + MetadataKey] == serialize(file.metadata)
    ensures data[prefix + FilePathKey] == file.path
    ensures data[prefix + FileBaseNameKey] == file.basename
    ensures data[prefix + FileExtensionKey] == file.extension
    ensures file.parentPath.Some? ==> data[prefix + FileParentPathKey] == file.parentPath.value
  {
    MetadataKeysDistinct(prefix);
    var data := map[
      prefix + VaultNameKey := vaultName,
      prefix + MetadataKey := serialize(file.metadata),
      prefix + FilePathKey := file.path,
      prefix + FileBaseNameKey := file.basename,
      prefix + FileExtensionKey := file.extension];
    if file.parentPath.Some? then data[prefix + FileParentPathKey := file.parentPath.value] else data
  }

  /** The six file-data keys of an input are pairwise distinct. */
  lemma MetadataKeysDistinct(prefix: string)
    ensures |MetadataKeys(prefix)| == 6
  {
    var n := |prefix|;
    assert |prefix + VaultNameKey| == n + 19 && |prefix + MetadataKey| == n + 18;
    assert |prefix + FilePathKey| == n + 18 && |prefix + FileBaseNameKey| == n + 22;
    assert |prefix + FileExtensionKey| == n + 23 && |prefix + FileParentPathKey| == n + 24;
    assert (prefix + MetadataKey)[n + 10] == 'm' && (prefix + FilePathKey)[n + 10] == 'f';
  }

  /** The input's own name is never one of its file-data keys. */
  lemma NameNotMetadataKey(name: string)
    ensures name !in MetadataKeys(name)
  {
  }

  // ---------------------------------------------------------------- input resolution

  /** The file picker: the file the user chooses for a select-file input, if any. */
  type FilePicker = (InputConfiguration, InputDefinition) -> Option<VaultFile>

  datatype PromptText = PromptText(name: string, description: string)
  datatype PromptResult = PromptResult(name: string, value: string)

  /** The batch text prompt: the answers the user gives, if any. */
  type TextPrompt = seq<PromptText> -> Option<seq<PromptResult>>

  /** The first input definition with the given name. */
  function FindDefinition(definitions: seq<InputDefinition>, name: string): (r: Option<InputDefinition>)
    ensures r.None? <==> forall i :: 0 <= i < |definitions| ==> definitions[i].name != name
    ensures r.Some? ==> r.value.name == name
    ensures r.Some? ==> exists i :: 0 <= i < |definitions| && definitions[i] == r.value &&
                                    (forall j :: 0 <= j < i ==> definitions[j].name != name)
    decreases |definitions|
  {
    if definitions == [] then None
    else if definitions[0].name == name then Some(definitions[0])
    else
      var r := FindDefinition(definitions[1..], name);
      if r.Some? then
        var i :| 0 <= i < |definitions| - 1 && definitions[1..][i] == r.value
          && forall j :: 0 <= j < i ==> definitions[1..][j].name != name;
        assert definitions[i + 1] == r.value;
        r
      else
        r
  }

  /** What the input loop has gathered: the constants so far and the names of
      the prompt inputs met so far. */
  datatype Gathered = Gathered(constants: map<string, string>, prompts: seq<string>)

  /** The value a file input contributes: its text, or the base64 of its bytes. */
  function FileContent(dataType: DataType, file: VaultFile): string {
    if dataType == Text then file.text else Encode(file.bytes)
  }

  /** Stores `content` under the input's name and merges in the file's data. */
  function WithFile(g: Gathered, name: string, content: string, file: VaultFile, ws: Workspace, serialize: Serializer): Gathered {
    g.(constants := g.constants[name := content] + GetAdditionalFileData(name, file, ws.vaultName, serialize))
  }

  /** One pass of the input loop over configuration `c`. */
  function InputStep(flow: FlowDefinition, ws: Workspace, pick: FilePicker, serialize: Serializer,
                     g: Gathered, c: InputConfiguration): Gathered
  {
    match c.source
    case Constant(v) => g.(constants := g.constants[c.name := v])
    case ActiveFile =>
      if ws.activeFile.None? then g.(constants := g.constants[c.name := ""])
      else
        var file := ws.activeFile.value;
        var content := if c.dataType == Text && ws.markdownView.Some? then ws.markdownView.value
                       else FileContent(c.dataType, file);
        WithFile(g, c.name, content, file, ws, serialize)
    case FixedFile(path) =>
      if path !in ws.files then g
      else WithFile(g, c.name, FileContent(c.dataType, ws.files[path]), ws.files[path], ws, serialize)
    case SelectFile(_, _, _) =>
      var definition := FindDefinition(flow.inputDefinitions, c.name);
      if definition.None? then g
      else
        var file := pick(c, definition.value);
        if file.None? then g
        else WithFile(g, c.name, FileContent(c.dataType, file.value), file.value, ws, serialize)
    case Prompt => g.(prompts := g.prompts + [c.name])
  }

  /** The input loop over a list of configurations, in order. */
  function Gather(flow: FlowDefinition, ws: Workspace, pick: FilePicker, serialize: Serializer,
                  cs: seq<InputConfiguration>): Gathered
    decreases |cs|
  {
    if cs == [] then Gathered(map[], [])
    else InputStep(flow, ws, pick, serialize, Gather(flow, ws, pick, serialize, cs[..|cs| - 1]), cs[|cs| - 1])
  }

  /** The prompt texts: each prompt's name with its definition's description, or "". */
  function PromptTexts(flow: FlowDefinition, names: seq<string>): (texts: seq<PromptText>)
    ensures |texts| == |names|
    ensures forall i :: 0 <= i < |names| ==> texts[i].name == names[i]
    ensures forall i :: 0 <= i < |names| ==>
      texts[i].description == (match FindDefinition(flow.inputDefinitions, names[i])
                               case Some(d) => d.description
                               case None => "")
  {
    seq(|names|, i requires 0 <= i < |names| =>
      match FindDefinition(flow.inputDefinitions, names[i])
      case Some(d) => PromptText(names[i], d.description)
      case None => PromptText(names[i], ""))
  }

  /** Writes the prompt answers into the constants, in order. */
  function ApplyAnswers(constants: map<string, string>, answers: seq<PromptResult>): map<string, string>
    decreases |answers|
  {
    if answers == [] then constants
    else ApplyAnswers(constants, answers[..|answers| - 1])[answers[|answers| - 1].name := answers[|answers| - 1].value]
  }

  /** The constants sent to the server: the gathered constants, overwritten by
      the answers to the prompt batch when there were prompts and answers. */
  function ResolvedInputs(flow: FlowDefinition, cs: seq<InputConfiguration>, ws: Workspace, pick: FilePicker,
                          prompt: TextPrompt, serialize: Serializer): map<string, string>
  {
    var g := Gather(flow, ws, pick, serialize, cs);
    if |g.prompts| == 0 then g.constants
    else
      match prompt(PromptTexts(flow, g.prompts))
      case None => g.constants
      case Some(answers) => ApplyAnswers(g.constants, answers)
  }

  /** The content of a file input; binary contents go through `arrayBufferToBase64`. */
  method ReadFile(dataType: DataType, file: VaultFile) returns (content: string)
    ensures content == FileContent(dataType, file)
    ensures dataType == Binary ==> Decode(content) == Some(file.bytes)
  {
    if dataType == Binary {
      content := ArrayBufferToBase64(file.bytes);
    } else {
      content := file.text;
    }
  }

  /** The input loop and the prompt batch of `executeFlowConfiguration`. */
  method ResolveInputs(flow: FlowDefinition, cs: seq<InputConfiguration>, ws: Workspace, pick: FilePicker,
                       prompt: TextPrompt, serialize: Serializer) returns (constants: map<string, string>)
    ensures constants == ResolvedInputs(flow, cs, ws, pick, prompt, serialize)
  {
    constants := map[];
    var prompts: seq<string> := [];
    var i := 0;
    while i < |cs|
      invariant 0 <= i <= |cs|
      invariant Gathered(constants, prompts) == Gather(flow, ws, pick, serialize, cs[..i])
    {
      var c := cs[i];
      assert cs[..i + 1][..i] == cs[..i];
      match c.source {
        case Constant(v) =>
          constants := constants[c.name := v];
        case ActiveFile =>
          if ws.activeFile.None? {
            constants := constants[c.name := ""];
          } else {
            var file := ws.activeFile.value;
            var content;
            if c.dataType == Text && ws.markdownView.Some? {
              content := ws.markdownView.value;
            } else {
              content := ReadFile(c.dataType, file);
            }
            constants := constants[c.name := content] + GetAdditionalFileData(c.name, file, ws.vaultName, serialize);
          }
        case FixedFile(path) =>
          if path in ws.files {
            var file := ws.files[path];
            var content := ReadFile(c.dataType, file);
            constants := constants[c.name := content] + GetAdditionalFileData(c.name, file, ws.vaultName, serialize);
          }
        case SelectFile(_, _, _) =>
          var definition := FindDefinition(flow.inputDefinitions, c.name);
          if definition.Some? {
            var file := pick(c, definition.value);
            if file.Some? {
              var content := ReadFile(c.dataType, file.value);
              constants := constants[c.name := content] + GetAdditionalFileData(c.name, file.value, ws.vaultName, serialize);
            }
          }
        case Prompt =>
          prompts := prompts + [c.name];
      }
      i := i + 1;
    }
    assert cs[..|cs|] == cs;
    if |prompts| > 0 {
      var answers := prompt(PromptTexts(flow, prompts));
      if answers.Some? {
        constants := WriteAnswers(constants, answers.value);
      }
    }
  }

  /** The loop that writes each prompt answer into the constants, in order. */
  method WriteAnswers(base: map<string, string>, answers: seq<PromptResult>) returns (constants: map<string, string>)
    ensures constants == ApplyAnswers(base, answers)
  {
    constants := base;
    var j := 0;
    while j < |answers|
      invariant 0 <= j <= |answers|
      invariant constants == ApplyAnswers(base, answers[..j])
    {
      assert answers[..j + 1][..j] == answers[..j];
      constants := constants[answers[j].name := answers[j].value];
      j := j + 1;
    }
    assert answers[..|answers|] == answers;
  }

  // ---------------------------------------------------------------- properties of input resolution

  /** The names of the prompt inputs, in configuration order. */
  function PromptNames(cs: seq<InputConfiguration>): seq<string>
    decreases |cs|
  {
    if cs == [] then []
    else (if cs[0].source.Prompt? then [cs[0].name] else []) + PromptNames(cs[1..])
  }

  lemma {:induction false} PromptNamesAppend(cs: seq<InputConfiguration>, c: InputConfiguration)
    ensures PromptNames(cs + [c]) == PromptNames(cs) + (if c.source.Prompt? then [c.name] else [])
    decreases |cs|
  {
    if cs != [] {
      assert (cs + [c])[1..] == cs[1..] + [c];
      PromptNamesAppend(cs[1..], c);
    }
  }

  /** Prompt inputs are collected in configuration order, whatever the other inputs do. */
  lemma {:induction false} GatheredPromptsInOrder(flow: FlowDefinition, ws: Workspace, pick: FilePicker,
                                                   serialize: Serializer, cs: seq<InputConfiguration>)
    ensures Gather(flow, ws, pick, serialize, cs).prompts == PromptNames(cs)
    decreases |cs|
  {
    if cs != [] {
      var init := cs[..|cs| - 1];
      GatheredPromptsInOrder(flow, ws, pick, serialize, init);
      PromptNamesAppend(init, cs[|cs| - 1]);
      assert init + [cs[|cs| - 1]] == cs;
    }
  }

  /** The keys an input can write: its name and its file-data keys. */
  function Targets(c: InputConfiguration): set<string> {
    {c.name} + MetadataKeys(c.name)
  }

  /** A step leaves every key outside its targets as it was. */
  lemma StepFrame(flow: FlowDefinition, ws: Workspace, pick: FilePicker, serialize: Serializer,
                  g: Gathered, c: InputConfiguration, k: string)
    requires k !in Targets(c)
    ensures var after := InputStep(flow, ws, pick, serialize, g, c).constants;
      (k in after <==> k in g.constants) && (k in g.constants ==> after[k] == g.constants[k])
  {
  }

  /** A value stays in place while no later input targets its key. */
  lemma {:induction false} GatherKeepsValue(flow: FlowDefinition, ws: Workspace, pick: FilePicker, serialize: Serializer,
                                            cs: seq<InputConfiguration>, i: nat, k: string)
    requires i <= |cs|
    requires k in Gather(flow, ws, pick, serialize, cs[..i]).constants
    requires forall j :: i <= j < |cs| ==> k !in Targets(cs[j])
    ensures k in Gather(flow, ws, pick, serialize, cs).constants
    ensures Gather(flow, ws, pick, serialize, cs).constants[k] == Gather(flow, ws, pick, serialize, cs[..i]).constants[k]
    decreases |cs|
  {
    if i < |cs| {
      var init := cs[..|cs| - 1];
      assert init[..i] == cs[..i];
      GatherKeepsValue(flow, ws, pick, serialize, init, i, k);
      StepFrame(flow, ws, pick, serialize, Gather(flow, ws, pick, serialize, init), cs[|cs| - 1], k);
    } else {
      assert cs[..i] == cs;
    }
  }

  /** A constant input's value reaches the request unless a later input writes the same key. */
  lemma ConstantInputKept(flow: FlowDefinition, ws: Workspace, pick: FilePicker, serialize: Serializer,
                          cs: seq<InputConfiguration>, i: nat)
    requires i < |cs| && cs[i].source.Constant?
    requires forall j :: i < j < |cs| ==> cs[i].name !in Targets(cs[j])
    ensures cs[i].name in Gather(flow, ws, pick, serialize, cs).constants
    ensures Gather(flow, ws, pick, serialize, cs).constants[cs[i].name] == cs[i].source.value
  {
    assert cs[..i + 1][..i] == cs[..i];
    GatherKeepsValue(flow, ws, pick, serialize, cs, i + 1, cs[i].name);
  }

  /** Without an active file, an active-file input contributes the empty text
      and no file data. */
  lemma MissingActiveFileGivesEmpty(flow: FlowDefinition, ws: Workspace, pick: FilePicker, serialize: Serializer,
                                    cs: seq<InputConfiguration>, i: nat)
    requires i < |cs| && cs[i].source.ActiveFile? && ws.activeFile.None?
    requires forall j :: i < j < |cs| ==> cs[i].name !in Targets(cs[j])
    ensures cs[i].name in Gather(flow, ws, pick, serialize, cs).constants
    ensures Gather(flow, ws, pick, serialize, cs).constants[cs[i].name] == ""
  {
    assert cs[..i + 1][..i] == cs[..i];
    GatherKeepsValue(flow, ws, pick, serialize, cs, i + 1, cs[i].name);
  }

  /** The file an input reads, when it reads one: the active file, the fixed
      file when its path resolves, or the file chosen for a select-file input
      that has a definition. */
  function InputFile(flow: FlowDefinition, ws: Workspace, pick: FilePicker, c: InputConfiguration): Option<VaultFile> {
    match c.source
    case ActiveFile => ws.activeFile
    case FixedFile(path) => if path in ws.files then Some(ws.files[path]) else None
    case SelectFile(_, _, _) =>
      var definition := FindDefinition(flow.inputDefinitions, c.name);
      if definition.None? then None else pick(c, definition.value)
    case _ => None
  }

  /** A binary input that reads a file (active, fixed or selected) sends text
      that decodes back to the file's bytes, unless a later input writes the key. */
  lemma BinaryFileInputDecodes(flow: FlowDefinition, ws: Workspace, pick: FilePicker, serialize: Serializer,
                               cs: seq<InputConfiguration>, i: nat)
    requires i < |cs| && cs[i].dataType == Binary && InputFile(flow, ws, pick, cs[i]).Some?
    requires forall j :: i < j < |cs| ==> cs[i].name !in Targets(cs[j])
    ensures cs[i].name in Gather(flow, ws, pick, serialize, cs).constants
    ensures Decode(Gather(flow, ws, pick, serialize, cs).constants[cs[i].name])
            == Some(InputFile(flow, ws, pick, cs[i]).value.bytes)
  {
    var file := InputFile(flow, ws, pick, cs[i]).value;
    assert cs[..i + 1][..i] == cs[..i];
    NameNotMetadataKey(cs[i].name);
    assert Gather(flow, ws, pick, serialize, cs[..i + 1]).constants[cs[i].name] == Encode(file.bytes);
    GatherKeepsValue(flow, ws, pick, serialize, cs, i + 1, cs[i].name);
    DecodeEncode(file.bytes);
  }

  /** An input that reads nothing: a fixed file that does not resolve, or a
      select-file input without a matching definition or without a chosen file. */
  predicate Inert(flow: FlowDefinition, ws: Workspace, pick: FilePicker, c: InputConfiguration) {
    || (c.source.FixedFile? && c.source.path !in ws.files)
    || (c.source.SelectFile? &&
        var definition := FindDefinition(flow.inputDefinitions, c.name);
        definition.None? || pick(c, definition.value).None?)
  }

  /** An inert input leaves what was gathered as it was. */
  lemma InertStep(flow: FlowDefinition, ws: Workspace, pick: FilePicker, serialize: Serializer,
                  g: Gathered, c: InputConfiguration)
    requires Inert(flow, ws, pick, c)
    ensures InputStep(flow, ws, pick, serialize, g, c) == g
  {
  }

  /** An inert input can be dropped without changing what is gathered. */
  lemma {:induction false} InertInputRemovable(flow: FlowDefinition, ws: Workspace, pick: FilePicker, serialize: Serializer,
                                               xs: seq<InputConfiguration>, c: InputConfiguration, ys: seq<InputConfiguration>)
    requires Inert(flow, ws, pick, c)
    ensures Gather(flow, ws, pick, serialize, xs + [c] + ys) == Gather(flow, ws, pick, serialize, xs + ys)
    decreases |ys|
  {
    if ys == [] {
      assert xs + [c] + ys == xs + [c] && (xs + [c])[..|xs|] == xs && xs + ys == xs;
      InertStep(flow, ws, pick, serialize, Gather(flow, ws, pick, serialize, xs), c);
    } else {
      var init := ys[..|ys| - 1];
      InertInputRemovable(flow, ws, pick, serialize, xs, c, init);
      assert (xs + [c] + ys)[..|xs + [c] + ys| - 1] == xs + [c] + init;
      assert (xs + ys)[..|xs + ys| - 1] == xs + init;
    }
  }

  /** An answer that no later answer shadows is the final value of its name. */
  lemma {:induction false} AnswerWins(constants: map<string, string>, answers: seq<PromptResult>, i: nat)
    requires i < |answers| && forall j :: i < j < |answers| ==> answers[j].name != answers[i].name
    ensures answers[i].name in ApplyAnswers(constants, answers)
    ensures ApplyAnswers(constants, answers)[answers[i].name] == answers[i].value
    decreases |answers|
  {
    if i < |answers| - 1 {
      var init := answers[..|answers| - 1];
      assert init[i] == answers[i];
      AnswerWins(constants, init, i);
    }
  }

  /** A key no answer names keeps its value, or its absence. */
  lemma {:induction false} UnansweredKeyKept(constants: map<string, string>, answers: seq<PromptResult>, k: string)
    requires forall i :: 0 <= i < |answers| ==> answers[i].name != k
    ensures k in ApplyAnswers(constants, answers) <==> k in constants
    ensures k in constants ==> ApplyAnswers(constants, answers)[k] == constants[k]
    decreases |answers|
  {
    if answers != [] {
      var init := answers[..|answers| - 1];
      assert answers[|answers| - 1].name != k;
      UnansweredKeyKept(constants, init, k);
    }
  }

  /** The answers to the prompt batch overwrite in order: an answer that no
      later answer shadows is the final value of its name, and keys no answer
      names keep their value. */
  lemma AnswersOverwrite(constants: map<string, string>, answers: seq<PromptResult>)
    ensures forall i :: 0 <= i < |answers| && (forall j :: i < j < |answers| ==> answers[j].name != answers[i].name) ==>
      answers[i].name in ApplyAnswers(constants, answers) && ApplyAnswers(constants, answers)[answers[i].name] == answers[i].value
    ensures forall k :: (forall i :: 0 <= i < |answers| ==> answers[i].name != k) ==>
      (k in ApplyAnswers(constants, answers) <==> k in constants) &&
      (k in constants ==> ApplyAnswers(constants, answers)[k] == constants[k])
  {
    forall i | 0 <= i < |answers| && (forall j :: i < j < |answers| ==> answers[j].name != answers[i].name)
      ensures answers[i].name in ApplyAnswers(constants, answers)
      ensures ApplyAnswers(constants, answers)[answers[i].name] == answers[i].value
    {
      AnswerWins(constants, answers, i);
    }
    forall k | (forall i :: 0 <= i < |answers| ==> answers[i].name != k)
      ensures k in ApplyAnswers(constants, answers) <==> k in constants
      ensures k in constants ==> ApplyAnswers(constants, answers)[k] == constants[k]
    {
      UnansweredKeyKept(constants, answers, k);
    }
  }

  /** When prompts were gathered and answered, every unshadowed answer is the
      value sent, overriding whatever the other inputs put under that name. */
  lemma PromptAnswersWin(flow: FlowDefinition, cs: seq<InputConfiguration>, ws: Workspace, pick: FilePicker,
                         prompt: TextPrompt, serialize: Serializer, i: nat)
    requires PromptNames(cs) != []
    requires prompt(PromptTexts(flow, PromptNames(cs))).Some?
    requires var answers := prompt(PromptTexts(flow, PromptNames(cs))).value;
      i < |answers| && forall j :: i < j < |answers| ==> answers[j].name != answers[i].name
    ensures var answers := prompt(PromptTexts(flow, PromptNames(cs))).value;
      answers[i].name in ResolvedInputs(flow, cs, ws, pick, prompt, serialize)
    ensures var answers := prompt(PromptTexts(flow, PromptNames(cs))).value;
      ResolvedInputs(flow, cs, ws, pick, prompt, serialize)[answers[i].name] == answers[i].value
  {
    GatheredPromptsInOrder(flow, ws, pick, serialize, cs);
    AnswersOverwrite(Gather(flow, ws, pick, serialize, cs).constants, prompt(PromptTexts(flow, PromptNames(cs))).value);
  }

  // ---------------------------------------------------------------- execute: classifying the answer

  /** What a request can end in: a response (the status, the body as text, the
      body as JSON), or a thrown value (an `Error` with its message, or anything else). */
  datatype Thrown = ErrorObject(message: string) | OtherValue(value: Json)
  datatype HttpOutcome = Responded(status: nat, bodyText: string, body: Json) | Threw(thrown: Thrown)

  /** The decimal text of a status code. */
  function DecimalString(n: nat): (s: string)
    ensures |s| >= 1 && forall i :: 0 <= i < |s| ==> '0' <= s[i] <= '9'
    decreases n
  {
    if n < 10 then [('0' as int + n) as char] else DecimalString(n / 10) + [('0' as int + n % 10) as char]
  }

  /** A response holding one error message and nothing else. */
  function ErrorResponse(message: string): (r: Json)
    ensures IsApiResponse(r)
    ensures DecodeApiResponse(r) == Some(ApiResponse(None, None, Some([message])))
  {
    var r := EncodeApiResponse(ApiResponse(None, None, Some([message])));
    ApiResponseRoundTrip(ApiResponse(None, None, Some([message])));
    r
  }

  /** The classification in `execute`: a valid body of a 200 response is the
      result; everything else becomes a response with a single error. */
  function Classify(outcome: HttpOutcome, serialize: Serializer): (r: Json)
    ensures IsApiResponse(r)
    ensures outcome.Responded? && outcome.status == 200 && IsApiResponse(outcome.body) ==> r == outcome.body
    ensures outcome.Responded? && outcome.status == 200 && !IsApiResponse(outcome.body) ==>
      DecodeApiResponse(r) == Some(ApiResponse(None, None, Some(["No Response"])))
    ensures outcome.Responded? && outcome.status == 401 ==>
      DecodeApiResponse(r) == Some(ApiResponse(None, None, Some(["Unauthorized"])))
    ensures outcome.Responded? && outcome.status !in {200, 401} ==>
      DecodeApiResponse(r) == Some(ApiResponse(None, None, Some([DecimalString(outcome.status) + " " + outcome.bodyText])))
    ensures outcome.Threw? && outcome.thrown.ErrorObject? ==>
      DecodeApiResponse(r) == Some(ApiResponse(None, None, Some([outcome.thrown.message])))
    ensures outcome.Threw? && outcome.thrown.OtherValue? ==>
      DecodeApiResponse(r) == Some(ApiResponse(None, None, Some([serialize(outcome.thrown.value)])))
  {
    match outcome
    case Responded(status, text, body) =>
      if status == 200 then
        if IsApiResponse(body) then body else ErrorResponse("No Response")
      else if status == 401 then ErrorResponse("Unauthorized")
      else ErrorResponse(DecimalString(status) + " " + text)
    case Threw(ErrorObject(message)) => ErrorResponse(message)
    case Threw(OtherValue(v)) => ErrorResponse(serialize(v))
  }

  /** The authorization header: the key, or "undefined" when there is none. */
  function Authorization(apiKey: Option<string>): string {
    "Bearer " + (if apiKey.Some? then apiKey.value else "undefined")
  }

  /** The key is missing for the notice in `execute` when it is undefined or empty. */
  predicate KeyMissing(apiKey: Option<string>) {
    apiKey.None? || apiKey.value == ""
  }

  /** The server: the outcome of posting the constants for a flow with an
      authorization header. */
  type Server = (string, string, map<string, string>) -> HttpOutcome

  // ---------------------------------------------------------------- output projection

  /** `constants[p] ?? ""` on an object: a missing or null member gives "". */
  function Member(obj: Json, p: string): (v: Json)
    ensures obj.JObj? && p in obj.fields && !obj.fields[p].JNull? ==> v == obj.fields[p]
    ensures !(obj.JObj? && p in obj.fields && !obj.fields[p].JNull?) ==> v == JStr("")
  {
    if obj.JObj? && p in obj.fields && !obj.fields[p].JNull? then obj.fields[p] else JStr("")
  }

  /** The value an action outputs from the response (`output` in the source). */
  function ActionOutput(source: ActionSource, response: Json, serialize: Serializer): Json {
    var f := if response.JObj? then response.fields else map[];
    match source
    case Errors =>
      if "errors" in f && f["errors"].JArr? && |f["errors"].items| > 0 then JStr(serialize(f["errors"]))
      else JStr("")
    case Raw => JStr(serialize(response))
    case Property(p) =>
      if "constants" in f && Truthy(f["constants"]) then Member(f["constants"], p)
      else if "records" in f && f["records"].JArr? && |f["records"].items| > 0 then Member(f["records"].items[0], p)
      else JStr("")
  }

  /** The text an action writes: a string as it is, any other value serialized. */
  function OutputText(output: Json, serialize: Serializer): string {
    if output.JStr? then output.s else serialize(output)
  }

  /** Error output is non-empty exactly when the response carries errors, and
      then it is the serialized list of them. */
  lemma ErrorOutput(response: Json, serialize: Serializer)
    requires IsApiResponse(response) && NonEmptySerializer(serialize)
    ensures var decoded := DecodeApiResponse(response).value;
      Truthy(ActionOutput(Errors, response, serialize)) <==> decoded.errors.Some? && decoded.errors.value != []
    ensures var decoded := DecodeApiResponse(response).value;
      decoded.errors.Some? && decoded.errors.value != [] ==>
        ActionOutput(Errors, response, serialize) == JStr(serialize(Strings(decoded.errors.value)))
  {
    var f := response.fields;
    if "errors" in f && f["errors"].JArr? {
      var es := DecodeApiResponse(response).value.errors.value;
      assert f["errors"] == Strings(es);
    }
  }

  /** With constants present, a property comes from them alone: records are
      never consulted, even when the constants lack the property. */
  lemma PropertyFromConstants(response: Json, p: string, serialize: Serializer)
    requires IsApiResponse(response) && DecodeApiResponse(response).value.constants.Some?
    ensures var constants := DecodeApiResponse(response).value.constants.value;
      ActionOutput(Property(p), response, serialize) ==
        (if p in constants && !constants[p].JNull? then constants[p] else JStr(""))
  {
  }

  /** Without constants, a property comes from the first record, or is "". */
  lemma PropertyFromFirstRecord(response: Json, p: string, serialize: Serializer)
    requires IsApiResponse(response) && DecodeApiResponse(response).value.constants.None?
    ensures var records := DecodeApiResponse(response).value.records;
      ActionOutput(Property(p), response, serialize) ==
        (if records.Some? && records.value != [] && p in records.value[0] && !records.value[0][p].JNull?
         then records.value[0][p] else JStr(""))
  {
    var f := response.fields;
    if "records" in f && f["records"].JArr? && |f["records"].items| > 0 {
      var records := DecodeApiResponse(response).value.records.value;
      assert DecodeObject(f["records"].items[0]) == Some(records[0]);
    }
  }

  /** Raw output is the serialized response, never empty. */
  lemma RawOutput(response: Json, serialize: Serializer)
    requires NonEmptySerializer(serialize)
    ensures ActionOutput(Raw, response, serialize) == JStr(serialize(response))
    ensures Truthy(ActionOutput(Raw, response, serialize))
  {
  }

  // ---------------------------------------------------------------- action dispatch

  /** What the user sees: a console line, a popup with its title, text
      inserted at the cursor of the open editor. */
  datatype Effect = Logged(text: string) | Shown(title: string, text: string) | Inserted(text: string)

  /** The vault as the actions change it (file contents by path, the folder
      paths) and the effects shown so far. */
  datatype VaultState = VaultState(files: map<string, string>, folders: set<string>, effects: seq<Effect>)

  /** What the actions read besides the vault: the command's name (the popup
      title), the path of the file active when the execution began, whether a
      markdown editor is open, the constants sent and the response. */
  datatype DispatchContext = DispatchContext(
    title: string,
    activeFile: Option<string>,
    editorOpen: bool,
    constants: map<string, string>,
    response: Json)

  /** `stringFromTemplateString` applied to a file-path template. */
  type Renderer = (string, map<string, string>, Json) -> string

  /** A file action at `path`: create when nothing exists there, replace or
      append when a file does, and nothing when a folder does. */
  function WriteFile(s: VaultState, path: string, text: string, append: bool): (r: VaultState)
    ensures r.effects == s.effects && r.folders == s.folders
    ensures forall p :: p != path ==> (p in r.files <==> p in s.files) && (p in s.files ==> r.files[p] == s.files[p])
    ensures path in s.folders && path !in s.files ==> r == s
    ensures path !in s.folders || path in s.files ==>
      path in r.files && r.files[path] == (if append && path in s.files then s.files[path] else "") + text
  {
    if path !in s.files && path !in s.folders then s.(files := s.files[path := text])
    else if path in s.files then s.(files := s.files[path := if append then s.files[path] + text else text])
    else s
  }

  /** One pass of the action loop: nothing when the output is falsy. */
  function ActionEffect(s: VaultState, a: Action, ctx: DispatchContext, render: Renderer, serialize: Serializer): VaultState {
    var output := ActionOutput(a.source, ctx.response, serialize);
    if !Truthy(output) then s
    else
      var text := OutputText(output, serialize);
      match a.kind
      case Log => s.(effects := s.effects + [Logged(text)])
      case Popup => s.(effects := s.effects + [Shown(ctx.title, text)])
      case InsertAtCursorPosition => if ctx.editorOpen then s.(effects := s.effects + [Inserted(text)]) else s
      case ReplaceActiveFile => if ctx.activeFile.Some? then s.(files := s.files[ctx.activeFile.value := text]) else s
      case CreateOrReplaceFile(template) => WriteFile(s, render(template, ctx.constants, ctx.response), text, false)
      case CreateOrAppendFile(template) => WriteFile(s, render(template, ctx.constants, ctx.response), text, true)
  }

  /** The action loop over a list of actions, in order. */
  function Dispatch(s: VaultState, actions: seq<Action>, ctx: DispatchContext, render: Renderer, serialize: Serializer): VaultState
    decreases |actions|
  {
    if actions == [] then s
    else ActionEffect(Dispatch(s, actions[..|actions| - 1], ctx, render, serialize), actions[|actions| - 1], ctx, render, serialize)
  }

  /** Running two lists of actions one after the other is running their concatenation. */
  lemma {:induction false} DispatchConcat(s: VaultState, xs: seq<Action>, ys: seq<Action>, ctx: DispatchContext,
                                          render: Renderer, serialize: Serializer)
    ensures Dispatch(s, xs + ys, ctx, render, serialize) == Dispatch(Dispatch(s, xs, ctx, render, serialize), ys, ctx, render, serialize)
    decreases |ys|
  {
    if ys == [] {
      assert xs + ys == xs;
    } else {
      var init := ys[..|ys| - 1];
      DispatchConcat(s, xs, init, ctx, render, serialize);
      assert (xs + ys)[..|xs + ys| - 1] == xs + init;
    }
  }

  /** An action that does nothing: its output is falsy, or it needs an editor
      or an active file that is not there. */
  predicate Idle(a: Action, ctx: DispatchContext, serialize: Serializer) {
    || !Truthy(ActionOutput(a.source, ctx.response, serialize))
    || (a.kind.InsertAtCursorPosition? && !ctx.editorOpen)
    || (a.kind.ReplaceActiveFile? && ctx.activeFile.None?)
  }

  /** An idle action can be dropped from any list without changing the outcome. */
  lemma IdleActionRemovable(s: VaultState, xs: seq<Action>, a: Action, ys: seq<Action>, ctx: DispatchContext,
                            render: Renderer, serialize: Serializer)
    requires Idle(a, ctx, serialize)
    ensures Dispatch(s, xs + [a] + ys, ctx, render, serialize) == Dispatch(s, xs + ys, ctx, render, serialize)
  {
    DispatchConcat(s, xs + [a], ys, ctx, render, serialize);
    DispatchConcat(s, xs, [a], ctx, render, serialize);
    DispatchConcat(s, xs, ys, ctx, render, serialize);
    assert [a][..0] == [];
  }

  /** The effect one action shows, if any. */
  function EffectOf(a: Action, ctx: DispatchContext, serialize: Serializer): seq<Effect> {
    var output := ActionOutput(a.source, ctx.response, serialize);
    var text := OutputText(output, serialize);
    if !Truthy(output) then []
    else if a.kind.Log? then [Logged(text)]
    else if a.kind.Popup? then [Shown(ctx.title, text)]
    else if a.kind.InsertAtCursorPosition? && ctx.editorOpen then [Inserted(text)]
    else []
  }

  /** The effects of a list of actions, first action first. */
  function EffectsOf(actions: seq<Action>, ctx: DispatchContext, serialize: Serializer): seq<Effect>
    decreases |actions|
  {
    if actions == [] then [] else EffectOf(actions[0], ctx, serialize) + EffectsOf(actions[1..], ctx, serialize)
  }

  /** One action adds exactly the effect it shows. */
  lemma ActionEffectShows(s: VaultState, a: Action, ctx: DispatchContext, render: Renderer, serialize: Serializer)
    ensures ActionEffect(s, a, ctx, render, serialize).effects == s.effects + EffectOf(a, ctx, serialize)
  {
  }

  /** Effects appear in the order of the actions that cause them. */
  lemma {:induction false} EffectsInActionOrder(s: VaultState, actions: seq<Action>, ctx: DispatchContext,
                                                render: Renderer, serialize: Serializer)
    ensures Dispatch(s, actions, ctx, render, serialize).effects == s.effects + EffectsOf(actions, ctx, serialize)
    decreases |actions|
  {
    if actions != [] {
      var first := Dispatch(s, [actions[0]], ctx, render, serialize);
      assert [actions[0]][..0] == [] && Dispatch(s, [], ctx, render, serialize) == s;
      assert first == ActionEffect(s, actions[0], ctx, render, serialize);
      ActionEffectShows(s, actions[0], ctx, render, serialize);
      DispatchConcat(s, [actions[0]], actions[1..], ctx, render, serialize);
      assert [actions[0]] + actions[1..] == actions;
      EffectsInActionOrder(first, actions[1..], ctx, render, serialize);
    }
  }

  /** A file action touches no path but the one its template renders to. */
  lemma FileActionFrame(s: VaultState, a: Action, ctx: DispatchContext, render: Renderer, serialize: Serializer, other: string)
    requires a.kind.CreateOrReplaceFile? || a.kind.CreateOrAppendFile?
    requires other != render(a.kind.filePath, ctx.constants, ctx.response)
    ensures var after := ActionEffect(s, a, ctx, render, serialize);
      && after.effects == s.effects && after.folders == s.folders
      && (other in after.files <==> other in s.files)
      && (other in s.files ==> after.files[other] == s.files[other])
  {
  }

  /** Two append actions to a path where nothing exists create the file and
      then append to it. */
  lemma CreateThenAppend(s: VaultState, a1: Action, a2: Action, ctx: DispatchContext, render: Renderer, serialize: Serializer)
    requires a1.kind.CreateOrAppendFile? && a2.kind.CreateOrAppendFile?
    requires var path := render(a1.kind.filePath, ctx.constants, ctx.response);
      path == render(a2.kind.filePath, ctx.constants, ctx.response) && path !in s.files && path !in s.folders
    requires !Idle(a1, ctx, serialize) && !Idle(a2, ctx, serialize)
    ensures var path := render(a1.kind.filePath, ctx.constants, ctx.response);
      Dispatch(s, [a1, a2], ctx, render, serialize).files ==
        s.files[path := OutputText(ActionOutput(a1.source, ctx.response, serialize), serialize)
                        + OutputText(ActionOutput(a2.source, ctx.response, serialize), serialize)]
  {
    var path := render(a1.kind.filePath, ctx.constants, ctx.response);
    var t1 := OutputText(ActionOutput(a1.source, ctx.response, serialize), serialize);
    var s1 := ActionEffect(s, a1, ctx, render, serialize);
    assert s1.files == s.files[path := t1];
    assert [a1][..0] == [];
    assert Dispatch(s, [a1], ctx, render, serialize) == s1;
    assert [a1, a2][..1] == [a1];
  }

  // ---------------------------------------------------------------- the host

  /** The result of `executeFlowConfiguration`: it throws when the flow cannot
      be found, and otherwise runs with the constants it sent and the response
      it classified. */
  datatype ExecutionResult = FlowNotFound | Executed(constants: map<string, string>, response: Json)

  const NotConnectedTitle := "Could not execute command"
  const NotConnectedText := "Your plugin is not connected to a Taskbone account"

  /** The notice `execute` shows when the key is missing (the request is still made). */
  function AfterKeyCheck(s: VaultState, apiKey: Option<string>): VaultState {
    if KeyMissing(apiKey) then s.(effects := s.effects + [Shown(NotConnectedTitle, NotConnectedText)]) else s
  }

  /** The context the actions of an execution run in. */
  function ContextFor(configuration: FlowConfiguration, ws: Workspace, constants: map<string, string>, response: Json): DispatchContext {
    DispatchContext(configuration.command.name,
                    if ws.activeFile.Some? then Some(ws.activeFile.value.path) else None,
                    ws.markdownView.Some?, constants, response)
  }

  /** The vault and the screen as the actions of a flow change them. */
  class Host {
    var files: map<string, string>
    var folders: set<string>
    var effects: seq<Effect>

    function State(): VaultState
      reads this
    {
      VaultState(files, folders, effects)
    }

    constructor (files: map<string, string>, folders: set<string>)
      ensures State() == VaultState(files, folders, [])
    {
      this.files := files;
      this.folders := folders;
      this.effects := [];
    }

    /** The action loop of `executeFlowConfiguration`. */
    method DispatchActions(actions: seq<Action>, ctx: DispatchContext, render: Renderer, serialize: Serializer)
      modifies this
      ensures State() == Dispatch(old(State()), actions, ctx, render, serialize)
    {
      var i := 0;
      while i < |actions|
        invariant 0 <= i <= |actions|
        invariant State() == Dispatch(old(State()), actions[..i], ctx, render, serialize)
      {
        var a := actions[i];
        assert actions[..i + 1][..i] == actions[..i];
        var output := ActionOutput(a.source, ctx.response, serialize);
        if Truthy(output) {
          var text := OutputText(output, serialize);
          match a.kind {
            case Log => effects := effects + [Logged(text)];
            case Popup => effects := effects + [Shown(ctx.title, text)];
            case InsertAtCursorPosition =>
              if ctx.editorOpen {
                effects := effects + [Inserted(text)];
              }
            case ReplaceActiveFile =>
              if ctx.activeFile.Some? {
                files := files[ctx.activeFile.value := text];
              }
            case CreateOrReplaceFile(template) =>
              var path := render(template, ctx.constants, ctx.response);
              if path !in files && path !in folders {
                files := files[path := text];
              } else if path in files {
                files := files[path := text];
              }
            case CreateOrAppendFile(template) =>
              var path := render(template, ctx.constants, ctx.response);
              if path !in files && path !in folders {
                files := files[path := text];
              } else if path in files {
                files := files[path := files[path] + text];
              }
          }
        }
        i := i + 1;
      }
      assert actions[..|actions|] == actions;
    }

    /** `executeFlowConfiguration` with `execute`: the flow is the one the
        cache lookup found, the key is the one `getApiKey` gave. */
    method ExecuteFlowConfiguration(configuration: FlowConfiguration, flow: Option<FlowDefinition>, ws: Workspace,
                                    pick: FilePicker, prompt: TextPrompt, apiKey: Option<string>, server: Server,
                                    render: Renderer, serialize: Serializer) returns (r: ExecutionResult)
      modifies this
      ensures flow.None? ==> r == FlowNotFound && State() == old(State())
      ensures flow.Some? ==> r.Executed?
      ensures flow.Some? ==> r.constants == ResolvedInputs(flow.value, configuration.inputConfigurations, ws, pick, prompt, serialize)
      ensures flow.Some? ==> r.response == Classify(server(flow.value.url, Authorization(apiKey), r.constants), serialize)
      ensures flow.Some? ==> State() == Dispatch(AfterKeyCheck(old(State()), apiKey), configuration.resultActions,
                                                 ContextFor(configuration, ws, r.constants, r.response), render, serialize)
    {
      if flow.None? {
        return FlowNotFound;
      }
      var constants := ResolveInputs(flow.value, configuration.inputConfigurations, ws, pick, prompt, serialize);
      if KeyMissing(apiKey) {
        effects := effects + [Shown(NotConnectedTitle, NotConnectedText)];
      }
      var response := Classify(server(flow.value.url, Authorization(apiKey), constants), serialize);
      DispatchActions(configuration.resultActions, ContextFor(configuration, ws, constants, response), render, serialize);
      r := Executed(constants, response);
    }
  }

  // ---------------------------------------------------------------- addConfigurationFromURL

  /** `addConfigurationFromURL`: `fetched` is the body the request produced, or
      None when the request or the parsing of its body threw. A body that
      validates is appended with the id made from `value`; otherwise the copy
      of the settings comes back unchanged. */
  method AddConfigurationFromURL(oldSettings: Settings, fetched: Option<Json>, value: nat) returns (settings: Settings)
    requires value < Uint32Limit
    ensures fetched.None? || !IsFlowConfiguration(fetched.value) ==> settings == oldSettings
    ensures fetched.Some? && IsFlowConfiguration(fetched.value) ==>
      && settings.(flowConfigurations := oldSettings.flowConfigurations) == oldSettings
      && |settings.flowConfigurations| == |oldSettings.flowConfigurations| + 1
      && settings.flowConfigurations[..|oldSettings.flowConfigurations|] == oldSettings.flowConfigurations
      && var added := settings.flowConfigurations[|oldSettings.flowConfigurations|];
         var config := DecodeFlowConfiguration(fetched.value).value;
         && added.(command := config.command) == config
         && added.command.name == config.command.name
         && added.command.description == config.command.description
         && (forall i :: 0 <= i < |added.command.id| ==> IsHexDigit(added.command.id[i]))
         && ParseHex(added.command.id) == value
    ensures oldSettings.Valid() ==> settings.Valid()
  {
    settings := oldSettings;
    if fetched.None? {
      return;
    }
    var config := DecodeFlowConfiguration(fetched.value);
    if config.None? {
      return;
    }
    var c := config.value;
    c := c.(command := c.command.(id := CreateRandomId(value)));
    settings := settings.(flowConfigurations := settings.flowConfigurations + [c]);
  }
}
