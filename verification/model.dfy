/** The configuration data model as typed values (the TypeScript interfaces of
    src/lib/validation.ts), with their JSON encodings and decoders. The decoders
    stand for "validate, then use the document as the typed value": each accepts
    exactly the documents its schema predicate accepts, and decoding an encoding
    gives the value back. */
module Model {
  import opened Wrappers
  import opened Json
  import opened Validation

  // ---------------------------------------------------------------- datatypes

  datatype DataType = Text | Binary

  datatype InputDefinition = InputDefinition(name: string, description: string, dataType: DataType)

  datatype OutputDefinition = OutputDefinition(name: string, description: string)

  datatype FlowDefinition = FlowDefinition(
    id: string,
    name: string,
    description: string,
    url: string,
    inputDefinitions: seq<InputDefinition>,
    outputDefinitions: seq<OutputDefinition>)

  /** Where an input's value comes from (the `sourceType` tag and its fields). */
  datatype InputSource =
    | Constant(value: string)
    | ActiveFile
    | FixedFile(path: string)
    | SelectFile(pattern: string, isRegularExpression: bool, autoRunOnCreate: Option<bool>)
    | Prompt

  datatype InputConfiguration = InputConfiguration(name: string, dataType: DataType, source: InputSource) {
    /** Binary inputs cannot be constants or prompts. */
    predicate Valid() {
      dataType == Binary ==> !source.Constant? && !source.Prompt?
    }
  }

  datatype ActionKind =
    | Log
    | Popup
    | InsertAtCursorPosition
    | ReplaceActiveFile
    | CreateOrReplaceFile(filePath: string)
    | CreateOrAppendFile(filePath: string)

  /** Which part of the response an action outputs. */
  datatype ActionSource = Raw | Errors | Property(property: string)

  datatype Action = Action(kind: ActionKind, source: ActionSource)

  /** Event and frequency are kept as text: the trigger engine compares them
      against "fileOpen" and "oncePerFileAndSession" itself. */
  datatype Trigger = Trigger(event: string, condition: string, frequency: string) {
    predicate Valid() {
      event == "fileOpen" && frequency == "oncePerFileAndSession"
    }
  }

  datatype Command = Command(id: string, name: string, description: string)

  datatype FlowConfiguration = FlowConfiguration(
    flow: string,
    command: Command,
    inputConfigurations: seq<InputConfiguration>,
    resultActions: seq<Action>,
    triggers: Option<seq<Trigger>>)
  {
    predicate Valid() {
      && (forall i :: 0 <= i < |inputConfigurations| ==> inputConfigurations[i].Valid())
      && (triggers.Some? ==> forall i :: 0 <= i < |triggers.value| ==> triggers.value[i].Valid())
    }
  }

  datatype Settings = Settings(
    apiKey: Option<string>,
    baseUrl: string,
    version: string,
    flowDefinitions: seq<FlowDefinition>,
    flowConfigurations: seq<FlowConfiguration>)
  {
    predicate Valid() {
      forall i :: 0 <= i < |flowConfigurations| ==> flowConfigurations[i].Valid()
    }
  }

  /** The response of a flow execution. The schema does not constrain the
      values inside `constants` and `records`, so they stay JSON values. */
  datatype ApiResponse = ApiResponse(
    constants: Option<map<string, Json>>,
    records: Option<seq<map<string, Json>>>,
    errors: Option<seq<string>>)

  // ---------------------------------------------------------------- names of the tags

  function DataTypeName(t: DataType): string {
    match t
    case Text => StringTypeName
    case Binary => BinaryTypeName
  }

  function ParseDataType(j: Json): (r: Option<DataType>)
    ensures r.Some? <==> j.JStr? && j.s in {StringTypeName, BinaryTypeName}
    ensures r.Some? ==> j == JStr(DataTypeName(r.value))
  {
    if j == JStr(StringTypeName) then Some(Text)
    else if j == JStr(BinaryTypeName) then Some(Binary)
    else None
  }

  function SourceTypeName(s: InputSource): string {
    match s
    case Constant(_) => "constant"
    case ActiveFile => "activeFile"
    case FixedFile(_) => "fixedFile"
    case SelectFile(_, _, _) => "selectFile"
    case Prompt => "prompt"
  }

  function ActionName(k: ActionKind): string {
    match k
    case Log => "log"
    case Popup => "popup"
    case InsertAtCursorPosition => "insertAtCursorPosition"
    case ReplaceActiveFile => "replaceActiveFile"
    case CreateOrReplaceFile(_) => "createOrReplaceFile"
    case CreateOrAppendFile(_) => "createOrAppendFile"
  }

  // ---------------------------------------------------------------- arrays

  function EncodeAll<T>(xs: seq<T>, enc: T -> Json): (j: Json)
    ensures j.JArr? && |j.items| == |xs|
    ensures forall i :: 0 <= i < |xs| ==> j.items[i] == enc(xs[i])
  {
    JArr(seq(|xs|, i requires 0 <= i < |xs| => enc(xs[i])))
  }

  /** Decodes every item, failing when any item fails. */
  function DecodeAll<T>(items: seq<Json>, dec: Json -> Option<T>): (r: Option<seq<T>>)
    ensures r.Some? <==> forall i :: 0 <= i < |items| ==> dec(items[i]).Some?
    ensures r.Some? ==> |r.value| == |items|
    ensures r.Some? ==> forall i :: 0 <= i < |items| ==> dec(items[i]) == Some(r.value[i])
    decreases |items|
  {
    if items == [] then Some([])
    else
      var head := dec(items[0]);
      var tail := DecodeAll(items[1..], dec);
      if head.None? then None
      else if tail.None? then
        assert exists i :: 0 <= i < |items| - 1 && dec(items[1..][i]).None?;
        None
      else
        assert forall i :: 1 <= i < |items| ==> items[i] == items[1..][i - 1];
        Some([head.value] + tail.value)
  }

  lemma DecodeEncodeAll<T>(xs: seq<T>, enc: T -> Json, dec: Json -> Option<T>)
    requires forall i :: 0 <= i < |xs| ==> dec(enc(xs[i])) == Some(xs[i])
    ensures DecodeAll(EncodeAll(xs, enc).items, dec) == Some(xs)
  {
    var r := DecodeAll(EncodeAll(xs, enc).items, dec);
    assert r.Some?;
    assert r.value == xs;
  }

  // ---------------------------------------------------------------- flow definitions

  function EncodeInputDefinition(d: InputDefinition): Json {
    JObj(map["name" := JStr(d.name), "description" := JStr(d.description), "type" := JStr(DataTypeName(d.dataType))])
  }

  function DecodeInputDefinition(j: Json): (r: Option<InputDefinition>)
    ensures r.Some? <==> IsInputDefinition(j)
  {
    if j.JObj? && StringField(j.fields, "name") && StringField(j.fields, "description") && "type" in j.fields then
      match ParseDataType(j.fields["type"])
      case Some(t) => Some(InputDefinition(j.fields["name"].s, j.fields["description"].s, t))
      case None => None
    else None
  }

  function EncodeOutputDefinition(d: OutputDefinition): Json {
    JObj(map["name" := JStr(d.name), "description" := JStr(d.description)])
  }

  function DecodeOutputDefinition(j: Json): (r: Option<OutputDefinition>)
    ensures r.Some? <==> IsOutputDefinition(j)
  {
    if j.JObj? && StringField(j.fields, "name") && StringField(j.fields, "description") then
      Some(OutputDefinition(j.fields["name"].s, j.fields["description"].s))
    else None
  }

  function EncodeFlowDefinition(d: FlowDefinition): Json {
    JObj(map[
      "id" := JStr(d.id),
      "name" := JStr(d.name),
      "description" := JStr(d.description),
      "url" := JStr(d.url),
      "inputDefinitions" := EncodeAll(d.inputDefinitions, EncodeInputDefinition),
      "outputDefinitions" := EncodeAll(d.outputDefinitions, EncodeOutputDefinition)])
  }

  /** The flow definition a validated document stands for; extra fields are dropped. */
  function DecodeFlowDefinition(j: Json): (r: Option<FlowDefinition>)
    ensures r.Some? <==> IsFlowDefinition(j)
  {
    if && j.JObj?
       && StringField(j.fields, "id") && StringField(j.fields, "name")
       && StringField(j.fields, "description") && StringField(j.fields, "url")
       && "inputDefinitions" in j.fields && j.fields["inputDefinitions"].JArr?
       && "outputDefinitions" in j.fields && j.fields["outputDefinitions"].JArr?
    then
      var ins := DecodeAll(j.fields["inputDefinitions"].items, DecodeInputDefinition);
      var outs := DecodeAll(j.fields["outputDefinitions"].items, DecodeOutputDefinition);
      if ins.Some? && outs.Some? then
        Some(FlowDefinition(j.fields["id"].s, j.fields["name"].s, j.fields["description"].s,
                            j.fields["url"].s, ins.value, outs.value))
      else None
    else None
  }

  lemma InputDefinitionRoundTrip(d: InputDefinition)
    ensures DecodeInputDefinition(EncodeInputDefinition(d)) == Some(d)
  {
    var f := EncodeInputDefinition(d).fields;
    assert f["name"] == JStr(d.name) && f["description"] == JStr(d.description);
    assert f["type"] == JStr(DataTypeName(d.dataType));
  }

  lemma EncodedFlowDefinitionFields(d: FlowDefinition)
    ensures var f := EncodeFlowDefinition(d).fields;
      && f["id"] == JStr(d.id) && f["name"] == JStr(d.name)
      && f["description"] == JStr(d.description) && f["url"] == JStr(d.url)
      && f["inputDefinitions"] == EncodeAll(d.inputDefinitions, EncodeInputDefinition)
      && f["outputDefinitions"] == EncodeAll(d.outputDefinitions, EncodeOutputDefinition)
  {
  }

  lemma InputDefinitionsRoundTrip(ds: seq<InputDefinition>)
    ensures DecodeAll(EncodeAll(ds, EncodeInputDefinition).items, DecodeInputDefinition) == Some(ds)
  {
    forall i | 0 <= i < |ds| ensures DecodeInputDefinition(EncodeInputDefinition(ds[i])) == Some(ds[i]) {
      InputDefinitionRoundTrip(ds[i]);
    }
    DecodeEncodeAll(ds, EncodeInputDefinition, DecodeInputDefinition);
  }

  lemma FlowDefinitionRoundTrip(d: FlowDefinition)
    ensures DecodeFlowDefinition(EncodeFlowDefinition(d)) == Some(d)
  {
    EncodedFlowDefinitionFields(d);
    InputDefinitionsRoundTrip(d.inputDefinitions);
    DecodeEncodeAll(d.outputDefinitions, EncodeOutputDefinition, DecodeOutputDefinition);
  }

  // ---------------------------------------------------------------- input configurations

  function SourceFields(s: InputSource): map<string, Json> {
    match s
    case Constant(v) => map["value" := JStr(v)]
    case FixedFile(p) => map["path" := JStr(p)]
    case SelectFile(p, re, auto) =>
      var m := map["pattern" := JStr(p), "isRegularExpression" := JBool(re)];
      if auto.Some? then m["autoRunOnCreate" := JBool(auto.value)] else m
    case ActiveFile => map[]
    case Prompt => map[]
  }

  function EncodeInputConfiguration(c: InputConfiguration): Json {
    JObj(SourceFields(c.source) + map[
      "name" := JStr(c.name),
      "type" := JStr(DataTypeName(c.dataType)),
      "sourceType" := JStr(SourceTypeName(c.source))])
  }

  /** The source of a configuration whose `sourceType` member is `st`. */
  function DecodeSource(f: map<string, Json>, t: DataType, st: Json): Option<InputSource> {
    if st == JStr("constant") then
      if t == Text && StringField(f, "value") then Some(Constant(f["value"].s)) else None
    else if st == JStr("activeFile") then Some(ActiveFile)
    else if st == JStr("prompt") then
      if t == Text then Some(Prompt) else None
    else if st == JStr("selectFile") then
      if StringField(f, "pattern") && "isRegularExpression" in f && f["isRegularExpression"].JBool?
         && OptionalNullableBool(f, "autoRunOnCreate")
      then
        var auto := if "autoRunOnCreate" in f && f["autoRunOnCreate"].JBool? then Some(f["autoRunOnCreate"].b) else None;
        Some(SelectFile(f["pattern"].s, f["isRegularExpression"].b, auto))
      else None
    else if st == JStr("fixedFile") then
      if StringField(f, "path") then Some(FixedFile(f["path"].s)) else None
    else None
  }

  function DecodeInputConfiguration(j: Json): (r: Option<InputConfiguration>)
    ensures r.Some? <==> IsInputConfiguration(j)
    ensures r.Some? ==> r.value.Valid()
  {
    if j.JObj? && StringField(j.fields, "name") && "type" in j.fields && "sourceType" in j.fields then
      match ParseDataType(j.fields["type"])
      case None => None
      case Some(t) =>
        match DecodeSource(j.fields, t, j.fields["sourceType"])
        case None => None
        case Some(s) => Some(InputConfiguration(j.fields["name"].s, t, s))
    else None
  }

  /** The source-specific members of an encoding decode back to the source. */
  lemma SourceRoundTrip(c: InputConfiguration)
    requires c.Valid()
    ensures DecodeSource(EncodeInputConfiguration(c).fields, c.dataType, JStr(SourceTypeName(c.source))) == Some(c.source)
  {
    var f := EncodeInputConfiguration(c).fields;
    match c.source
    case Constant(v) => assert f["value"] == JStr(v);
    case FixedFile(p) => assert f["path"] == JStr(p);
    case SelectFile(p, re, auto) =>
      assert f["pattern"] == JStr(p);
      assert f["isRegularExpression"] == JBool(re);
      if auto.Some? { assert f["autoRunOnCreate"] == JBool(auto.value); }
      else { assert "autoRunOnCreate" !in f; }
    case ActiveFile =>
    case Prompt =>
  }

  lemma InputConfigurationRoundTrip(c: InputConfiguration)
    requires c.Valid()
    ensures DecodeInputConfiguration(EncodeInputConfiguration(c)) == Some(c)
  {
    var f := EncodeInputConfiguration(c).fields;
    assert f["name"] == JStr(c.name);
    assert f["type"] == JStr(DataTypeName(c.dataType));
    assert f["sourceType"] == JStr(SourceTypeName(c.source));
    SourceRoundTrip(c);
  }

  /** The schema accepts the encoding of a configuration exactly when the
      configuration is one of the eight admitted variants. */
  lemma InputConfigurationSchemaMatchesValid(c: InputConfiguration)
    ensures IsInputConfiguration(EncodeInputConfiguration(c)) <==> c.Valid()
  {
    if c.Valid() {
      InputConfigurationRoundTrip(c);
    } else {
      var f := EncodeInputConfiguration(c).fields;
      assert f["type"] == JStr(BinaryTypeName);
      assert f["sourceType"] == JStr(SourceTypeName(c.source));
    }
  }

  // ---------------------------------------------------------------- actions

  function EncodeAction(a: Action): Json {
    var kindFields := match a.kind
      case CreateOrReplaceFile(p) => map["filePath" := JStr(p)]
      case CreateOrAppendFile(p) => map["filePath" := JStr(p)]
      case _ => map[];
    var sourceFields := match a.source
      case Property(p) => map["property" := JStr(p)]
      case _ => map[];
    var sourceName := match a.source
      case Raw => "raw"
      case Errors => "error"
      case Property(_) => "property";
    JObj(kindFields + sourceFields + map["action" := JStr(ActionName(a.kind)), "sourceType" := JStr(sourceName)])
  }

  function DecodeActionKind(f: map<string, Json>): (r: Option<ActionKind>)
    ensures r.Some? <==>
      (|| EnumField(f, "action", PlainActionNames)
       || (EnumField(f, "action", FileActionNames) && StringField(f, "filePath")))
  {
    if f.Keys !! {"action"} then None
    else if f["action"] == JStr("log") then Some(Log)
    else if f["action"] == JStr("popup") then Some(Popup)
    else if f["action"] == JStr("insertAtCursorPosition") then Some(InsertAtCursorPosition)
    else if f["action"] == JStr("replaceActiveFile") then Some(ReplaceActiveFile)
    else if !StringField(f, "filePath") then None
    else if f["action"] == JStr("createOrReplaceFile") then Some(CreateOrReplaceFile(f["filePath"].s))
    else if f["action"] == JStr("createOrAppendFile") then Some(CreateOrAppendFile(f["filePath"].s))
    else None
  }

  function DecodeActionSource(f: map<string, Json>): (r: Option<ActionSource>)
    ensures r.Some? <==>
      (|| EnumField(f, "sourceType", {"error", "raw"})
       || (ConstField(f, "sourceType", "property") && StringField(f, "property")))
  {
    if "sourceType" !in f then None
    else if f["sourceType"] == JStr("raw") then Some(Raw)
    else if f["sourceType"] == JStr("error") then Some(Errors)
    else if f["sourceType"] == JStr("property") && StringField(f, "property") then Some(Property(f["property"].s))
    else None
  }

  function DecodeAction(j: Json): (r: Option<Action>)
    ensures r.Some? <==> IsAction(j)
  {
    if !j.JObj? then None
    else
      match (DecodeActionKind(j.fields), DecodeActionSource(j.fields))
      case (Some(k), Some(s)) => Some(Action(k, s))
      case _ => None
  }

  lemma ActionRoundTrip(a: Action)
    ensures DecodeAction(EncodeAction(a)) == Some(a)
  {
    var f := EncodeAction(a).fields;
    assert f["action"] == JStr(ActionName(a.kind));
    match a.kind {
      case CreateOrReplaceFile(p) => assert f["filePath"] == JStr(p);
      case CreateOrAppendFile(p) => assert f["filePath"] == JStr(p);
      case _ =>
    }
    match a.source {
      case Property(p) =>
        assert f["property"] == JStr(p);
        assert f["sourceType"] == JStr("property");
      case Raw => assert f["sourceType"] == JStr("raw");
      case Errors => assert f["sourceType"] == JStr("error");
    }
  }

  // ---------------------------------------------------------------- triggers and commands

  function EncodeTrigger(t: Trigger): Json {
    JObj(map["event" := JStr(t.event), "condition" := JStr(t.condition), "frequency" := JStr(t.frequency)])
  }

  function DecodeTrigger(j: Json): (r: Option<Trigger>)
    ensures r.Some? <==> IsTrigger(j)
    ensures r.Some? ==> r.value.Valid()
  {
    if && j.JObj? && StringField(j.fields, "condition")
       && ConstField(j.fields, "event", "fileOpen")
       && ConstField(j.fields, "frequency", "oncePerFileAndSession")
    then Some(Trigger("fileOpen", j.fields["condition"].s, "oncePerFileAndSession"))
    else None
  }

  lemma TriggerRoundTrip(t: Trigger)
    ensures IsTrigger(EncodeTrigger(t)) <==> t.Valid()
    ensures t.Valid() ==> DecodeTrigger(EncodeTrigger(t)) == Some(t)
  {
    var f := EncodeTrigger(t).fields;
    assert f["event"] == JStr(t.event) && f["frequency"] == JStr(t.frequency);
  }

  function EncodeCommand(c: Command): Json {
    JObj(map["id" := JStr(c.id), "name" := JStr(c.name), "description" := JStr(c.description)])
  }

  function DecodeCommand(j: Json): (r: Option<Command>)
    ensures r.Some? <==> IsCommand(j)
  {
    if j.JObj? && StringField(j.fields, "id") && StringField(j.fields, "name") && StringField(j.fields, "description")
    then Some(Command(j.fields["id"].s, j.fields["name"].s, j.fields["description"].s))
    else None
  }

  // ---------------------------------------------------------------- flow configurations

  function EncodeFlowConfiguration(c: FlowConfiguration): Json {
    var m := map[
      "flow" := JStr(c.flow),
      "command" := EncodeCommand(c.command),
      "inputConfigurations" := EncodeAll(c.inputConfigurations, EncodeInputConfiguration),
      "resultActions" := EncodeAll(c.resultActions, EncodeAction)];
    JObj(if c.triggers.Some? then m["triggers" := EncodeAll(c.triggers.value, EncodeTrigger)] else m)
  }

  /** Decodes the optional `triggers` member: absent and null mean no triggers. */
  function DecodeTriggers(f: map<string, Json>): (r: Option<Option<seq<Trigger>>>)
    ensures r.Some? <==> ("triggers" !in f || f["triggers"].JNull? || ArrayOf(f["triggers"], IsTrigger))
    ensures r.Some? && r.value.Some? ==> forall i :: 0 <= i < |r.value.value| ==> r.value.value[i].Valid()
  {
    if "triggers" !in f || f["triggers"].JNull? then Some(None)
    else if !f["triggers"].JArr? then None
    else
      match DecodeAll(f["triggers"].items, DecodeTrigger)
      case None => None
      case Some(ts) => Some(Some(ts))
  }

  function DecodeFlowConfiguration(j: Json): (r: Option<FlowConfiguration>)
    ensures r.Some? <==> IsFlowConfiguration(j)
    ensures r.Some? ==> r.value.Valid()
  {
    if && j.JObj? && StringField(j.fields, "flow") && "command" in j.fields
       && "inputConfigurations" in j.fields && j.fields["inputConfigurations"].JArr?
       && "resultActions" in j.fields && j.fields["resultActions"].JArr?
    then
      var command := DecodeCommand(j.fields["command"]);
      var inputs := DecodeAll(j.fields["inputConfigurations"].items, DecodeInputConfiguration);
      var actions := DecodeAll(j.fields["resultActions"].items, DecodeAction);
      var triggers := DecodeTriggers(j.fields);
      if command.Some? && inputs.Some? && actions.Some? && triggers.Some? then
        Some(FlowConfiguration(j.fields["flow"].s, command.value, inputs.value, actions.value, triggers.value))
      else None
    else None
  }

  lemma FlowConfigurationRoundTrip(c: FlowConfiguration)
    requires c.Valid()
    ensures DecodeFlowConfiguration(EncodeFlowConfiguration(c)) == Some(c)
  {
    var f := EncodeFlowConfiguration(c).fields;
    assert f["flow"] == JStr(c.flow);
    assert f["command"] == EncodeCommand(c.command);
    assert DecodeCommand(f["command"]) == Some(c.command);
    assert f["inputConfigurations"] == EncodeAll(c.inputConfigurations, EncodeInputConfiguration);
    assert f["resultActions"] == EncodeAll(c.resultActions, EncodeAction);
    InputConfigurationsRoundTrip(c.inputConfigurations);
    ActionsRoundTrip(c.resultActions);
    TriggersRoundTrip(c);
  }

  lemma InputConfigurationsRoundTrip(cs: seq<InputConfiguration>)
    requires forall i :: 0 <= i < |cs| ==> cs[i].Valid()
    ensures DecodeAll(EncodeAll(cs, EncodeInputConfiguration).items, DecodeInputConfiguration) == Some(cs)
  {
    forall i | 0 <= i < |cs|
      ensures DecodeInputConfiguration(EncodeInputConfiguration(cs[i])) == Some(cs[i])
    {
      InputConfigurationRoundTrip(cs[i]);
    }
    DecodeEncodeAll(cs, EncodeInputConfiguration, DecodeInputConfiguration);
  }

  lemma ActionsRoundTrip(actions: seq<Action>)
    ensures DecodeAll(EncodeAll(actions, EncodeAction).items, DecodeAction) == Some(actions)
  {
    forall i | 0 <= i < |actions| ensures DecodeAction(EncodeAction(actions[i])) == Some(actions[i]) {
      ActionRoundTrip(actions[i]);
    }
    DecodeEncodeAll(actions, EncodeAction, DecodeAction);
  }

  lemma TriggersRoundTrip(c: FlowConfiguration)
    requires c.Valid()
    ensures DecodeTriggers(EncodeFlowConfiguration(c).fields) == Some(c.triggers)
  {
    var f := EncodeFlowConfiguration(c).fields;
    if c.triggers.Some? {
      var ts := c.triggers.value;
      forall i | 0 <= i < |ts| ensures DecodeTrigger(EncodeTrigger(ts[i])) == Some(ts[i]) {
        TriggerRoundTrip(ts[i]);
      }
      DecodeEncodeAll(ts, EncodeTrigger, DecodeTrigger);
      assert f["triggers"] == EncodeAll(ts, EncodeTrigger);
    } else {
      assert "triggers" !in f;
    }
  }

  /** A configuration with an invalid input is rejected by the schema. */
  lemma InvalidInputRejected(c: FlowConfiguration, i: nat)
    requires i < |c.inputConfigurations| && !c.inputConfigurations[i].Valid()
    ensures !IsFlowConfiguration(EncodeFlowConfiguration(c))
  {
    var f := EncodeFlowConfiguration(c).fields;
    InputConfigurationSchemaMatchesValid(c.inputConfigurations[i]);
    assert f["inputConfigurations"] == EncodeAll(c.inputConfigurations, EncodeInputConfiguration);
    assert !IsInputConfiguration(f["inputConfigurations"].items[i]);
  }

  /** A configuration with an invalid trigger is rejected by the schema. */
  lemma InvalidTriggerRejected(c: FlowConfiguration, i: nat)
    requires c.triggers.Some? && i < |c.triggers.value| && !c.triggers.value[i].Valid()
    ensures !IsFlowConfiguration(EncodeFlowConfiguration(c))
  {
    var f := EncodeFlowConfiguration(c).fields;
    TriggerRoundTrip(c.triggers.value[i]);
    assert !IsTrigger(f["triggers"].items[i]);
  }

  /** An invalid configuration's encoding is rejected by the schema. */
  lemma InvalidConfigurationRejected(c: FlowConfiguration)
    requires !c.Valid()
    ensures !IsFlowConfiguration(EncodeFlowConfiguration(c))
  {
    if i :| 0 <= i < |c.inputConfigurations| && !c.inputConfigurations[i].Valid() {
      InvalidInputRejected(c, i);
    } else {
      var i :| 0 <= i < |c.triggers.value| && !c.triggers.value[i].Valid();
      InvalidTriggerRejected(c, i);
    }
  }

  /** The schema accepts the encoding of a configuration exactly when every
      input configuration and every trigger in it is admitted. */
  lemma FlowConfigurationSchemaMatchesValid(c: FlowConfiguration)
    ensures IsFlowConfiguration(EncodeFlowConfiguration(c)) <==> c.Valid()
  {
    if c.Valid() {
      FlowConfigurationRoundTrip(c);
    } else {
      InvalidConfigurationRejected(c);
    }
  }

  // ---------------------------------------------------------------- settings

  function EncodeSettings(s: Settings): Json {
    var m := map[
      "baseUrl" := JStr(s.baseUrl),
      "version" := JStr(s.version),
      "flowDefinitions" := EncodeAll(s.flowDefinitions, EncodeFlowDefinition),
      "flowConfigurations" := EncodeAll(s.flowConfigurations, EncodeFlowConfiguration)];
    JObj(if s.apiKey.Some? then m["apiKey" := JStr(s.apiKey.value)] else m)
  }

  function DecodeFlowDefinitions(j: Json): (r: Option<seq<FlowDefinition>>)
    requires j.JArr?
    ensures r.Some? <==> ArrayOf(j, IsFlowDefinition)
  {
    DecodeAll(j.items, DecodeFlowDefinition)
  }

  function DecodeFlowConfigurations(j: Json): (r: Option<seq<FlowConfiguration>>)
    requires j.JArr?
    ensures r.Some? <==> ArrayOf(j, IsFlowConfiguration)
    ensures r.Some? ==> forall i :: 0 <= i < |r.value| ==> r.value[i].Valid()
  {
    DecodeAll(j.items, DecodeFlowConfiguration)
  }

  function DecodeSettings(j: Json): (r: Option<Settings>)
    ensures r.Some? <==> IsSettings(j)
    ensures r.Some? ==> r.value.Valid()
  {
    if && j.JObj? && OptionalNullableString(j.fields, "apiKey")
       && StringField(j.fields, "baseUrl") && StringField(j.fields, "version")
       && "flowDefinitions" in j.fields && j.fields["flowDefinitions"].JArr?
       && "flowConfigurations" in j.fields && j.fields["flowConfigurations"].JArr?
    then
      var defs := DecodeFlowDefinitions(j.fields["flowDefinitions"]);
      var configs := DecodeFlowConfigurations(j.fields["flowConfigurations"]);
      var apiKey := if "apiKey" in j.fields && j.fields["apiKey"].JStr? then Some(j.fields["apiKey"].s) else None;
      if defs.Some? && configs.Some? then
        Some(Settings(apiKey, j.fields["baseUrl"].s, j.fields["version"].s, defs.value, configs.value))
      else None
    else None
  }

  lemma SettingsRoundTrip(s: Settings)
    requires s.Valid()
    ensures DecodeSettings(EncodeSettings(s)) == Some(s)
  {
    var f := EncodeSettings(s).fields;
    if s.apiKey.Some? { assert f["apiKey"] == JStr(s.apiKey.value); } else { assert "apiKey" !in f; }
    assert f["baseUrl"] == JStr(s.baseUrl) && f["version"] == JStr(s.version);
    assert f["flowDefinitions"] == EncodeAll(s.flowDefinitions, EncodeFlowDefinition);
    assert f["flowConfigurations"] == EncodeAll(s.flowConfigurations, EncodeFlowConfiguration);
    FlowDefinitionsRoundTrip(s.flowDefinitions);
    FlowConfigurationsRoundTrip(s.flowConfigurations);
  }

  lemma FlowDefinitionsRoundTrip(ds: seq<FlowDefinition>)
    ensures DecodeAll(EncodeAll(ds, EncodeFlowDefinition).items, DecodeFlowDefinition) == Some(ds)
  {
    forall i | 0 <= i < |ds| ensures DecodeFlowDefinition(EncodeFlowDefinition(ds[i])) == Some(ds[i]) {
      FlowDefinitionRoundTrip(ds[i]);
    }
    DecodeEncodeAll(ds, EncodeFlowDefinition, DecodeFlowDefinition);
  }

  lemma FlowConfigurationsRoundTrip(cs: seq<FlowConfiguration>)
    requires forall i :: 0 <= i < |cs| ==> cs[i].Valid()
    ensures DecodeAll(EncodeAll(cs, EncodeFlowConfiguration).items, DecodeFlowConfiguration) == Some(cs)
  {
    forall i | 0 <= i < |cs|
      ensures DecodeFlowConfiguration(EncodeFlowConfiguration(cs[i])) == Some(cs[i])
    {
      FlowConfigurationRoundTrip(cs[i]);
    }
    DecodeEncodeAll(cs, EncodeFlowConfiguration, DecodeFlowConfiguration);
  }

  // ---------------------------------------------------------------- API responses

  function EncodeApiResponse(r: ApiResponse): Json {
    var c := if r.constants.Some? then map["constants" := JObj(r.constants.value)] else map[];
    var rec := if r.records.Some? then map["records" := EncodeAll(r.records.value, (m: map<string, Json>) => JObj(m))] else map[];
    var e := if r.errors.Some? then map["errors" := Strings(r.errors.value)] else map[];
    JObj(c + rec + e)
  }

  function DecodeObject(j: Json): Option<map<string, Json>> {
    if j.JObj? then Some(j.fields) else None
  }

  function DecodeString(j: Json): Option<string> {
    if j.JStr? then Some(j.s) else None
  }

  /** The response a validated body stands for; null members count as absent. */
  function DecodeApiResponse(j: Json): (r: Option<ApiResponse>)
    ensures r.Some? <==> IsApiResponse(j)
  {
    if !j.JObj? then None
    else
      var f := j.fields;
      var constants := if "constants" in f && f["constants"].JObj? then Some(Some(f["constants"].fields))
                       else if "constants" !in f || f["constants"].JNull? then Some(None) else None;
      var records := if "records" in f && f["records"].JArr? then
                       (match DecodeAll(f["records"].items, DecodeObject)
                        case Some(rs) => Some(Some(rs))
                        case None => None)
                     else if "records" !in f || f["records"].JNull? then Some(None) else None;
      var errors := if "errors" in f && f["errors"].JArr? then
                      (match DecodeAll(f["errors"].items, DecodeString)
                       case Some(es) => Some(Some(es))
                       case None => None)
                    else if "errors" !in f || f["errors"].JNull? then Some(None) else None;
      if constants.Some? && records.Some? && errors.Some? then
        Some(ApiResponse(constants.value, records.value, errors.value))
      else None
  }

  lemma ApiResponseRoundTrip(r: ApiResponse)
    ensures DecodeApiResponse(EncodeApiResponse(r)) == Some(r)
  {
    var f := EncodeApiResponse(r).fields;
    if r.constants.Some? { assert f["constants"] == JObj(r.constants.value); } else { assert "constants" !in f; }
    if r.records.Some? {
      var enc := (m: map<string, Json>) => JObj(m);
      assert f["records"] == EncodeAll(r.records.value, enc);
      DecodeEncodeAll(r.records.value, enc, DecodeObject);
    } else { assert "records" !in f; }
    if r.errors.Some? {
      assert f["errors"] == Strings(r.errors.value);
      assert f["errors"] == EncodeAll(r.errors.value, (s: string) => JStr(s));
      DecodeEncodeAll(r.errors.value, (s: string) => JStr(s), DecodeString);
    } else { assert "errors" !in f; }
  }
}
