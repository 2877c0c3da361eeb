/** The JSON schemas of the configuration data model, one predicate per schema.
    Each predicate accepts exactly what the corresponding schema accepts: a key
    listed under `properties` is checked only when present, `required` keys must
    be present, `nullable` admits null, and keys the schema does not mention are
    ignored (no schema here forbids additional properties). */
module Validation {
  import opened Json

  const StringTypeName := "string"
  const BinaryTypeName := "binary/base64"

  /** `k` is present and holds a string. */
  predicate StringField(f: map<string, Json>, k: string) {
    k in f && f[k].JStr?
  }

  /** `k` is present and holds exactly the string `v` (a `const` or one-element `enum`). */
  predicate ConstField(f: map<string, Json>, k: string, v: string) {
    k in f && f[k] == JStr(v)
  }

  /** `k` is present and holds a string from `vs` (an `enum`). */
  predicate EnumField(f: map<string, Json>, k: string, vs: set<string>) {
    k in f && f[k].JStr? && f[k].s in vs
  }

  /** `k`, if present, is a string or null (an optional nullable string). */
  predicate OptionalNullableString(f: map<string, Json>, k: string) {
    k !in f || f[k].JStr? || f[k].JNull?
  }

  /** `k`, if present, is a boolean or null (an optional nullable boolean). */
  predicate OptionalNullableBool(f: map<string, Json>, k: string) {
    k !in f || f[k].JBool? || f[k].JNull?
  }

  /** `j` is an array whose every item satisfies `item`. */
  predicate ArrayOf(j: Json, item: Json -> bool) {
    j.JArr? && forall i :: 0 <= i < |j.items| ==> item(j.items[i])
  }

  /** `k` is present and holds an array whose items satisfy `item`. */
  predicate ArrayField(f: map<string, Json>, k: string, item: Json -> bool) {
    k in f && ArrayOf(f[k], item)
  }

  // ---------------------------------------------------------------- flow definitions

  predicate IsInputDefinition(j: Json) {
    && j.JObj?
    && StringField(j.fields, "name")
    && StringField(j.fields, "description")
    && EnumField(j.fields, "type", {BinaryTypeName, StringTypeName})
  }

  predicate IsOutputDefinition(j: Json) {
    && j.JObj?
    && StringField(j.fields, "name")
    && StringField(j.fields, "description")
  }

  /** validateFlowDefinition. Extra top-level fields are explicitly allowed. */
  predicate IsFlowDefinition(j: Json) {
    && j.JObj?
    && StringField(j.fields, "id")
    && StringField(j.fields, "name")
    && StringField(j.fields, "description")
    && StringField(j.fields, "url")
    && ArrayField(j.fields, "inputDefinitions", IsInputDefinition)
    && ArrayField(j.fields, "outputDefinitions", IsOutputDefinition)
  }

  // ---------------------------------------------------------------- input configurations

  /** The discriminating pair of an input-configuration variant. */
  predicate Variant(f: map<string, Json>, dataType: string, sourceType: string) {
    ConstField(f, "type", dataType) && ConstField(f, "sourceType", sourceType)
  }

  predicate IsStringConstantInput(f: map<string, Json>) {
    Variant(f, StringTypeName, "constant") && StringField(f, "value")
  }

  predicate IsActiveFileInput(f: map<string, Json>, dataType: string) {
    Variant(f, dataType, "activeFile")
  }

  predicate IsStringPromptInput(f: map<string, Json>) {
    Variant(f, StringTypeName, "prompt")
  }

  predicate IsSelectFileInput(f: map<string, Json>, dataType: string) {
    && Variant(f, dataType, "selectFile")
    && StringField(f, "pattern")
    && "isRegularExpression" in f && f["isRegularExpression"].JBool?
    && OptionalNullableBool(f, "autoRunOnCreate")
  }

  predicate IsFixedFileInput(f: map<string, Json>, dataType: string) {
    Variant(f, dataType, "fixedFile") && StringField(f, "path")
  }

  /** inputConfigurationSchema: a string `name` and one of the eight variants. */
  predicate IsInputConfiguration(j: Json) {
    && j.JObj?
    && StringField(j.fields, "name")
    && (|| IsStringConstantInput(j.fields)
        || IsActiveFileInput(j.fields, StringTypeName)
        || IsStringPromptInput(j.fields)
        || IsSelectFileInput(j.fields, StringTypeName)
        || IsFixedFileInput(j.fields, StringTypeName)
        || IsActiveFileInput(j.fields, BinaryTypeName)
        || IsFixedFileInput(j.fields, BinaryTypeName)
        || IsSelectFileInput(j.fields, BinaryTypeName))
  }

  // ---------------------------------------------------------------- commands, actions, triggers

  predicate IsCommand(j: Json) {
    && j.JObj?
    && StringField(j.fields, "description")
    && StringField(j.fields, "id")
    && StringField(j.fields, "name")
  }

  const PlainActionNames: set<string> := {"insertAtCursorPosition", "log", "popup", "replaceActiveFile"}
  const FileActionNames: set<string> := {"createOrAppendFile", "createOrReplaceFile"}

  /** actionSchema: (a plain action, or a file action with a string `filePath`)
      and (source "error"/"raw", or source "property" with a string `property`). */
  predicate IsAction(j: Json) {
    && j.JObj?
    && (|| EnumField(j.fields, "action", PlainActionNames)
        || (EnumField(j.fields, "action", FileActionNames) && StringField(j.fields, "filePath")))
    && (|| EnumField(j.fields, "sourceType", {"error", "raw"})
        || (ConstField(j.fields, "sourceType", "property") && StringField(j.fields, "property")))
  }

  predicate IsTrigger(j: Json) {
    && j.JObj?
    && StringField(j.fields, "condition")
    && ConstField(j.fields, "event", "fileOpen")
    && ConstField(j.fields, "frequency", "oncePerFileAndSession")
  }

  /** validateFlowConfiguration. `triggers` may be absent or null. */
  predicate IsFlowConfiguration(j: Json) {
    && j.JObj?
    && ArrayField(j.fields, "inputConfigurations", IsInputConfiguration)
    && "command" in j.fields && IsCommand(j.fields["command"])
    && StringField(j.fields, "flow")
    && ArrayField(j.fields, "resultActions", IsAction)
    && ("triggers" !in j.fields || j.fields["triggers"].JNull? || ArrayOf(j.fields["triggers"], IsTrigger))
  }

  /** validateSettings. `apiKey` may be absent or null. */
  predicate IsSettings(j: Json) {
    && j.JObj?
    && OptionalNullableString(j.fields, "apiKey")
    && StringField(j.fields, "baseUrl")
    && StringField(j.fields, "version")
    && ArrayField(j.fields, "flowDefinitions", IsFlowDefinition)
    && ArrayField(j.fields, "flowConfigurations", IsFlowConfiguration)
  }

  predicate IsObject(j: Json) { j.JObj? }
  predicate IsString(j: Json) { j.JStr? }

  /** validateApiResponse: nothing is required; `constants` is an object,
      `records` an array of objects, `errors` an array of strings, each
      when present and not null. Values inside the objects are not checked. */
  predicate IsApiResponse(j: Json) {
    && j.JObj?
    && ("constants" !in j.fields || j.fields["constants"].JNull? || j.fields["constants"].JObj?)
    && ("records" !in j.fields || j.fields["records"].JNull? || ArrayOf(j.fields["records"], IsObject))
    && ("errors" !in j.fields || j.fields["errors"].JNull? || ArrayOf(j.fields["errors"], IsString))
  }

  // ---------------------------------------------------------------- properties of the schemas

  /** A flow definition missing any of its six required fields is rejected. */
  lemma FlowDefinitionRequiresFields(j: Json)
    requires j.JObj?
    requires exists k :: k in ["description", "id", "inputDefinitions", "name", "outputDefinitions", "url"] && k !in j.fields
    ensures !IsFlowDefinition(j)
  {
  }

  /** Unknown extra top-level fields never make a flow definition invalid. */
  lemma FlowDefinitionToleratesExtraFields(j: Json, k: string, v: Json)
    requires IsFlowDefinition(j)
    requires k !in {"description", "id", "inputDefinitions", "name", "outputDefinitions", "url"}
    ensures IsFlowDefinition(JObj(j.fields[k := v]))
  {
    var f := j.fields[k := v];
    assert f["inputDefinitions"] == j.fields["inputDefinitions"];
    assert f["outputDefinitions"] == j.fields["outputDefinitions"];
  }

  /** The (type, sourceType) pairs the input-configuration schema admits: all
      pairs except a binary constant and a binary prompt. */
  predicate AdmittedInputPair(dataType: string, sourceType: string) {
    && dataType in {StringTypeName, BinaryTypeName}
    && sourceType in {"constant", "activeFile", "prompt", "selectFile", "fixedFile"}
    && (dataType == BinaryTypeName ==> sourceType !in {"constant", "prompt"})
  }

  /** An accepted input configuration always carries one of the admitted pairs. */
  lemma InputConfigurationPairs(j: Json)
    requires IsInputConfiguration(j)
    ensures "type" in j.fields && "sourceType" in j.fields
    ensures j.fields["type"].JStr? && j.fields["sourceType"].JStr?
    ensures AdmittedInputPair(j.fields["type"].s, j.fields["sourceType"].s)
  {
  }

  /** A binary constant or binary prompt is rejected whatever its other fields. */
  lemma BinaryConstantOrPromptRejected(j: Json)
    requires j.JObj?
    requires ConstField(j.fields, "type", BinaryTypeName)
    requires ConstField(j.fields, "sourceType", "constant") || ConstField(j.fields, "sourceType", "prompt")
    ensures !IsInputConfiguration(j)
  {
  }

  /** An API response whose `errors` member holds a non-string item is rejected. */
  lemma ApiResponseErrorsMustBeStrings(j: Json, i: nat)
    requires j.JObj? && "errors" in j.fields && j.fields["errors"].JArr?
    requires i < |j.fields["errors"].items| && !j.fields["errors"].items[i].JStr?
    ensures !IsApiResponse(j)
  {
    assert !IsString(j.fields["errors"].items[i]);
  }
}
