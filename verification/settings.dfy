/** The settings store of src/lib/settings.ts: the module-level `settings`
    singleton in front of the plugin's persisted data, and the operations that
    read, update and apply it. Deep copies (`JSON.parse(JSON.stringify(..))`)
    are Dafny's value semantics: a returned `Settings` cannot alias the store. */
module SettingsStore {
  import opened Wrappers
  import opened Json
  import opened Validation
  import opened Model
  import opened Commands

  const DefaultBaseUrl := "https://app.taskbone.com"

  /** `getDefaultSettings` for a plugin whose manifest version is `version`. */
  function DefaultSettings(version: string): (s: Settings)
    ensures s.version == version && s.baseUrl == DefaultBaseUrl
    ensures s.flowConfigurations == [] && s.flowDefinitions == [] && s.apiKey.None?
    ensures IsSettings(EncodeSettings(s)) && DecodeSettings(EncodeSettings(s)) == Some(s)
  {
    var s := Settings(None, DefaultBaseUrl, version, [], []);
    SettingsRoundTrip(s);
    s
  }

  /** The singleton (`None` until set) and the data the plugin persisted
      (`JNull` when there is none). */
  datatype StoreState = StoreState(cached: Option<Settings>, data: Json)

  /** What `getSettings` returns, with the store state it leaves. */
  datatype Loaded = Loaded(settings: Settings, state: StoreState)

  /** `getSettings`: the singleton when set; otherwise the persisted data, or the
      defaults when that is falsy, cached when it validates; data that does not
      validate gives the defaults and leaves the singleton unset. */
  function Load(st: StoreState, version: string): (r: Loaded)
    ensures r.state.data == st.data
    ensures st.cached.Some? ==> r == Loaded(st.cached.value, st)
    ensures st.cached.None? && !Truthy(st.data) ==>
      r.settings == DefaultSettings(version) && r.state.cached == Some(r.settings)
    ensures st.cached.None? && Truthy(st.data) && IsSettings(st.data) ==>
      DecodeSettings(st.data) == Some(r.settings) && r.state.cached == Some(r.settings)
    ensures st.cached.None? && Truthy(st.data) && !IsSettings(st.data) ==>
      r.settings == DefaultSettings(version) && r.state == st
    ensures st.cached.None? ==> r.settings.Valid()
  {
    if st.cached.Some? then Loaded(st.cached.value, st)
    else
      var data := if Truthy(st.data) then st.data else EncodeSettings(DefaultSettings(version));
      match DecodeSettings(data)
      case Some(s) => Loaded(s, st.(cached := Some(s)))
      case None => Loaded(DefaultSettings(version), st)
  }

  /** `saveSettings`: the singleton becomes `s` and `plugin.saveData` persists
      it; the deep copy taken first is Dafny's value semantics. */
  function Save(st: StoreState, s: Settings): StoreState {
    StoreState(Some(s), EncodeSettings(s))
  }

  /** After a save, the next `getSettings` returns the saved value. */
  lemma SaveThenLoad(st: StoreState, s: Settings, version: string)
    ensures Load(Save(st, s), version).settings == s
    ensures Load(Save(st, s), version).state == Save(st, s)
  {
  }

  /** Valid saved settings also come back from the persisted data alone, as
      after a restart that empties the singleton. */
  lemma SavedSettingsSurviveRestart(st: StoreState, s: Settings, version: string)
    requires s.Valid()
    ensures Load(StoreState(None, Save(st, s).data), version).settings == s
  {
    var data := EncodeSettings(s);
    assert Save(st, s).data == data;
    SettingsRoundTrip(s);
    assert data.JObj? && Truthy(data);
    assert IsSettings(data);
  }

  /** `updateAndSaveConfiguration`'s list update: the first configuration with
      the same command id is replaced; without one the list is unchanged. */
  function ReplaceById(configs: seq<FlowConfiguration>, c: FlowConfiguration): (r: seq<FlowConfiguration>)
    ensures |r| == |configs|
    ensures (forall j :: 0 <= j < |configs| ==> configs[j].command.id != c.command.id) ==> r == configs
    ensures forall j :: 0 <= j < |configs| && r[j] != configs[j] ==>
      r[j] == c && configs[j].command.id == c.command.id &&
      forall k :: 0 <= k < j ==> configs[k].command.id != c.command.id
    ensures (exists j :: 0 <= j < |configs| && configs[j].command.id == c.command.id) ==> c in r
    ensures forall i ::
      (0 <= i < |configs| && configs[i].command.id == c.command.id &&
       forall k :: 0 <= k < i ==> configs[k].command.id != c.command.id) ==> r[i] == c
  {
    match FindConfiguration(configs, c.command.id)
    case None => configs
    case Some(i) => configs[i := c]
  }

  /** Replacing a configuration by a valid one keeps the list valid. */
  lemma ReplaceByIdKeepsValid(settings: Settings, c: FlowConfiguration)
    requires settings.Valid() && c.Valid()
    ensures settings.(flowConfigurations := ReplaceById(settings.flowConfigurations, c)).Valid()
  {
    var r := ReplaceById(settings.flowConfigurations, c);
    forall j | 0 <= j < |r| ensures r[j].Valid() {
      if r[j] != settings.flowConfigurations[j] {
        assert r[j] == c;
      }
    }
  }

  /** The commands of the configurations, in order. */
  function CommandsOf(configs: seq<FlowConfiguration>): (cs: seq<Command>)
    ensures |cs| == |configs| && forall i :: 0 <= i < |configs| ==> cs[i] == configs[i].command
  {
    seq(|configs|, i requires 0 <= i < |configs| => configs[i].command)
  }

  /** `applySettings`: removes every command of the plugin, then registers one
      per configuration, in list order. */
  method ApplySettings(settings: Settings, registry: Registry, pluginId: string)
    modifies registry
    ensures registry.commands == RegisterEach(WithoutPlugin(old(registry.commands), pluginId), pluginId, CommandsOf(settings.flowConfigurations))
    ensures registry.added == old(registry.added) + CommandsOf(settings.flowConfigurations)
  {
    registry.UnregisterAll(pluginId);
    registry.RegisterAll(CommandsOf(settings.flowConfigurations), pluginId);
  }

  /** After `applySettings` the plugin's commands are exactly those of the
      configurations: every configuration's command is registered and no other
      command of the plugin is left. */
  lemma AppliedCommandsMatchConfigurations(registered: map<string, Command>, pluginId: string, configs: seq<FlowConfiguration>)
    ensures var applied := RegisterEach(WithoutPlugin(registered, pluginId), pluginId, CommandsOf(configs));
      && (forall i :: 0 <= i < |configs| ==> Prefixed(pluginId, configs[i].command.id) in applied)
      && (forall key :: key in applied && OwnedBy(pluginId, key) ==>
            exists i :: 0 <= i < |configs| && key == Prefixed(pluginId, configs[i].command.id))
  {
    var cs := CommandsOf(configs);
    var applied := RegisterEach(WithoutPlugin(registered, pluginId), pluginId, cs);
    RegisterEachKeys(WithoutPlugin(registered, pluginId), pluginId, cs);
    forall i | 0 <= i < |configs| ensures Prefixed(pluginId, configs[i].command.id) in applied {
      assert cs[i] in cs;
    }
    forall key | key in applied && OwnedBy(pluginId, key)
      ensures exists i :: 0 <= i < |configs| && key == Prefixed(pluginId, configs[i].command.id)
    {
      assert key !in WithoutPlugin(registered, pluginId);
      var c :| c in cs && key == Prefixed(pluginId, c.id);
      var i :| 0 <= i < |cs| && cs[i] == c;
    }
  }

  /** What `getApiKey` yields: the stored key, or a connection is needed (the
      connection dialog itself is not modelled). */
  datatype ApiKeyLookup = StoredKey(key: string) | ConnectionNeeded

  /** The store: the singleton, the persisted data, and the manifest version
      the defaults carry. */
  class Store {
    var cached: Option<Settings>
    var data: Json
    const version: string

    constructor (version: string, data: Json)
      ensures State() == StoreState(None, data) && this.version == version
    {
      this.version := version;
      this.data := data;
      cached := None;
    }

    function State(): StoreState
      reads this
    {
      StoreState(cached, data)
    }

    /** `getSettings`. */
    method GetSettings() returns (s: Settings)
      modifies this
      ensures Loaded(s, State()) == Load(old(State()), version)
    {
      if cached.None? {
        var loaded := data;
        if !Truthy(loaded) {
          loaded := EncodeSettings(DefaultSettings(version));
        }
        var decoded := DecodeSettings(loaded);
        if decoded.Some? {
          cached := decoded;
        } else {
          return DefaultSettings(version);
        }
      }
      s := cached.value;
    }

    /** `saveSettings`. */
    method SaveSettings(s: Settings)
      modifies this
      ensures State() == Save(old(State()), s)
    {
      cached := Some(s);
      data := EncodeSettings(s);
    }

    /** `updateApiKey`: the loaded settings with the new key, every other field
      unchanged, saved. */
    method UpdateApiKey(newKey: string)
      modifies this
      ensures var loaded := Load(old(State()), version);
        State() == Save(loaded.state, loaded.settings.(apiKey := Some(newKey)))
      ensures cached.Some? && cached.value.apiKey == Some(newKey)
    {
      var s := GetSettings();
      s := s.(apiKey := Some(newKey));
      SaveSettings(s);
    }

    /** `getApiKey`: a non-empty stored key is returned as is. */
    method GetApiKey() returns (r: ApiKeyLookup)
      modifies this
      ensures var loaded := Load(old(State()), version);
        && State() == loaded.state
        && (r.StoredKey? <==> loaded.settings.apiKey.Some? && loaded.settings.apiKey.value != "")
        && (r.StoredKey? ==> loaded.settings.apiKey == Some(r.key))
    {
      var s := GetSettings();
      if s.apiKey.Some? && s.apiKey.value != "" {
        r := StoredKey(s.apiKey.value);
      } else {
        r := ConnectionNeeded;
      }
    }

    /** `updateAndSaveConfiguration`: replaces the stored configuration with the
        same command id, saves, and applies the settings to the registry. */
    method UpdateAndSaveConfiguration(registry: Registry, pluginId: string, configuration: FlowConfiguration)
      modifies this, registry
      ensures var loaded := Load(old(State()), version);
        var saved := loaded.settings.(flowConfigurations := ReplaceById(loaded.settings.flowConfigurations, configuration));
        && State() == Save(loaded.state, saved)
        && registry.commands == RegisterEach(WithoutPlugin(old(registry.commands), pluginId), pluginId, CommandsOf(saved.flowConfigurations))
        && registry.added == old(registry.added) + CommandsOf(saved.flowConfigurations)
    {
      var s := GetSettings();
      s := s.(flowConfigurations := ReplaceById(s.flowConfigurations, configuration));
      SaveSettings(s);
      ApplySettings(s, registry, pluginId);
    }
  }
}
