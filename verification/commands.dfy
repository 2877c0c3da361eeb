/** The host's command registry as seen by src/lib/commands.ts: registering
    the configurations' commands, removing them, and picking the configuration
    a command runs. */
module Commands {
  import opened Wrappers
  import opened Model

  /** The id the host gives a plugin's command: `pluginId:id`. */
  function Prefixed(pluginId: string, id: string): string {
    pluginId + ":" + id
  }

  /** A command id the plugin `pluginId` registered: it starts with `pluginId:`. */
  predicate OwnedBy(pluginId: string, fullId: string) {
    pluginId + ":" <= fullId
  }

  /** The registry without the commands of `pluginId`. */
  function WithoutPlugin(commands: map<string, Command>, pluginId: string): map<string, Command> {
    map id | id in commands && !OwnedBy(pluginId, id) :: commands[id]
  }

  /** Every command registered for `pluginId` is removed. */
  lemma PluginCommandsRemoved(commands: map<string, Command>, pluginId: string, id: string)
    ensures Prefixed(pluginId, id) !in WithoutPlugin(commands, pluginId)
  {
    assert (pluginId + ":" + id)[..|pluginId| + 1] == pluginId + ":";
  }

  /** The commands of another plugin survive, provided plugin ids hold no ':'. */
  lemma OtherPluginsUntouched(commands: map<string, Command>, pluginId: string, other: string, id: string)
    requires ':' !in pluginId && ':' !in other && other != pluginId
    requires Prefixed(other, id) in commands
    ensures Prefixed(other, id) in WithoutPlugin(commands, pluginId)
    ensures WithoutPlugin(commands, pluginId)[Prefixed(other, id)] == commands[Prefixed(other, id)]
  {
    var full := Prefixed(other, id);
    var head := pluginId + ":";
    if |pluginId| < |other| {
      assert full[|pluginId|] == other[|pluginId|] != ':' == head[|pluginId|];
    } else if |pluginId| > |other| {
      assert full[|other|] == ':' != pluginId[|other|] == head[|other|];
    } else {
      var k :| 0 <= k < |other| && other[k] != pluginId[k];
      assert full[k] == other[k] != pluginId[k] == head[k];
    }
  }

  lemma PrefixedInjective(pluginId: string, a: string, b: string)
    requires Prefixed(pluginId, a) == Prefixed(pluginId, b)
    ensures a == b
  {
    assert a == Prefixed(pluginId, a)[|pluginId| + 1..];
    assert b == Prefixed(pluginId, b)[|pluginId| + 1..];
  }

  /** The registry after `registerAll`: each command put under its prefixed id, in order. */
  function RegisterEach(commands: map<string, Command>, pluginId: string, cs: seq<Command>): map<string, Command>
    decreases |cs|
  {
    if cs == [] then commands
    else RegisterEach(commands[Prefixed(pluginId, cs[0].id) := cs[0]], pluginId, cs[1..])
  }

  /** After `registerAll` the registry holds exactly the old ids plus one per given command. */
  lemma {:induction false} RegisterEachKeys(commands: map<string, Command>, pluginId: string, cs: seq<Command>)
    ensures RegisterEach(commands, pluginId, cs).Keys == commands.Keys + set c | c in cs :: Prefixed(pluginId, c.id)
    decreases |cs|
  {
    if cs != [] {
      RegisterEachKeys(commands[Prefixed(pluginId, cs[0].id) := cs[0]], pluginId, cs[1..]);
      assert forall c :: c in cs <==> c == cs[0] || c in cs[1..];
    }
  }

  /** With distinct command ids, each prefixed id names its own command. */
  lemma {:induction false} RegisterEachDistinct(commands: map<string, Command>, pluginId: string, cs: seq<Command>, i: nat)
    requires i < |cs|
    requires forall a, b :: 0 <= a < b < |cs| ==> cs[a].id != cs[b].id
    ensures Prefixed(pluginId, cs[i].id) in RegisterEach(commands, pluginId, cs)
    ensures RegisterEach(commands, pluginId, cs)[Prefixed(pluginId, cs[i].id)] == cs[i]
    decreases |cs|
  {
    var next := commands[Prefixed(pluginId, cs[0].id) := cs[0]];
    if i == 0 {
      forall c | c in cs[1..]
        ensures Prefixed(pluginId, c.id) != Prefixed(pluginId, cs[0].id)
      {
        var k :| 0 <= k < |cs[1..]| && cs[1..][k] == c;
        assert cs[k + 1] == c;
        if Prefixed(pluginId, c.id) == Prefixed(pluginId, cs[0].id) {
          PrefixedInjective(pluginId, c.id, cs[0].id);
        }
      }
      RegisterEachKeep(next, pluginId, cs[1..], Prefixed(pluginId, cs[0].id));
    } else {
      RegisterEachDistinct(next, pluginId, cs[1..], i - 1);
    }
  }

  /** A key that none of the commands registers keeps its entry. */
  lemma {:induction false} RegisterEachKeep(commands: map<string, Command>, pluginId: string, cs: seq<Command>, key: string)
    requires key in commands
    requires forall c :: c in cs ==> Prefixed(pluginId, c.id) != key
    ensures key in RegisterEach(commands, pluginId, cs) && RegisterEach(commands, pluginId, cs)[key] == commands[key]
    decreases |cs|
  {
    if cs != [] {
      RegisterEachKeep(commands[Prefixed(pluginId, cs[0].id) := cs[0]], pluginId, cs[1..], key);
    }
  }

  /** The host's command registry: the commands by full id, and every
      `addCommand` call made, in order. */
  class Registry {
    var commands: map<string, Command>
    var added: seq<Command>

    constructor (commands: map<string, Command>)
      ensures this.commands == commands && added == []
    {
      this.commands := commands;
      added := [];
    }

    /** `unregister`: removes `pluginId:id` when it is registered. */
    method Unregister(id: string, pluginId: string)
      modifies this
      ensures commands == old(commands) - {Prefixed(pluginId, id)}
      ensures Prefixed(pluginId, id) !in old(commands) ==> commands == old(commands)
      ensures added == old(added)
    {
      var commandId := Prefixed(pluginId, id);
      if commandId in commands {
        commands := commands - {commandId};
      }
    }

    /** `unregisterAll`: goes through the listed commands and removes those whose
        id starts with `pluginId:`. */
    method UnregisterAll(pluginId: string)
      modifies this
      ensures commands == WithoutPlugin(old(commands), pluginId)
      ensures added == old(added)
    {
      ghost var original := commands;
      var listed := commands.Keys;
      while listed != {}
        invariant listed <= original.Keys
        invariant commands == map id | id in original && (id in listed || !OwnedBy(pluginId, id)) :: original[id]
        invariant added == old(added)
        decreases listed
      {
        var id :| id in listed;
        if OwnedBy(pluginId, id) {
          commands := commands - {id};
        }
        listed := listed - {id};
      }
    }

    /** `register`: adds the command under `pluginId:id`. */
    method Register(command: Command, pluginId: string)
      modifies this
      ensures commands == old(commands)[Prefixed(pluginId, command.id) := command]
      ensures added == old(added) + [command]
    {
      commands := commands[Prefixed(pluginId, command.id) := command];
      added := added + [command];
    }

    /** `registerAll`: registers each command once, in list order. */
    method RegisterAll(cs: seq<Command>, pluginId: string)
      modifies this
      ensures commands == RegisterEach(old(commands), pluginId, cs)
      ensures added == old(added) + cs
    {
      var i := 0;
      while i < |cs|
        invariant 0 <= i <= |cs|
        invariant RegisterEach(commands, pluginId, cs[i..]) == RegisterEach(old(commands), pluginId, cs)
        invariant added == old(added) + cs[..i]
      {
        assert cs[i..][1..] == cs[i + 1..];
        Register(cs[i], pluginId);
        assert cs[..i + 1] == cs[..i] + [cs[i]];
        i := i + 1;
      }
      assert cs[..|cs|] == cs;
    }
  }

  /** The configuration `execute` runs: the first whose command id matches. */
  function FindConfiguration(configs: seq<FlowConfiguration>, id: string): (r: Option<nat>)
    ensures r.Some? ==> r.value < |configs| && configs[r.value].command.id == id
    ensures r.Some? ==> forall j :: 0 <= j < r.value ==> configs[j].command.id != id
    ensures r.None? <==> forall j :: 0 <= j < |configs| ==> configs[j].command.id != id
    decreases |configs|
  {
    if configs == [] then None
    else if configs[0].command.id == id then Some(0)
    else match FindConfiguration(configs[1..], id)
      case None => None
      case Some(k) => Some(k + 1)
  }

  /** `execute` for a command given the current settings: the configuration it
      hands to `executeFlowConfiguration`, or none. */
  method Execute(id: string, settings: Settings) returns (run: Option<FlowConfiguration>)
    ensures run.Some? <==> exists j :: 0 <= j < |settings.flowConfigurations| && settings.flowConfigurations[j].command.id == id
    ensures run.Some? ==> run.value.command.id == id && run.value in settings.flowConfigurations
    ensures run.Some? ==>
      exists j :: 0 <= j < |settings.flowConfigurations| && settings.flowConfigurations[j] == run.value &&
        (forall k :: 0 <= k < j ==> settings.flowConfigurations[k].command.id != id)
  {
    match FindConfiguration(settings.flowConfigurations, id)
    case None => run := None;
    case Some(j) => run := Some(settings.flowConfigurations[j]);
  }
}
