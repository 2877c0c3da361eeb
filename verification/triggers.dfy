/** The file-open trigger engine of src/lib/trigger/onChange/triggers.ts: which
    events the configurations listen to, the listener registration, and the
    once-per-file-and-session firing with its session-long list of keys. */
module Triggers {
  import opened Wrappers
  import opened Json
  import opened Validation
  import opened Model

  const FileOpen := "fileOpen"
  const OncePerFileAndSession := "oncePerFileAndSession"

  /** The outcome of evaluating a trigger condition against the file's content. */
  datatype Condition = Met | NotMet | Throws

  /** `booleanFromConditionString`, taken as given: (condition, content) to outcome. */
  type ConditionEval = (string, string) -> Condition

  // ---------------------------------------------------------------- getListOfTriggerEvents

  /** Some configuration that has a triggers list has a file-open trigger in it. */
  predicate HasFileOpenTrigger(configs: seq<FlowConfiguration>) {
    exists i, j :: 0 <= i < |configs| && configs[i].triggers.Some? &&
      0 <= j < |configs[i].triggers.value| && configs[i].triggers.value[j].event == FileOpen
  }

  /** `getListOfTriggerEvents`: the events some trigger listens to, each mapped to true. */
  method GetListOfTriggerEvents(settings: Settings) returns (events: map<string, bool>)
    ensures events.Keys <= {FileOpen}
    ensures FileOpen in events <==> HasFileOpenTrigger(settings.flowConfigurations)
    ensures forall e :: e in events ==> events[e]
  {
    var configs := settings.flowConfigurations;
    events := map[];
    var i := 0;
    while i < |configs|
      invariant 0 <= i <= |configs|
      invariant events.Keys <= {FileOpen} && forall e :: e in events ==> events[e]
      invariant FileOpen in events <==> HasFileOpenTrigger(configs[..i])
    {
      assert forall k :: 0 <= k < i ==> configs[..i + 1][k] == configs[..i][k];
      if configs[i].triggers.Some? {
        var triggers := configs[i].triggers.value;
        var j := 0;
        while j < |triggers|
          invariant 0 <= j <= |triggers|
          invariant events.Keys <= {FileOpen} && forall e :: e in events ==> events[e]
          invariant FileOpen in events <==>
            HasFileOpenTrigger(configs[..i]) || exists k :: 0 <= k < j && triggers[k].event == FileOpen
        {
          if triggers[j].event == FileOpen {
            events := events[triggers[j].event := true];
          }
          j := j + 1;
        }
      }
      i := i + 1;
    }
    assert configs[..|configs|] == configs;
  }

  // ---------------------------------------------------------------- checkAndExecuteFileOpenTriggers

  /** The de-duplication key of a configuration's command and a file. */
  function TriggerKey(commandId: string, path: string): string {
    commandId + "______" + path
  }

  /** The outcome of the inner loop over one configuration's triggers: whether
      the configuration runs, and the key list afterwards. */
  datatype Scan = Scan(fire: bool, seen: seq<string>)

  /** The inner loop: a non-file-open event or an unmet condition stops it, a
      throwing condition moves on to the next trigger, a met condition fires
      unless the key was seen (and records the key first). */
  function ScanTriggers(key: string, triggers: seq<Trigger>, seen: seq<string>, content: string, eval: ConditionEval): Scan
    decreases |triggers|
  {
    if triggers == [] then Scan(false, seen)
    else
      var t := triggers[0];
      if t.event != FileOpen then Scan(false, seen)
      else match eval(t.condition, content)
        case Throws => ScanTriggers(key, triggers[1..], seen, content, eval)
        case NotMet => Scan(false, seen)
        case Met =>
          if t.frequency == OncePerFileAndSession then
            if key in seen then Scan(false, seen) else Scan(true, seen + [key])
          else Scan(true, seen)
  }

  /** What the outer loop has done so far: the indices of the configurations
      run, in order, and the key list. */
  datatype Run = Run(fired: seq<nat>, seen: seq<string>)

  /** One pass of the outer loop: configurations without triggers are skipped. */
  function ConfigStep(run: Run, config: FlowConfiguration, index: nat, path: string, content: string, eval: ConditionEval): Run {
    if config.triggers.None? then run
    else
      var scan := ScanTriggers(TriggerKey(config.command.id, path), config.triggers.value, run.seen, content, eval);
      Run(if scan.fire then run.fired + [index] else run.fired, scan.seen)
  }

  /** The outer loop over the first `n` configurations. */
  function RunUpTo(configs: seq<FlowConfiguration>, n: nat, seen: seq<string>, path: string, content: string, eval: ConditionEval): Run
    requires n <= |configs|
  {
    if n == 0 then Run([], seen)
    else ConfigStep(RunUpTo(configs, n - 1, seen, path, content, eval), configs[n - 1], n - 1, path, content, eval)
  }

  /** The engine's state: the session's list of keys that fired, and the
      settings each registered file-open listener was registered with. */
  class TriggerEngine {
    var seen: seq<string>
    var listeners: seq<Settings>

    constructor ()
      ensures seen == [] && listeners == []
    {
      seen := [];
      listeners := [];
    }

    /** `registerTriggers`: one listener when some configuration has a file-open
        trigger, none otherwise. */
    method RegisterTriggers(settings: Settings)
      modifies this
      ensures listeners == old(listeners) + (if HasFileOpenTrigger(settings.flowConfigurations) then [settings] else [])
      ensures seen == old(seen)
    {
      var events := GetListOfTriggerEvents(settings);
      if FileOpen in events && events[FileOpen] {
        listeners := listeners + [settings];
      }
    }

    /** `checkAndExecuteFileOpenTriggers` for the file at `path` with text
        `content`: returns the indices of the configurations it runs. */
    method CheckAndExecuteFileOpenTriggers(path: string, content: string, configs: seq<FlowConfiguration>, eval: ConditionEval)
      returns (fired: seq<nat>)
      modifies this
      ensures Run(fired, seen) == RunUpTo(configs, |configs|, old(seen), path, content, eval)
      ensures listeners == old(listeners)
    {
      fired := [];
      var i := 0;
      while i < |configs|
        invariant 0 <= i <= |configs|
        invariant Run(fired, seen) == RunUpTo(configs, i, old(seen), path, content, eval)
        invariant listeners == old(listeners)
      {
        var config := configs[i];
        if config.triggers.Some? {
          var triggers := config.triggers.value;
          var key := TriggerKey(config.command.id, path);
          ghost var seen0 := seen;
          var fire := false;
          var j := 0;
          while j < |triggers|
            invariant 0 <= j <= |triggers|
            invariant seen == seen0 && !fire
            invariant ScanTriggers(key, triggers[j..], seen0, content, eval) == ScanTriggers(key, triggers, seen0, content, eval)
          {
            var trigger := triggers[j];
            if trigger.event != FileOpen {
              break;
            }
            var condition := eval(trigger.condition, content);
            if condition.Throws? {
              assert triggers[j..][1..] == triggers[j + 1..];
              j := j + 1;
              continue;
            }
            if condition.NotMet? {
              break;
            }
            if trigger.frequency == OncePerFileAndSession {
              if key in seen {
                break;
              }
              seen := seen + [key];
            }
            fire := true;
            break;
          }
          assert Scan(fire, seen) == ScanTriggers(key, triggers, seen0, content, eval);
          if fire {
            fired := fired + [i];
          }
        }
        i := i + 1;
      }
    }
  }

  // ---------------------------------------------------------------- properties of the engine

  /** The key list only grows: what was seen stays seen, in place. */
  lemma {:induction false} ScanKeepsSeen(key: string, triggers: seq<Trigger>, seen: seq<string>, content: string, eval: ConditionEval)
    ensures var scan := ScanTriggers(key, triggers, seen, content, eval);
      |seen| <= |scan.seen| && scan.seen[..|seen|] == seen
    decreases |triggers|
  {
    if triggers != [] && triggers[0].event == FileOpen && eval(triggers[0].condition, content).Throws? {
      ScanKeepsSeen(key, triggers[1..], seen, content, eval);
    }
  }

  lemma {:induction false} RunKeepsSeen(configs: seq<FlowConfiguration>, n: nat, seen: seq<string>, path: string,
                                        content: string, eval: ConditionEval)
    requires n <= |configs|
    ensures var run := RunUpTo(configs, n, seen, path, content, eval);
      |seen| <= |run.seen| && run.seen[..|seen|] == seen
  {
    if n > 0 {
      var before := RunUpTo(configs, n - 1, seen, path, content, eval);
      RunKeepsSeen(configs, n - 1, seen, path, content, eval);
      var config := configs[n - 1];
      if config.triggers.Some? {
        ScanKeepsSeen(TriggerKey(config.command.id, path), config.triggers.value, before.seen, content, eval);
      }
    }
  }

  predicate StrictlyIncreasing(xs: seq<nat>) {
    forall a, b :: 0 <= a < b < |xs| ==> xs[a] < xs[b]
  }

  /** Each configuration runs at most once per event, in list order, and only
      when it has triggers. */
  lemma {:induction false} FiredOncePerConfiguration(configs: seq<FlowConfiguration>, n: nat, seen: seq<string>,
                                                     path: string, content: string, eval: ConditionEval)
    requires n <= |configs|
    ensures StrictlyIncreasing(RunUpTo(configs, n, seen, path, content, eval).fired)
    ensures forall a :: 0 <= a < |RunUpTo(configs, n, seen, path, content, eval).fired| ==>
      var i := RunUpTo(configs, n, seen, path, content, eval).fired[a];
      i < n && configs[i].triggers.Some?
  {
    if n > 0 {
      FiredOncePerConfiguration(configs, n - 1, seen, path, content, eval);
      var before := RunUpTo(configs, n - 1, seen, path, content, eval).fired;
      var after := RunUpTo(configs, n, seen, path, content, eval).fired;
      assert forall a :: 0 <= a < |before| ==> before[a] < n - 1;
      assert after == before || (after == before + [n - 1] && configs[n - 1].triggers.Some?);
    }
  }

  /** Throwing conditions are passed over: the scan continues after them. */
  lemma {:induction false} ThrowingTriggersSkipped(key: string, triggers: seq<Trigger>, seen: seq<string>, content: string,
                                                   eval: ConditionEval, j: nat)
    requires j <= |triggers|
    requires forall k :: 0 <= k < j ==> triggers[k].event == FileOpen && eval(triggers[k].condition, content).Throws?
    ensures ScanTriggers(key, triggers, seen, content, eval) == ScanTriggers(key, triggers[j..], seen, content, eval)
    decreases j
  {
    if j > 0 {
      ThrowingTriggersSkipped(key, triggers[1..], seen, content, eval, j - 1);
      assert triggers[1..][j - 1..] == triggers[j..];
    }
  }

  /** A trigger with another event, or whose condition is not met, ends the
      scan of its configuration: the triggers after it are never looked at. */
  lemma StopsAtUnmetOrForeignTrigger(key: string, triggers: seq<Trigger>, seen: seq<string>, content: string,
                                     eval: ConditionEval, j: nat)
    requires j < |triggers|
    requires forall k :: 0 <= k < j ==> triggers[k].event == FileOpen && eval(triggers[k].condition, content).Throws?
    requires triggers[j].event != FileOpen || eval(triggers[j].condition, content).NotMet?
    ensures ScanTriggers(key, triggers, seen, content, eval) == Scan(false, seen)
  {
    ThrowingTriggersSkipped(key, triggers, seen, content, eval, j);
  }

  /** The scan reaches a met condition: after any throwing ones, the first
      trigger that does not throw is a file-open trigger whose condition is met. */
  predicate ReachesMet(triggers: seq<Trigger>, content: string, eval: ConditionEval)
    decreases |triggers|
  {
    triggers != [] && triggers[0].event == FileOpen &&
    match eval(triggers[0].condition, content)
    case Throws => ReachesMet(triggers[1..], content, eval)
    case NotMet => false
    case Met => true
  }

  predicate AllOncePerFile(triggers: seq<Trigger>) {
    forall k :: 0 <= k < |triggers| ==> triggers[k].frequency == OncePerFileAndSession
  }

  /** For once-per-file triggers the scan fires exactly when it reaches a met
      condition and the key is new, and afterwards the key is always seen. */
  lemma {:induction false} ScanFiresOnce(key: string, triggers: seq<Trigger>, seen: seq<string>, content: string, eval: ConditionEval)
    requires AllOncePerFile(triggers)
    ensures var scan := ScanTriggers(key, triggers, seen, content, eval);
      && (scan.fire <==> ReachesMet(triggers, content, eval) && key !in seen)
      && (ReachesMet(triggers, content, eval) ==> key in scan.seen)
      && (!ReachesMet(triggers, content, eval) ==> scan.seen == seen)
    decreases |triggers|
  {
    if triggers != [] && triggers[0].event == FileOpen && eval(triggers[0].condition, content).Throws? {
      ScanFiresOnce(key, triggers[1..], seen, content, eval);
    }
  }

  /** Every configuration's triggers are once-per-file (as validation ensures). */
  predicate OncePerFileConfigs(configs: seq<FlowConfiguration>) {
    forall i :: 0 <= i < |configs| && configs[i].triggers.Some? ==> AllOncePerFile(configs[i].triggers.value)
  }

  /** After a run, the key of every configuration that reached a met condition is seen. */
  lemma {:induction false} RunRecordsKeys(configs: seq<FlowConfiguration>, n: nat, seen: seq<string>, path: string,
                                          content: string, eval: ConditionEval, m: nat)
    requires m < n <= |configs| && OncePerFileConfigs(configs)
    requires configs[m].triggers.Some? && ReachesMet(configs[m].triggers.value, content, eval)
    ensures TriggerKey(configs[m].command.id, path) in RunUpTo(configs, n, seen, path, content, eval).seen
    decreases n
  {
    if m < n - 1 {
      RunRecordsKeys(configs, n - 1, seen, path, content, eval, m);
      var before := RunUpTo(configs, n - 1, seen, path, content, eval);
      var config := configs[n - 1];
      if config.triggers.Some? {
        ScanKeepsSeen(TriggerKey(config.command.id, path), config.triggers.value, before.seen, content, eval);
        var after := RunUpTo(configs, n, seen, path, content, eval).seen;
        var k :| 0 <= k < |before.seen| && before.seen[k] == TriggerKey(configs[m].command.id, path);
        assert after[k] == before.seen[k];
      }
    } else {
      var before := RunUpTo(configs, m, seen, path, content, eval);
      ScanFiresOnce(TriggerKey(configs[m].command.id, path), configs[m].triggers.value, before.seen, content, eval);
    }
  }

  /** Opening the same file again in the same session, with the same content
      and conditions, runs nothing: each (configuration, file) pair fires at
      most once per session. */
  lemma {:induction false} SecondOpenFiresNothing(configs: seq<FlowConfiguration>, seen: seq<string>, path: string,
                                                  content: string, eval: ConditionEval, n: nat)
    requires n <= |configs| && OncePerFileConfigs(configs)
    ensures var first := RunUpTo(configs, |configs|, seen, path, content, eval);
      var second := RunUpTo(configs, n, first.seen, path, content, eval);
      second.fired == [] && |first.seen| <= |second.seen| && second.seen[..|first.seen|] == first.seen
    decreases n
  {
    var first := RunUpTo(configs, |configs|, seen, path, content, eval);
    RunKeepsSeen(configs, n, first.seen, path, content, eval);
    if n > 0 {
      SecondOpenFiresNothing(configs, seen, path, content, eval, n - 1);
      var before := RunUpTo(configs, n - 1, first.seen, path, content, eval);
      var config := configs[n - 1];
      if config.triggers.Some? {
        var key := TriggerKey(config.command.id, path);
        ScanFiresOnce(key, config.triggers.value, before.seen, content, eval);
        if ReachesMet(config.triggers.value, content, eval) {
          RunRecordsKeys(configs, |configs|, seen, path, content, eval, n - 1);
          var k :| 0 <= k < |first.seen| && first.seen[k] == key;
          assert before.seen[k] == key;
        }
      }
    }
  }

  /** Configuration `m` runs exactly when it has triggers, its scan reaches a
      met condition, and its key is not yet in the list the earlier
      configurations left. */
  lemma {:induction false} RunFiresExactly(configs: seq<FlowConfiguration>, n: nat, seen: seq<string>, path: string,
                                           content: string, eval: ConditionEval, m: nat)
    requires n <= |configs| && OncePerFileConfigs(configs)
    ensures m in RunUpTo(configs, n, seen, path, content, eval).fired <==>
      && m < n && configs[m].triggers.Some?
      && ReachesMet(configs[m].triggers.value, content, eval)
      && TriggerKey(configs[m].command.id, path) !in RunUpTo(configs, m, seen, path, content, eval).seen
    decreases n
  {
    if n > 0 {
      var before := RunUpTo(configs, n - 1, seen, path, content, eval);
      FiredOncePerConfiguration(configs, n - 1, seen, path, content, eval);
      assert n - 1 !in before.fired;
      if m < n - 1 {
        RunFiresExactly(configs, n - 1, seen, path, content, eval, m);
      } else if m == n - 1 && configs[m].triggers.Some? {
        ScanFiresOnce(TriggerKey(configs[m].command.id, path), configs[m].triggers.value, before.seen, content, eval);
      } else {
        FiredOncePerConfiguration(configs, n, seen, path, content, eval);
      }
    }
  }

  /** A scan adds at most its own key to the list. */
  lemma {:induction false} ScanAddsOnlyKey(key: string, triggers: seq<Trigger>, seen: seq<string>, content: string,
                                           eval: ConditionEval)
    ensures var scan := ScanTriggers(key, triggers, seen, content, eval);
      scan.seen == seen || scan.seen == seen + [key]
    decreases |triggers|
  {
    if triggers != [] && triggers[0].event == FileOpen && eval(triggers[0].condition, content).Throws? {
      ScanAddsOnlyKey(key, triggers[1..], seen, content, eval);
    }
  }

  /** Different files give different keys for the same command. */
  lemma KeysOfDifferentFiles(commandId: string, a: string, b: string)
    requires a != b
    ensures TriggerKey(commandId, a) != TriggerKey(commandId, b)
  {
    var prefix := commandId + "______";
    assert TriggerKey(commandId, a) == prefix + a && TriggerKey(commandId, b) == prefix + b;
    assert (prefix + a)[|prefix|..] == a && (prefix + b)[|prefix|..] == b;
  }

  /** Opening two different files whose contents meet a configuration's
      condition runs that configuration for each of them: the key records the
      file as well as the command. */
  lemma TwoFilesTwoRuns(c: FlowConfiguration, seen: seq<string>, a: string, contentA: string, b: string, contentB: string,
                        eval: ConditionEval)
    requires c.triggers.Some? && AllOncePerFile(c.triggers.value)
    requires ReachesMet(c.triggers.value, contentA, eval) && ReachesMet(c.triggers.value, contentB, eval)
    requires a != b && TriggerKey(c.command.id, a) !in seen && TriggerKey(c.command.id, b) !in seen
    ensures var first := RunUpTo([c], 1, seen, a, contentA, eval);
      first.fired == [0] && RunUpTo([c], 1, first.seen, b, contentB, eval).fired == [0]
  {
    var keyA, keyB := TriggerKey(c.command.id, a), TriggerKey(c.command.id, b);
    ScanFiresOnce(keyA, c.triggers.value, seen, contentA, eval);
    ScanAddsOnlyKey(keyA, c.triggers.value, seen, contentA, eval);
    KeysOfDifferentFiles(c.command.id, a, b);
    var first := RunUpTo([c], 1, seen, a, contentA, eval);
    assert [c][0] == c && RunUpTo([c], 0, seen, a, contentA, eval) == Run([], seen);
    assert first == ConfigStep(Run([], seen), c, 0, a, contentA, eval);
    assert first.seen == ScanTriggers(keyA, c.triggers.value, seen, contentA, eval).seen;
    assert keyB !in first.seen;
    ScanFiresOnce(keyB, c.triggers.value, first.seen, contentB, eval);
  }

  // ---------------------------------------------------------------- getDefaultTriggerForEvent

  /** `getDefaultTriggerForEvent`: an empty condition, the event, once per file
      and session; for the file-open event it is a valid trigger. */
  function GetDefaultTriggerForEvent(event: string): (t: Trigger)
    ensures t.condition == "" && t.event == event && t.frequency == OncePerFileAndSession
    ensures event == FileOpen ==> t.Valid() && DecodeTrigger(EncodeTrigger(t)) == Some(t)
  {
    var t := Trigger(event, "", OncePerFileAndSession);
    TriggerRoundTrip(t);
    t
  }
}
