/** The default result action for an action name (src/lib/actions.ts). */
module Actions {
  import opened Wrappers
  import opened Json
  import opened Validation
  import opened Model

  /** `getDefaultForAction`: the named action with raw output and, for the two
      file actions, an empty file path; an unknown name falls back to `log`. */
  function GetDefaultForAction(action: string): (a: Action)
    ensures a.source == Raw
    ensures action in PlainActionNames + FileActionNames ==> ActionName(a.kind) == action
    ensures action !in PlainActionNames + FileActionNames ==> a.kind == Log
    ensures a.kind.CreateOrReplaceFile? || a.kind.CreateOrAppendFile? ==> a.kind.filePath == ""
    ensures IsAction(EncodeAction(a))
    ensures DecodeAction(EncodeAction(a)) == Some(a)
  {
    var a :=
      if action == "createOrAppendFile" then Action(CreateOrAppendFile(""), Raw)
      else if action == "createOrReplaceFile" then Action(CreateOrReplaceFile(""), Raw)
      else if action == "insertAtCursorPosition" then Action(InsertAtCursorPosition, Raw)
      else if action == "replaceActiveFile" then Action(ReplaceActiveFile, Raw)
      else if action == "popup" then Action(Popup, Raw)
      else if action == "log" then Action(Log, Raw)
      else Action(Log, Raw);
    ActionRoundTrip(a);
    a
  }
}
