/** The legacy image-annotation plugin of main.ts: its settings with their
    defaults, the command's gating, which images still need an annotation page,
    the picker's filtering, and the annotation page it writes. */
module OcrPlugin {
  import opened Wrappers
  import opened Json

  // ---------------------------------------------------------------- settings

  /** `DEFAULT_SETTINGS`: terms not accepted, no personal token. */
  const DefaultSettings: map<string, Json> := map["termsAccepted" := JBool(false), "isPremium" := JBool(false)]

  /** `loadSettings`: `Object.assign({}, DEFAULT_SETTINGS, data)`, where a stored
      field overrides the default of the same name. */
  function LoadSettings(data: Json): (s: map<string, Json>)
    ensures "termsAccepted" in s && "isPremium" in s
    ensures data.JObj? ==> forall k :: k in data.fields ==> k in s && s[k] == data.fields[k]
    ensures forall k :: k in s && !(data.JObj? && k in data.fields) ==> k in DefaultSettings && s[k] == DefaultSettings[k]
    ensures !data.JObj? ==> !Flag(s, "termsAccepted") && !Flag(s, "isPremium")
  {
    if data.JObj? then DefaultSettings + data.fields else DefaultSettings
  }

  /** A setting read the way an `if` reads it: present and truthy. */
  predicate Flag(s: map<string, Json>, key: string) {
    key in s && Truthy(s[key])
  }

  /** The token `getTextForFile` sends: the personal token in premium mode, the
      standard one otherwise (`None` when the field is missing). */
  function SelectToken(s: map<string, Json>): (token: Option<Json>)
    ensures Flag(s, "isPremium") ==> token == (if "premiumToken" in s then Some(s["premiumToken"]) else None)
    ensures !Flag(s, "isPremium") ==> token == (if "standardToken" in s then Some(s["standardToken"]) else None)
  {
    var key := if Flag(s, "isPremium") then "premiumToken" else "standardToken";
    if key in s then Some(s[key]) else None
  }

  // ---------------------------------------------------------------- images without annotation

  /** A file of the vault: its path and its extension. */
  datatype VaultEntry = VaultEntry(path: string, extension: string)

  const AnnotationSuffix := ".annotations.md"

  /** The extensions the command handles, compared case-sensitively. */
  predicate IsImage(extension: string) {
    extension in ["png", "jpg", "jpeg"]
  }

  /** `getMarkdownFiles` mapped to paths: the markdown files, in vault order. */
  function MarkdownPaths(files: seq<VaultEntry>): (paths: seq<string>)
    ensures forall p :: p in paths <==> exists i :: 0 <= i < |files| && files[i].extension == "md" && files[i].path == p
    decreases |files|
  {
    if files == [] then []
    else
      var rest := MarkdownPaths(files[1..]);
      assert forall i :: 1 <= i < |files| ==> files[i] == files[1..][i - 1];
      if files[0].extension == "md" then [files[0].path] + rest else rest
  }

  /** `xs` is `ys` with some elements left out, the rest in order. */
  predicate SubsequenceOf<T(==)>(xs: seq<T>, ys: seq<T>)
    decreases |ys|
  {
    xs == [] || (ys != [] && ((xs[0] == ys[0] && SubsequenceOf(xs[1..], ys[1..])) || SubsequenceOf(xs, ys[1..])))
  }

  /** The paths of the files, in vault order. */
  function PathsOf(files: seq<VaultEntry>): (paths: seq<string>)
    ensures |paths| == |files| && forall i :: 0 <= i < |files| ==> paths[i] == files[i].path
  {
    seq(|files|, i requires 0 <= i < |files| => files[i].path)
  }

  /** An image whose annotation page is not among the markdown paths. */
  predicate NeedsAnnotation(file: VaultEntry, markdown: seq<string>) {
    IsImage(file.extension) && file.path + AnnotationSuffix !in markdown
  }

  /** The filter and map of `getNotAnnotatedImagePaths` over `files`, against the
      vault's markdown paths. */
  function ImagesWithoutAnnotation(files: seq<VaultEntry>, markdown: seq<string>): (paths: seq<string>)
    ensures forall p :: p in paths <==> exists i :: 0 <= i < |files| && files[i].path == p && NeedsAnnotation(files[i], markdown)
    ensures SubsequenceOf(paths, PathsOf(files))
    decreases |files|
  {
    if files == [] then []
    else
      var rest := ImagesWithoutAnnotation(files[1..], markdown);
      assert PathsOf(files)[1..] == PathsOf(files[1..]);
      assert forall i :: 1 <= i < |files| ==> files[i] == files[1..][i - 1];
      if NeedsAnnotation(files[0], markdown) then [files[0].path] + rest else rest
  }

  /** `getNotAnnotatedImagePaths`: the vault's png, jpg and jpeg files without a
      `<path>.annotations.md` page, as paths in vault order. */
  function GetNotAnnotatedImagePaths(files: seq<VaultEntry>): (paths: seq<string>)
    ensures forall p :: p in paths <==>
      exists i :: 0 <= i < |files| && files[i].path == p && IsImage(files[i].extension) &&
        !(exists j :: 0 <= j < |files| && files[j].extension == "md" && files[j].path == p + AnnotationSuffix)
    ensures SubsequenceOf(paths, PathsOf(files))
  {
    ImagesWithoutAnnotation(files, MarkdownPaths(files))
  }

  // ---------------------------------------------------------------- the picker

  /** `query` occurs in `s` starting at index `i`. */
  predicate OccursAt(s: string, query: string, i: int) {
    0 <= i && i + |query| <= |s| && s[i..i + |query|] == query
  }

  /** `path.contains(query)`. */
  predicate Contains(s: string, query: string) {
    exists i | 0 <= i <= |s| - |query| :: OccursAt(s, query, i)
  }

  /** The paths containing `query`, in order. */
  function Matching(paths: seq<string>, query: string): (r: seq<string>)
    ensures forall p :: p in r <==> p in paths && Contains(p, query)
    ensures SubsequenceOf(r, paths)
    decreases |paths|
  {
    if paths == [] then []
    else
      var rest := Matching(paths[1..], query);
      if Contains(paths[0], query) then [paths[0]] + rest else rest
  }

  /** `getSuggestions`: every candidate for an empty query, otherwise exactly the
      candidates that contain the query, in order. */
  function GetSuggestions(files: seq<VaultEntry>, query: string): (r: seq<string>)
    ensures query == [] ==> r == GetNotAnnotatedImagePaths(files)
    ensures forall p :: p in r <==> p in GetNotAnnotatedImagePaths(files) && Contains(p, query)
    ensures SubsequenceOf(r, GetNotAnnotatedImagePaths(files))
  {
    var imagePaths := GetNotAnnotatedImagePaths(files);
    if |query| == 0 then
      SubsequenceOfSelf(imagePaths);
      assert forall p :: Contains(p, query) by {
        forall p ensures Contains(p, query) { assert OccursAt(p, query, 0); }
      }
      imagePaths
    else Matching(imagePaths, query)
  }

  lemma {:induction false} SubsequenceOfSelf<T>(xs: seq<T>)
    ensures SubsequenceOf(xs, xs)
    decreases |xs|
  {
    if xs != [] {
      SubsequenceOfSelf(xs[1..]);
    }
  }

  // ---------------------------------------------------------------- the annotation page

  /** What `getTextForFile` hands back: the recognised text (`""` when the
      answer has none), or nothing after an error status or a failed request. */
  datatype OcrAnswer = OcrResponded(status: nat, text: Option<string>) | OcrFailed

  function TextFromAnswer(answer: OcrAnswer): (text: Option<string>)
    ensures text.Some? <==> answer.OcrResponded? && answer.status == 200
    ensures text.Some? ==> text.value == (if answer.text.Some? then answer.text.value else "")
  {
    match answer
    case OcrResponded(status, text) =>
      if status == 200 then Some(if text.Some? && text.value != "" then text.value else "") else None
    case OcrFailed => None
  }

  /** What `createAnnotationFileForFile` does with the text it got. */
  datatype AnnotationStep = NoAction | NoTextFound(message: string) | CreatePage(path: string, content: string)

  function AnnotationPath(path: string): string {
    path + AnnotationSuffix
  }

  function AnnotationContent(path: string, text: string): string {
    "![[" + path + "]]\n\n" + text
  }

  /** `createAnnotationFileForFile` as written: a missing or empty text returns
      early, so the "No text found" branch is never taken. */
  function AnnotationStepAsWritten(path: string, text: Option<string>): (step: AnnotationStep)
    ensures step.CreatePage? <==> text.Some? && text.value != ""
    ensures step.CreatePage? ==> step.path == AnnotationPath(path) && step.content == AnnotationContent(path, text.value)
  {
    if text.None? || text.value == "" then NoAction
    else if |text.value| == 0 then NoTextFound("No text found in " + path)
    else CreatePage(AnnotationPath(path), AnnotationContent(path, text.value))
  }

  /** No input reaches the "No text found" message. */
  lemma NoTextFoundUnreachable(path: string, text: Option<string>)
    ensures !AnnotationStepAsWritten(path, text).NoTextFound?
  {
  }

  /** The evident intent: an empty text reports "No text found"; a missing text
      (already reported by `getTextForFile`) does nothing. */
  function AnnotationStepIntended(path: string, text: Option<string>): (step: AnnotationStep)
    ensures step.NoAction? <==> text.None?
    ensures step.NoTextFound? <==> text == Some("")
    ensures step.NoTextFound? ==> step.message == "No text found in " + path
    ensures step.CreatePage? ==> step.path == AnnotationPath(path) && step.content == AnnotationContent(path, text.value)
    ensures step.CreatePage? == AnnotationStepAsWritten(path, text).CreatePage?
  {
    if text.None? then NoAction
    else if |text.value| == 0 then NoTextFound("No text found in " + path)
    else CreatePage(AnnotationPath(path), AnnotationContent(path, text.value))
  }

  /** Different images have different annotation pages. */
  lemma AnnotationPathsDiffer(p: string, q: string)
    requires p != q
    ensures AnnotationPath(p) != AnnotationPath(q)
  {
    if |p| == |q| {
      assert AnnotationPath(p)[..|p|] == p && AnnotationPath(q)[..|q|] == q;
    }
  }

  /** Writing the annotation page of `p` takes `p` off the list the command
      offers, and leaves every other path on it or off it as before. */
  lemma PageRemovesImageFromList(files: seq<VaultEntry>, p: string)
    ensures var after := GetNotAnnotatedImagePaths(files + [VaultEntry(AnnotationPath(p), "md")]);
      && p !in after
      && forall q :: q != p ==> (q in after <==> q in GetNotAnnotatedImagePaths(files))
  {
    var page := VaultEntry(AnnotationPath(p), "md");
    var extended := files + [page];
    assert extended[|files|] == page;
    forall q | q != p
      ensures q in GetNotAnnotatedImagePaths(extended) <==> q in GetNotAnnotatedImagePaths(files)
    {
      AnnotationPathsDiffer(q, p);
      assert forall i :: 0 <= i < |files| ==> extended[i] == files[i];
    }
  }

  // ---------------------------------------------------------------- the command

  /** The token request's answer: the status and the `token` of the JSON body
      (`None` when it has none). */
  datatype TokenAnswer = TokenAnswer(status: nat, token: Option<Json>)

  /** How the command ends. */
  datatype CommandOutcome =
    | TermsNotAccepted
    | TokenRequestFailed(status: nat)
    | PremiumTokenMissing
    | AllAnnotated
    | OpenSelector(images: seq<string>)

  /** The plugin's settings object and what it last saved. */
  class Plugin {
    var settings: map<string, Json>
    var saved: Json

    constructor (data: Json)
      ensures settings == LoadSettings(data) && saved == data
    {
      settings := LoadSettings(data);
      saved := data;
    }

    /** The command's callback: refuses without accepted terms, fetches a
        standard token when none is stored (saving it on a 200 answer), refuses
        premium mode without a personal token, then opens the picker when some
        image lacks an annotation page. */
    method RunCommand(files: seq<VaultEntry>, tokenAnswer: TokenAnswer) returns (outcome: CommandOutcome)
      modifies this
      ensures outcome.TermsNotAccepted? <==> !Flag(old(settings), "termsAccepted")
      ensures outcome.PremiumTokenMissing? <==>
        Flag(old(settings), "termsAccepted") && Flag(old(settings), "isPremium") && !Flag(old(settings), "premiumToken")
      ensures outcome.TokenRequestFailed? <==>
        && Flag(old(settings), "termsAccepted") && !Flag(old(settings), "isPremium") && !Flag(old(settings), "standardToken")
        && tokenAnswer.status != 200
      ensures outcome.TokenRequestFailed? ==> outcome.status == tokenAnswer.status
      ensures outcome.OpenSelector? ==> outcome.images == GetNotAnnotatedImagePaths(files) && outcome.images != []
      ensures outcome.AllAnnotated? ==> GetNotAnnotatedImagePaths(files) == []
      ensures var fetched := Flag(old(settings), "termsAccepted") && !Flag(old(settings), "isPremium") &&
                             !Flag(old(settings), "standardToken") && tokenAnswer.status == 200;
        && (fetched ==> settings == StoreToken(old(settings), tokenAnswer.token) && saved == JObj(settings))
        && (!fetched ==> settings == old(settings) && saved == old(saved))
    {
      if !Flag(settings, "termsAccepted") {
        return TermsNotAccepted;
      }
      if !Flag(settings, "isPremium") {
        if !Flag(settings, "standardToken") {
          if tokenAnswer.status == 200 {
            settings := StoreToken(settings, tokenAnswer.token);
            saved := JObj(settings);
          } else {
            return TokenRequestFailed(tokenAnswer.status);
          }
        }
      } else if !Flag(settings, "premiumToken") {
        return PremiumTokenMissing;
      }
      var images := GetNotAnnotatedImagePaths(files);
      if |images| > 0 {
        outcome := OpenSelector(images);
      } else {
        outcome := AllAnnotated;
      }
    }
  }

  /** `this.settings.standardToken = jsonResponse.token`; an undefined token
      leaves no field behind once saved. */
  function StoreToken(settings: map<string, Json>, token: Option<Json>): (s: map<string, Json>)
    ensures token.Some? ==> "standardToken" in s && s["standardToken"] == token.value
    ensures token.None? ==> "standardToken" !in s
    ensures forall k :: k != "standardToken" ==> (k in s <==> k in settings) && (k in s ==> s[k] == settings[k])
  {
    match token
    case Some(t) => settings["standardToken" := t]
    case None => settings - {"standardToken"}
  }
}
