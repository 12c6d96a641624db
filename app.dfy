/**
 * The pure logic of the Streamlit front end: the syntax-highlighting
 * language of a file, the guard against an empty request, the live preview
 * (which page, which stylesheet and script, and how they are spliced in),
 * the "how to run" hint for projects that are not plain web pages, the name
 * of the downloaded archive, and the session update after a generation.
 */
module App {
  import opened Wrappers
  import opened Text
  import opened States

  // ----- language of a file, from its suffix -----

  /**
   * The final component of a POSIX path, as `PurePosixPath(p).name` gives
   * it: trailing separators and `.` components are skipped.
   */
  function PathName(p: string): (r: string)
    ensures forall j :: 0 <= j < |r| ==> r[j] != '/'
    ensures r != "."
    decreases |p|
  {
    match LastIndexOf(p, '/')
    case None => if p == "." then "" else p
    case Some(i) =>
      var segment := p[i + 1..];
      if segment == "" || segment == "." then PathName(p[..i]) else segment
  }

  /**
   * `PurePath.suffix`: from the last `.` of the name to its end, provided
   * that dot is neither the name's first nor its last character.
   */
  function Suffix(name: string): (r: string)
    ensures r != "" ==> && 2 <= |r| < |name| && r[0] == '.' && EndsWith(name, r)
                        && forall j :: 1 <= j < |r| ==> r[j] != '.'
    ensures r != "" <==> exists i :: 0 < i < |name| - 1 && name[i] == '.' && forall j :: i < j < |name| ==> name[j] != '.'
  {
    match LastIndexOf(name, '.')
    case None => ""
    case Some(i) =>
      if 0 < i < |name| - 1 then
        var r := name[i..];
        assert forall j :: 1 <= j < |r| ==> r[j] == name[i + j];
        r
      else ""
  }

  /** The suffixes `get_language_from_extension` knows, with their language. */
  const ExtensionLanguages: map<string, string> := map[
    ".py" := "python",
    ".js" := "javascript",
    ".jsx" := "javascript",
    ".ts" := "typescript",
    ".tsx" := "typescript",
    ".html" := "html",
    ".css" := "css",
    ".json" := "json",
    ".md" := "markdown",
    ".yml" := "yaml",
    ".yaml" := "yaml",
    ".sh" := "bash",
    ".txt" := "text",
    ".env" := "bash"
  ]

  /** `get_language_from_extension(filename)`: the mapped language of the suffix, `text` for any other. */
  function LanguageFromExtension(filename: string): (r: string)
    ensures Suffix(PathName(filename)) in ExtensionLanguages ==> r == ExtensionLanguages[Suffix(PathName(filename))]
    ensures Suffix(PathName(filename)) !in ExtensionLanguages ==> r == "text"
  {
    var ext := Suffix(PathName(filename));
    if ext in ExtensionLanguages then ExtensionLanguages[ext] else "text"
  }

  /** A name with a dot inside it has the text from its last dot as suffix. */
  lemma SuffixOfDotted(stem: string, ext: string)
    requires stem != "" && ext != ""
    requires forall j :: 0 <= j < |ext| ==> ext[j] != '.'
    ensures Suffix(stem + "." + ext) == "." + ext
  {
    var name := stem + "." + ext;
    var i := |stem|;
    assert name[i] == '.';
    forall j | i < j < |name| ensures name[j] != '.' {
      assert name[j] == ext[j - i - 1];
    }
    LastIndexOfAt(name, '.', i);
    assert name[i..] == "." + ext;
  }

  /** A name whose only dot is its first character (`.env`) has no suffix. */
  lemma NoSuffixForDotfile(rest: string)
    requires forall j :: 0 <= j < |rest| ==> rest[j] != '.'
    ensures Suffix("." + rest) == ""
  {
    var name := "." + rest;
    forall j | 0 < j < |name| ensures name[j] != '.' {
      assert name[j] == rest[j - 1];
    }
    LastIndexOfAt(name, '.', 0);
  }

  /** A name ending in a dot has no suffix. */
  lemma NoSuffixForTrailingDot(stem: string)
    ensures Suffix(stem + ".") == ""
  {
    LastIndexOfAt(stem + ".", '.', |stem|);
  }

  /** A path without separators is its own name. */
  lemma PathNameOfPlain(p: string)
    requires forall j :: 0 <= j < |p| ==> p[j] != '/'
    requires p != "."
    ensures PathName(p) == p
  {
  }

  /** The name of a path is what follows its last separator. */
  lemma PathNameInDirectory(dir: string, name: string)
    requires forall j :: 0 <= j < |name| ==> name[j] != '/'
    requires name != "" && name != "."
    ensures PathName(dir + "/" + name) == name
  {
    var p := dir + "/" + name;
    assert p[|dir|] == '/';
    forall j | |dir| < j < |p| ensures p[j] != '/' {
      assert p[j] == name[j - |dir| - 1];
    }
    LastIndexOfAt(p, '/', |dir|);
    assert p[|dir| + 1..] == name;
  }

  /** The last dot wins: `a.test.js` is JavaScript. */
  lemma LanguageOfDoubleSuffix()
    ensures LanguageFromExtension("a.test.js") == "javascript"
  {
    PathNameOfPlain("a.test.js");
    SuffixOfDotted("a.test", "js");
    assert "a.test" + "." + "js" == "a.test.js";
  }

  /** A leading dot is not a suffix: `.env` alone is text. */
  lemma LanguageOfDotfile()
    ensures LanguageFromExtension(".env") == "text"
  {
    PathNameOfPlain(".env");
    NoSuffixForDotfile("env");
    assert "." + "env" == ".env";
    assert "" !in ExtensionLanguages;
  }

  /** With a stem before it, `.env` is a suffix: `x.env` is bash. */
  lemma LanguageOfEnvFile(stem: string)
    requires stem != ""
    requires forall j :: 0 <= j < |stem| ==> stem[j] != '/' && stem[j] != '.'
    ensures LanguageFromExtension(stem + ".env") == "bash"
  {
    var name := stem + "." + "env";
    forall j | 0 <= j < |name| ensures name[j] != '/' {
      if j < |stem| { assert name[j] == stem[j]; }
    }
    assert stem + ".env" == name;
    PathNameOfPlain(name);
    SuffixOfDotted(stem, "env");
  }

  /** Suffixes are compared with their case: `src/App.JSX`, and any other `.JSX` file, is text. */
  lemma LanguageIsCaseSensitive(dir: string, stem: string)
    requires stem != ""
    requires forall j :: 0 <= j < |stem| ==> stem[j] != '/' && stem[j] != '.'
    ensures LanguageFromExtension(dir + "/" + stem + ".JSX") == "text"
  {
    var name := stem + "." + "JSX";
    forall j | 0 <= j < |name| ensures name[j] != '/' {
      if j < |stem| { assert name[j] == stem[j]; }
    }
    PathNameInDirectory(dir, name);
    assert dir + "/" + stem + ".JSX" == dir + "/" + name;
    SuffixOfDotted(stem, "JSX");
    assert ".JSX" !in ExtensionLanguages;
  }

  /** Only the file name counts, not its directory: `pages/index.tsx` is TypeScript. */
  lemma LanguageOfNestedFile()
    ensures LanguageFromExtension("pages/index.tsx") == "typescript"
  {
    PathNameInDirectory("pages", "index.tsx");
    assert "pages" + "/" + "index.tsx" == "pages/index.tsx";
    SuffixOfDotted("index", "tsx");
    assert "index" + "." + "tsx" == "index.tsx";
  }

  // ----- the empty-request guard -----

  /** The characters Python's `str.strip()` removes. */
  const PythonWhitespace: set<char> := {
    '\t', '\n', '\U{000B}', '\U{000C}', '\r', '\U{001C}', '\U{001D}', '\U{001E}', '\U{001F}', ' ',
    '\U{0085}', '\U{00A0}', '\U{1680}',
    '\U{2000}', '\U{2001}', '\U{2002}', '\U{2003}', '\U{2004}', '\U{2005}', '\U{2006}', '\U{2007}',
    '\U{2008}', '\U{2009}', '\U{200A}',
    '\U{2028}', '\U{2029}', '\U{202F}', '\U{205F}', '\U{3000}'
  }

  const EmptyPromptMessage: string := "\U{26A0}\U{FE0F} Please enter a project description!"

  /** What pressing "Generate Project" leads to: an error message, or a run on the request as typed. */
  datatype Submission = Rejected(message: string) | Accepted(prompt: string)

  /**
   * The guard in front of `generate_project`: a request that is empty once
   * stripped is refused; any other request is passed on unstripped.
   */
  function CheckPrompt(userPrompt: string): (r: Submission)
    ensures r.Rejected? <==> forall j :: 0 <= j < |userPrompt| ==> userPrompt[j] in PythonWhitespace
    ensures r.Rejected? ==> r.message == EmptyPromptMessage
    ensures r.Accepted? ==> r.prompt == userPrompt
  {
    StripEmptyIffBlank(userPrompt, PythonWhitespace);
    if Strip(userPrompt, PythonWhitespace) == "" then Rejected(EmptyPromptMessage) else Accepted(userPrompt)
  }

  // ----- plan summary and session state -----

  /** The summary of the plan kept for display (`plan_info`). */
  datatype PlanInfo = PlanInfo(
    name: string,
    description: string,
    framework: Option<string>,
    language: Option<string>,
    techstack: string,
    features: seq<string>)

  /**
   * `plan_info` as `generate_project` builds it: nothing when the agent's
   * result has no plan; otherwise the plan's own fields, a `None` framework
   * or language included (the `getattr` defaults never apply, since a plan
   * has every attribute).
   */
  function PlanInfoOf(plan: Option<Plan>): (r: Option<PlanInfo>)
    ensures r.None? <==> plan.None?
    ensures r.Some? ==> && r.value.name == plan.value.name
                        && r.value.description == plan.value.description
                        && r.value.framework == plan.value.framework
                        && r.value.language == plan.value.language
                        && r.value.techstack == plan.value.techstack
                        && r.value.features == plan.value.features
  {
    match plan
    case None => None
    case Some(p) => Some(PlanInfo(p.name, p.description, p.framework, p.language, p.techstack, p.features))
  }

  /** What `generate_project` returned: the files and plan summary, or the error it caught. */
  datatype GenerationOutcome = Generated(files: map<string, string>, planInfo: Option<PlanInfo>) | Failed(error: string)

  /** The fields of `st.session_state` that the generate tab writes. */
  class Session {
    var generatedProject: Option<GenerationOutcome>
    var projectFiles: map<string, string>
    var generationStatus: Option<string>
    var planInfo: Option<PlanInfo>

    /** The state of a fresh session. */
    constructor ()
      ensures generatedProject == None && projectFiles == map[] && generationStatus == None && planInfo == None
    {
      generatedProject := None;
      projectFiles := map[];
      generationStatus := None;
      planInfo := None;
    }

    /**
     * A press of "Generate Project" with `userPrompt` in the text area;
     * `outcome` is what the generation run returns when it is started.
     * A blank request starts nothing and changes nothing.
     */
    method Generate(userPrompt: string, outcome: GenerationOutcome) returns (ran: bool)
      modifies this
      ensures ran <==> CheckPrompt(userPrompt).Accepted?
      ensures !ran ==> && generatedProject == old(generatedProject) && projectFiles == old(projectFiles)
                       && generationStatus == old(generationStatus) && planInfo == old(planInfo)
      ensures ran && outcome.Generated? ==>
                && generatedProject == Some(outcome) && projectFiles == outcome.files
                && planInfo == outcome.planInfo && generationStatus == Some("success")
      ensures ran && outcome.Failed? ==>
                && generatedProject == old(generatedProject) && projectFiles == old(projectFiles)
                && planInfo == old(planInfo) && generationStatus == Some("error")
    {
      match CheckPrompt(userPrompt)
      case Rejected(_) =>
        ran := false;
      case Accepted(_) =>
        ran := true;
        match outcome
        case Generated(files, info) =>
          generatedProject := Some(outcome);
          projectFiles := files;
          planInfo := info;
          generationStatus := Some("success");
        case Failed(_) =>
          generationStatus := Some("error");
    }
  }

  // ----- archive name -----

  /** The download name: the plan name with every space turned into `_`, then `.zip`; `project.zip` without a plan. */
  function ZipFileName(planInfo: Option<PlanInfo>): (r: string)
    ensures EndsWith(r, ".zip")
    ensures planInfo.None? ==> r == "project.zip"
    ensures planInfo.Some? ==> && |r| == |planInfo.value.name| + 4
                               && forall k :: 0 <= k < |planInfo.value.name| ==>
                                    r[k] == if planInfo.value.name[k] == ' ' then '_' else planInfo.value.name[k]
  {
    match planInfo
    case None => "project.zip"
    case Some(info) =>
      ReplaceCharAt(info.name, ' ', '_');
      Replace(info.name, " ", "_") + ".zip"
  }

  /** No space survives in the archive name of a plan. */
  lemma ZipFileNameHasNoSpace(info: PlanInfo)
    ensures forall k :: 0 <= k < |ZipFileName(Some(info))| ==> ZipFileName(Some(info))[k] != ' '
  {
    var r := ZipFileName(Some(info));
    forall k | 0 <= k < |r| ensures r[k] != ' ' {
      if k >= |info.name| {
        assert r[k] == ".zip"[k - |info.name|];
      }
    }
  }

  // ----- live preview -----

  /** A project counts as a web project when some file name ends with `.html`. */
  predicate HasHtml(files: map<string, string>): (ok: bool)
    ensures "index.html" in files ==> ok
    ensures files == map[] ==> !ok
  {
    assert EndsWith("index.html", ".html");
    exists f :: f in files && EndsWith(f, ".html")
  }

  /** The stylesheet spliced into the preview: `style.css` if there is one, else `styles.css`. */
  function StylesheetKey(files: map<string, string>): (r: Option<string>)
    ensures r.Some? ==> r.value in files
    ensures r.None? <==> "style.css" !in files && "styles.css" !in files
    ensures "style.css" in files ==> r == Some("style.css")
    ensures "style.css" !in files && "styles.css" in files ==> r == Some("styles.css")
  {
    if "style.css" in files then Some("style.css")
    else if "styles.css" in files then Some("styles.css")
    else None
  }

  /** The script spliced into the preview: `script.js` if there is one, else `app.js`. */
  function ScriptKey(files: map<string, string>): (r: Option<string>)
    ensures r.Some? ==> r.value in files
    ensures r.None? <==> "script.js" !in files && "app.js" !in files
    ensures "script.js" in files ==> r == Some("script.js")
    ensures "script.js" !in files && "app.js" in files ==> r == Some("app.js")
  {
    if "script.js" in files then Some("script.js")
    else if "app.js" in files then Some("app.js")
    else None
  }

  const HeadClose: string := "</head>"
  const BodyClose: string := "</body>"

  function StyleBlock(css: string): string {
    "<style>" + css + "</style>" + HeadClose
  }

  function ScriptBlock(js: string): string {
    "<script>" + js + "</script>" + BodyClose
  }

  /**
   * `index.html` with the stylesheet, if there is one, spliced in before
   * every `</head>`: the page cut at each `</head>` and glued back with
   * the style block, and the page itself when it has no `</head>`.
   */
  function StyledPage(files: map<string, string>): (r: string)
    requires "index.html" in files
    ensures StylesheetKey(files).None? || !Contains(files["index.html"], HeadClose) ==> r == files["index.html"]
    ensures StylesheetKey(files).Some? ==>
              r == Join(Split(files["index.html"], HeadClose), StyleBlock(files[StylesheetKey(files).value]))
  {
    var page := files["index.html"];
    match StylesheetKey(files)
    case None => page
    case Some(k) =>
      ReplaceIsJoinOfSplit(page, HeadClose, StyleBlock(files[k]));
      Replace(page, HeadClose, StyleBlock(files[k]))
  }

  /**
   * The page shown in the preview: the styled page with the script, if
   * there is one, spliced in before every `</body>` of the styled page
   * (so also before a `</body>` that the stylesheet brought in).
   */
  function PreviewHtml(files: map<string, string>): (r: string)
    requires "index.html" in files
    ensures ScriptKey(files).None? || !Contains(StyledPage(files), BodyClose) ==> r == StyledPage(files)
    ensures ScriptKey(files).Some? ==>
              r == Join(Split(StyledPage(files), BodyClose), ScriptBlock(files[ScriptKey(files).value]))
  {
    var styled := StyledPage(files);
    match ScriptKey(files)
    case None => styled
    case Some(k) =>
      ReplaceIsJoinOfSplit(styled, BodyClose, ScriptBlock(files[k]));
      Replace(styled, BodyClose, ScriptBlock(files[k]))
  }

  /** Every `</head>` is replaced: the page is the stylesheet-free pieces joined by `</head>`, the result the same pieces joined by the style block. */
  lemma StyleInjectionReplacesEveryHeadClose(page: string, css: string)
    ensures Join(Split(page, HeadClose), HeadClose) == page
    ensures forall k :: 0 <= k < |Split(page, HeadClose)| ==> !Contains(Split(page, HeadClose)[k], HeadClose)
    ensures Replace(page, HeadClose, StyleBlock(css)) == Join(Split(page, HeadClose), StyleBlock(css))
  {
    JoinOfSplit(page, HeadClose);
    SplitPiecesAreFree(page, HeadClose);
    ReplaceIsJoinOfSplit(page, HeadClose, StyleBlock(css));
  }

  /** Every `</body>` is replaced, as for the stylesheet. */
  lemma ScriptInjectionReplacesEveryBodyClose(page: string, js: string)
    ensures Join(Split(page, BodyClose), BodyClose) == page
    ensures forall k :: 0 <= k < |Split(page, BodyClose)| ==> !Contains(Split(page, BodyClose)[k], BodyClose)
    ensures Replace(page, BodyClose, ScriptBlock(js)) == Join(Split(page, BodyClose), ScriptBlock(js))
  {
    JoinOfSplit(page, BodyClose);
    SplitPiecesAreFree(page, BodyClose);
    ReplaceIsJoinOfSplit(page, BodyClose, ScriptBlock(js));
  }

  /** With neither a stylesheet nor a script, the preview is `index.html` as it is. */
  lemma PreviewWithoutAssets(files: map<string, string>)
    requires "index.html" in files
    requires "style.css" !in files && "styles.css" !in files && "script.js" !in files && "app.js" !in files
    ensures PreviewHtml(files) == files["index.html"]
  {
  }

  /** A page with neither closing tag is shown unchanged, whatever stylesheet and script exist. */
  lemma PreviewWithoutClosingTags(files: map<string, string>)
    requires "index.html" in files
    requires !Contains(files["index.html"], HeadClose) && !Contains(files["index.html"], BodyClose)
    ensures PreviewHtml(files) == files["index.html"]
  {
  }

  // ----- run hints -----

  /** What the preview tab tells the user to run for a non-web project. */
  datatype RunHint = NpmSteps | PipSteps | NoSteps

  const NpmMarkers: seq<string> := ["react", "next", "vue", "angular", "svelte"]
  const PipMarkers: seq<string> := ["flask", "django", "fastapi"]

  /** Python's `any(m in s for m in markers)`. */
  function AnyContained(s: string, markers: seq<string>): (b: bool)
    ensures b <==> exists i :: 0 <= i < |markers| && Contains(s, markers[i])
    decreases |markers|
  {
    if |markers| == 0 then false
    else
      assert forall i :: 1 <= i < |markers| ==> markers[i] == markers[1..][i - 1];
      Contains(s, markers[0]) || AnyContained(s, markers[1..])
  }

  /**
   * The hint for a framework name, matched case-insensitively: a front-end
   * marker gives the npm steps and is checked first, then a Python marker
   * gives the pip steps. A missing framework makes `.lower()` raise.
   */
  function RunHintOf(framework: Option<string>): (r: Result<RunHint, string>)
    ensures r.Err? <==> framework.None?
    ensures r.Err? ==> r.error == "AttributeError: 'NoneType' object has no attribute 'lower'"
    ensures r == Ok(NpmSteps) <==>
              framework.Some? && exists i :: 0 <= i < |NpmMarkers| && Contains(AsciiLower(framework.value), NpmMarkers[i])
    ensures r == Ok(PipSteps) <==>
              && framework.Some?
              && (forall i :: 0 <= i < |NpmMarkers| ==> !Contains(AsciiLower(framework.value), NpmMarkers[i]))
              && exists i :: 0 <= i < |PipMarkers| && Contains(AsciiLower(framework.value), PipMarkers[i])
  {
    match framework
    case None => Err("AttributeError: 'NoneType' object has no attribute 'lower'")
    case Some(name) =>
      var lowered := AsciiLower(name);
      if AnyContained(lowered, NpmMarkers) then Ok(NpmSteps)
      else if AnyContained(lowered, PipMarkers) then Ok(PipSteps)
      else Ok(NoSteps)
  }

  /** A framework name that names both kinds (`Next.js + Flask`) gets the npm steps. */
  lemma NpmHintTakesPrecedence(name: string)
    requires Contains(AsciiLower(name), "next") && Contains(AsciiLower(name), "flask")
    ensures RunHintOf(Some(name)) == Ok(NpmSteps)
  {
    assert NpmMarkers[1] == "next";
  }

  /** Only a marker gives steps: a name containing none of them gets no hint. */
  lemma NoMarkerNoHint(name: string)
    requires forall i :: 0 <= i < |NpmMarkers| ==> !Contains(AsciiLower(name), NpmMarkers[i])
    requires forall i :: 0 <= i < |PipMarkers| ==> !Contains(AsciiLower(name), PipMarkers[i])
    ensures RunHintOf(Some(name)) == Ok(NoSteps)
  {
  }

  /** Upper-case letters do not matter: `FastAPI` and `fastapi` get the same hint. */
  lemma RunHintIgnoresAsciiCase(a: string, b: string)
    requires AsciiLower(a) == AsciiLower(b)
    ensures RunHintOf(Some(a)) == RunHintOf(Some(b))
  {
  }

  /** What the preview tab shows. */
  datatype PreviewView =
    | NothingGenerated
    | WebPreview(html: string)
    | NoIndexPage(htmlFiles: set<string>)
    | NotWeb(hint: Option<Result<RunHint, string>>)

  /**
   * The preview tab: nothing before a generation; for a web project the
   * spliced `index.html` if that exact file exists, else the list of its
   * HTML files; for any other project the run hint, when there is a plan.
   */
  function PreviewTab(files: map<string, string>, planInfo: Option<PlanInfo>): (r: PreviewView)
    ensures r.NothingGenerated? <==> files == map[]
    ensures r.WebPreview? <==> files != map[] && "index.html" in files
    ensures r.WebPreview? ==> r.html == PreviewHtml(files)
    ensures r.NoIndexPage? <==> files != map[] && HasHtml(files) && "index.html" !in files
    ensures r.NoIndexPage? ==> r.htmlFiles == set f | f in files && EndsWith(f, ".html")
    ensures r.NotWeb? <==> files != map[] && !HasHtml(files)
    ensures r.NotWeb? ==> r.hint == if planInfo.Some? then Some(RunHintOf(planInfo.value.framework)) else None
  {
    if files == map[] then NothingGenerated
    else if HasHtml(files) then
      if "index.html" in files then WebPreview(PreviewHtml(files))
      else NoIndexPage(set f | f in files && EndsWith(f, ".html"))
    else
      NotWeb(if planInfo.Some? then Some(RunHintOf(planInfo.value.framework)) else None)
  }
}
