# A verified model of the AI project generator's core

The AI project generator turns a plain-language description into a complete
code base. A planner, an architect and a coder agent, each driven by a
language model, do the work. A Streamlit page collects the request,
previews the files that come out, and offers them as a ZIP archive. The
repository also ships a sample generated site, whose client script runs a
contact form, a testimonials carousel and a gallery lightbox.

This project models the deterministic parts of that system in Dafny and
proves what they promise:

- `states.dfy`: the records the agents exchange (`File`, `Plan`,
  `ImplementationTask`, `TaskPlan`, `CoderState`). A record is built from a
  map of named field values. Required fields, defaults, the ignored or kept
  unknown fields, and the errors of a failed construction are all modelled.
- `prompts.dfy`: the planner and architect prompt templates, and the coder's
  constant system prompt. The literal texts are copied character for
  character.
- `app.dfy`: the Streamlit page's own logic. It covers the language
  inferred from a file's suffix, the guard against a blank request, and the
  session fields a generation sets. It also covers the live preview: which
  page, stylesheet and script are used, and how they are spliced in. Last
  come the "how to run" hint and the archive name.
- `contact_form.dfy`: the four field rules and each field's error display
  (a class per input), plus `validate` and submission as methods.
- `carousel.dfy`: the carousel as a class. Its slide index and timer are
  kept in range, and at most one rotation timer ever runs.
- `lightbox.dfy`: the focus trap's Tab wrap as pure functions, and the
  lightbox as a class. That class holds the as-written behaviour and a
  corrected one (see Findings).
- `text.dfy`, `wrappers.dfy`: shared string operations and `Option`/`Result`.
  The string operations follow Python and JavaScript semantics: `find`,
  replace-all, `split`/`join`, `strip`/`trim` over a given blank set,
  `endswith`, ASCII lowercasing and `rfind`.

## Model

| member | source | states |
|---|---|---|
| States.ParseFile | src/agent/states.py:5-8 | a `File` is built exactly when `path` and `purpose` are both strings, with those values; a missing one is reported as missing |
| States.AsFile | src/agent/states.py:5-8 | a nested file value is accepted exactly when it is an object with both string fields |
| States.ParsePlan | src/agent/states.py:11-19 | a `Plan` is built exactly when name, description, techstack, features and files are present and well typed; framework and language default to none; features and files keep their order; each missing required field is reported |
| States.ParseTask | src/agent/states.py:22-25 | an `ImplementationTask` needs both `filepath` and `task_description`, each reported when missing |
| States.AsTask | src/agent/states.py:22-25 | a nested step is accepted exactly when it is an object shaped like a task |
| States.ParseTaskPlan | src/agent/states.py:28-31 | `implementation_steps` is required and keeps its order; every other field is kept unvalidated as an extra field |
| States.ParseCoderState | src/agent/states.py:34-38 | `task_plan` is required; `current_step_idx` defaults to 0 and `current_file_content` to none |
| States.PlanRoundTrip | src/agent/states.py:11-19 | building a plan from its own fields gives the same plan back, lists in order |
| States.TaskPlanRoundTrip | src/agent/states.py:28-31 | a task plan survives a round trip through its fields, extra fields included |
| States.PlanIgnoresUnknownFields | src/agent/states.py:11-19 | fields a `Plan` does not declare never change the outcome |
| States.CoderStateDefaults | src/agent/states.py:34-38 | a coder state built from a task plan alone starts at step 0 with no file content |
| States.StepIndexIsUnchecked | src/agent/states.py:37 | any integer, negative or past the last step, is accepted as the step index |
| Prompts.UnfillFill | src/prompts/prompt.py:47 | the argument of a template is read back unchanged from the filled text |
| Prompts.FillInjective | src/prompts/prompt.py:47 | distinct arguments give distinct filled texts |
| Prompts.FillEmbeds | src/prompts/prompt.py:85 | the argument occurs in the filled text right after the head |
| Prompts.PlannerPrompt | src/prompts/prompt.py:1-55 | the planner prompt is the fixed head, the request unescaped, the fixed tail |
| Prompts.PlannerPromptInjective | src/prompts/prompt.py:1-55 | two requests give the same planner prompt only if they are equal |
| Prompts.PlannerPromptContainsRequest | src/prompts/prompt.py:47 | the request is a substring of the planner prompt |
| Prompts.ArchitectPrompt | src/prompts/prompt.py:58-89 | the architect prompt is the fixed head, the plan text unescaped, the fixed tail |
| Prompts.ArchitectPromptInjective | src/prompts/prompt.py:58-89 | two plan texts give the same architect prompt only if they are equal |
| Prompts.ArchitectPromptContainsPlan | src/prompts/prompt.py:85 | the plan text is a substring of the architect prompt |
| Prompts.ToolListNamesEach | src/prompts/prompt.py:96-100 | every tool in the numbered tool list has its name in the list |
| Prompts.CoderSystemPrompt | src/prompts/prompt.py:92-130 | the coder's system prompt is a constant that names each of its tools |
| Prompts.CoderToolsAreTheFour | src/prompts/prompt.py:96-100 | the tools are exactly write_file, read_file, list_files and get_current_directory, with no name twice |
| Text.FindSpec | src/app.py:352 | `find` gives the first occurrence, and none exactly when the pattern does not occur |
| Text.Replace | src/app.py:352 | replace-all leaves a text without the pattern as it is, and a text with the pattern then holds the replacement |
| Text.Split | src/app.py:352 | `split` gives one piece exactly when the pattern does not occur, and that piece is the whole text |
| Text.JoinShape | src/app.py:352 | the joined text starts with the first piece, ends with the last, and has the separator right after the first piece when there are two or more |
| Text.Strip | src/app.py:258 | the stripped text sits in the input right after its blank head, and neither starts nor ends with a blank |
| Text.AsciiLower | src/app.py:375 | each ASCII capital becomes its small letter, every other character stays, the length is kept and no capital is left |
| Text.AsciiLowerIdempotent | src/app.py:375 | lower-casing twice is lower-casing once |
| Text.ReplaceIsJoinOfSplit | src/app.py:352 | replace-all equals splitting at every occurrence and joining with the replacement |
| Text.JoinOfSplit | src/app.py:358 | joining the split pieces with the pattern gives the text back |
| Text.SplitPiecesAreFree | src/app.py:358 | no split piece contains the pattern, so no occurrence is left unreplaced |
| Text.StripShape | src/app.py:258 | `strip` keeps a contiguous range with only blanks outside it and a non-blank at each end |
| Text.StripEmptyIffBlank | src/app.py:258 | a text strips to empty exactly when every character is a blank |
| Text.StripIdempotent | src/app.py:258 | stripping twice is stripping once |
| Text.ReplaceCharAt | src/app.py:312 | replacing one character by another keeps the length and changes exactly the positions that held it |
| App.PathName | src/app.py:145 | the final path component, with trailing separators and `.` components skipped, never contains a separator |
| App.Suffix | src/app.py:145 | the suffix is non-empty exactly when the name has a last dot that is neither its first nor its last character, and then runs from it to the end |
| App.LanguageFromExtension | src/app.py:127-146 | the mapped language of the name's suffix when it is one of the 14 listed, `text` otherwise |
| App.SuffixOfDotted | src/app.py:145 | a name with an inner dot has the text from its last dot as suffix |
| App.NoSuffixForDotfile | src/app.py:145 | a name whose only dot is the first character has no suffix |
| App.NoSuffixForTrailingDot | src/app.py:145 | a name ending in a dot has no suffix |
| App.PathNameInDirectory | src/app.py:145 | only the text after the last separator counts |
| App.LanguageOfDoubleSuffix | src/app.py:127-146 | `a.test.js` is javascript |
| App.LanguageOfDotfile | src/app.py:127-146 | `.env` alone is text: its only dot is the first character |
| App.LanguageOfEnvFile | src/app.py:127-146 | a plain stem followed by `.env`, such as `x.env`, is bash |
| App.LanguageIsCaseSensitive | src/app.py:127-146 | a `.JSX` file in any directory, such as `src/App.JSX`, is text: suffixes are compared with their case |
| App.LanguageOfNestedFile | src/app.py:127-146 | `pages/index.tsx` is typescript |
| App.CheckPrompt | src/app.py:258-263 | a request is refused with the warning exactly when it is all blanks; otherwise it is passed on unstripped |
| App.PlanInfoOf | src/app.py:170-180 | a plan summary exists exactly when the result has a plan, and copies its name, description, framework, language, techstack and features |
| App.Session.Generate | src/app.py:258-278 | a blank request changes nothing; a success stores the result, files and plan summary with status success; a failure only sets status error |
| App.Session.constructor | src/app.py:91-98 | a fresh session has no project, no files, no status and no plan summary |
| App.ZipFileName | src/app.py:312 | the name ends in `.zip`; it is `project.zip` without a plan, else the plan name with each space turned into `_` |
| App.ZipFileNameHasNoSpace | src/app.py:312 | no space survives in a plan's archive name |
| App.StylesheetKey | src/app.py:349-351 | `style.css` when present, else `styles.css` when present, else none |
| App.ScriptKey | src/app.py:355-357 | `script.js` when present, else `app.js` when present, else none |
| App.StyleInjectionReplacesEveryHeadClose | src/app.py:352 | the style block goes before every `</head>` and no `</head>` is left out |
| App.ScriptInjectionReplacesEveryBodyClose | src/app.py:358 | the script block goes before every `</body>` and no `</body>` is left out |
| App.HasHtml | src/app.py:336 | a project holding `index.html` is a web project, and an empty project is not |
| App.StyledPage | src/app.py:345-352 | without a stylesheet or without `</head>` the page is `index.html` itself; with one it is `index.html` cut at every `</head>` and glued back with the style block |
| App.PreviewHtml | src/app.py:344-358 | without a script or without `</body>` in the styled page the preview is the styled page; with one it is the styled page cut at every `</body>` and glued back with the script block |
| App.PreviewWithoutAssets | src/app.py:344-358 | with neither a stylesheet nor a script the preview is `index.html` unchanged |
| App.PreviewWithoutClosingTags | src/app.py:344-358 | a page with neither closing tag is shown unchanged, whatever the assets |
| App.PreviewTab | src/app.py:331-393 | nothing before a generation; the spliced preview exactly when `index.html` exists; the list of HTML files for a web project without it; otherwise the run hint when there is a plan |
| App.AnyContained | src/app.py:376 | `any(m in s ...)` holds exactly when some marker occurs in the text |
| App.RunHintOf | src/app.py:374-393 | a missing framework fails as `.lower()` does; an npm marker in the lowered name gives the npm steps; otherwise a Python marker gives the pip steps |
| App.NpmHintTakesPrecedence | src/app.py:376-385 | a name with both `next` and `flask` gets the npm steps |
| App.NoMarkerNoHint | src/app.py:374-393 | a name with no marker gets no steps |
| App.RunHintIgnoresAsciiCase | src/app.py:375 | names equal up to ASCII case get the same hint |
| ContactForm.Utf16Length | src/generated_project/script.js:307 | a string's JavaScript length lies between its character count and twice it, and equals the count exactly when no character lies outside the Basic Multilingual Plane |
| ContactForm.Trim | src/generated_project/script.js:306 | `trim` leaves the value without its blank head and tail, no longer than it, and empty exactly when the value is all blanks |
| ContactForm.NameValid | src/generated_project/script.js:306-307 | the name passes exactly when, trimmed, it has two characters or one outside the Basic Multilingual Plane |
| ContactForm.EmailValid | src/generated_project/script.js:314-316 | the e-mail rule accepts exactly the strings that match `^[^\s@]+@[^\s@]+\.[^\s@]+$` |
| ContactForm.EmailValidMatches | src/generated_project/script.js:315-316 | an address the rule accepts at its last `@` matches the pattern |
| ContactForm.PatternIsEmailValid | src/generated_project/script.js:315-316 | an address the pattern matches is accepted by the rule at its last `@` |
| ContactForm.PhoneValid | src/generated_project/script.js:323-334 | a blank phone passes, a bare run of 7 to 15 digits passes, and a non-blank phone that passes is 7 to 15 digits once trimmed |
| ContactForm.AcceptedPhoneCharacters | src/generated_project/script.js:323-334 | an accepted phone holds only blanks and ASCII digits |
| ContactForm.MessageValid | src/generated_project/script.js:336-337 | ten trimmed characters always pass, fewer than five never do, and without characters outside the Basic Multilingual Plane exactly ten or more pass |
| ContactForm.FormValid | src/generated_project/script.js:303-344 | the form is valid exactly when the name and message rules hold, the trimmed e-mail matches the pattern and the phone rule holds; then no text field is blank |
| ContactForm.RulesIgnoreSurroundingBlanks | src/generated_project/script.js:306 | blanks around a value are trimmed away before any rule sees it |
| ContactForm.BlankFrame | src/generated_project/script.js:306 | trimming blank padding from a core with non-blank ends gives the core |
| ContactForm.AstralNamePasses | src/generated_project/script.js:306-307 | a one-character name outside the Basic Multilingual Plane passes the two-character rule |
| ContactForm.FormField.ShowError | src/generated_project/script.js:282-294 | the field is marked invalid and the first shown message is replaced by the new one, leaving exactly one |
| ContactForm.FormField.ClearError | src/generated_project/script.js:296-301 | the field is marked valid and the first shown message is removed, leaving none |
| ContactForm.FormField.Apply | src/generated_project/script.js:307-312 | a failed rule shows its message; a held rule clears the field |
| ContactForm.FormField.Reset | src/generated_project/script.js:350-356 | the value is emptied, the class removed and the message removed |
| ContactForm.Validate | src/generated_project/script.js:303-344 | valid exactly when all four rules hold; every field is updated, each showing its own message or none |
| ContactForm.Submit | src/generated_project/script.js:346-358 | a valid form is acknowledged and fully reset; an invalid one keeps its values and shows its messages |
| Carousel.JsRem | src/generated_project/script.js:233 | JavaScript's remainder: Dafny's for a non-negative dividend, non-positive above `-n` for a negative one |
| Carousel.JsRemIsOdd | src/generated_project/script.js:233 | negating the dividend negates the remainder |
| Carousel.JsRemOfNegative | src/generated_project/script.js:233 | `(-2) % 3` is `-2` |
| Carousel.NextIndex | src/generated_project/script.js:236 | the next slide, the first after the last |
| Carousel.PrevIndex | src/generated_project/script.js:237 | the previous slide, the last before the first |
| Carousel.PrevUndoesNext | src/generated_project/script.js:236-237 | next and previous undo each other |
| Carousel.AdvanceAdds | src/generated_project/script.js:241 | steps of rotation compose |
| Carousel.AdvanceWithinRound | src/generated_project/script.js:241 | before the last slide, each step goes one slide on |
| Carousel.FullRoundReturns | src/generated_project/script.js:241 | as many steps as slides come back to the starting slide |
| Carousel.Carousel.constructor | src/generated_project/script.js:230-249 | the carousel starts on the first slide with one running timer |
| Carousel.Carousel.ShowSlide | src/generated_project/script.js:232-235 | the index becomes JavaScript's `(index + total) % total`, in range whenever `index >= -total` |
| Carousel.Carousel.NextSlide | src/generated_project/script.js:236 | moves to the next slide and keeps the timer |
| Carousel.Carousel.PrevSlide | src/generated_project/script.js:237 | moves to the previous slide and keeps the timer |
| Carousel.Carousel.StartAutoRotate | src/generated_project/script.js:239-242 | does nothing when a timer runs, else starts one; never more than one |
| Carousel.Carousel.StopAutoRotate | src/generated_project/script.js:243-246 | clears the running timer, if any, and leaves none |
| Carousel.Carousel.Tick | src/generated_project/script.js:241 | a tick of the running timer shows the next slide |
| Carousel.Carousel.KeyDown | src/generated_project/script.js:256-264 | ArrowRight and ArrowLeft move and are handled; any other key changes nothing |
| Lightbox.TrapFocusKey | src/generated_project/script.js:24-38 | the trap acts only on Tab: on the last element without Shift it sends the focus to the first, on the first with Shift to the last, and otherwise lets the key through |
| Lightbox.FocusAfterTab | src/generated_project/script.js:24-38 | Tab from any focusable element of the container lands on one of them: the next or the first after the last, the previous or the last before the first |
| Lightbox.TabStaysOnCloseButton | src/generated_project/script.js:24-38 | in the lightbox, whose one focusable element is the close button, Tab and Shift+Tab keep the focus there |
| Lightbox.Without | src/generated_project/script.js:46 | removing a listener removes every copy of it and keeps the others |
| Lightbox.Lightbox.constructor | src/generated_project/script.js:150-151 | the lightbox starts hidden, on image 0, with no trap |
| Lightbox.Lightbox.OpenLightbox | src/generated_project/script.js:154-165 | an index without a link is ignored; otherwise the image is shown, a new trap is attached with the current focus as restore target, and the close button is focused |
| Lightbox.Lightbox.CloseLightbox | src/generated_project/script.js:167-170 | the lightbox is hidden, the stored trap removed and its restore target focused |
| Lightbox.Lightbox.KeyDown | src/generated_project/script.js:184-203 | nothing while hidden, and an unhandled key changes nothing; Escape closes, removing only the stored trap and keeping the image and the stored cleanup; the arrows open `(i+1) % n` and `(i-1+n) % n`, each attaching another trap |
| Lightbox.Lightbox.OpenLightboxOnce | src/generated_project/script.js:154-165 | corrected: re-opening while shown only changes the image and keeps the one trap |
| Lightbox.Lightbox.KeyDownCorrected | src/generated_project/script.js:184-203 | corrected: one trap while shown, none after Escape, and the focus back on the element focused before the first opening; the arrows keep the trap and its cleanup, and an unhandled key changes nothing |
| Lightbox.BrowseAndCloseAsWritten | src/generated_project/script.js:154-201 | opening image 0 from its link, ArrowRight, then Escape leaves one trap attached and the focus on the body |
| Lightbox.BrowseAndCloseCorrected | src/generated_project/script.js:154-201 | the same steps with the corrected handlers leave no trap and the focus on the link |

## Left out

- The Streamlit page itself is left out: layout, CSS, tabs, widgets, spinners, balloons and the plan display. This is presentation.
- Reading the generated files (`get_all_files`) is left out. The files reach the model as a map, the `files` of `App.GenerationOutcome`.
- Building the ZIP archive in memory is left out. Only its file name is modelled.
- `generate_project` is left out: clearing the project directory, and running the agent graph with its recursion limit. The graph and its tools are not part of the source modelled here. The run's outcome is a parameter of `App.Session.Generate`.
- The agent pipeline, tool dispatch and the coder's step loop are not part of this model. Only the `CoderState` record is.
- Framework and language detection is done by the language model reading the prompts; only the prompt texts are modelled.
- Pydantic's lax-mode coercion (the string `"3"` or the float `3.0` accepted for the integer `current_step_idx`, a tuple accepted for a list, and so on), its error messages and JSON are left out. A field must hold a value of its declared kind, and an error records only the field's location and whether it was missing or of the wrong kind.
- App.PlanInfoOf: the `getattr` defaults are not modelled, because a `Plan` always has every attribute.
- App.RunHintOf: lowercasing is modelled on ASCII letters only; Python's `lower()` also folds other scripts.
- App.PathName: only POSIX paths are modelled; Windows drive letters and backslashes are not.
- The DOM is left out: element creation and styles, `img.src`/`alt`, classes other than `valid`/`invalid`, and `alert`. So are the sticky header, smooth scrolling and the current-year footer, which are outside the modelled core.
- ContactForm.FormField: each input is assumed to have its own parent element, so the first `.error-msg` found there belongs to that input.
- ContactForm.FormField.Reset: `form.reset()` is modelled as restoring an empty value, the default of every field on the page.
- ContactForm.Utf16Length: strings are sequences of Unicode scalar values, so lone surrogates cannot be represented.
- ContactForm.EmailValid: the rule is a predicate over the string, not a regular-expression engine; its contract ties it to the pattern's language.
- Real timing is left out. `setInterval` ids come from the caller, and `Carousel.Carousel.Tick` stands for a firing of the running interval.
- Carousel.Carousel.ShowSlide: the carousel's transform, a floating-point percentage, is not modelled.
- Lightbox.Lightbox.CloseLightbox: focus follows the HTML focus fixup rule. A hidden close button loses the focus to the body, and focusing it while hidden does nothing.
- App.PreviewTab: the HTML files of a project without `index.html` are given as a set; the order in which the dictionary lists them is not modelled, since a Dafny map has no key order.
- Lightbox.TrapFocusKey: the trap's empty Escape branch does nothing and is not modelled. The browser's Tab order inside a container is taken to be the document order of its focusable elements.

## Findings

| source | as written | input that shows it | evidently intended | confidence | as-written member | corrected member |
|---|---|---|---|---|---|---|
| src/generated_project/script.js:162-163, 191-197 | every `openLightbox` call, including the arrow keys' calls while the lightbox is open, attaches a new focus-trap listener and overwrites the stored cleanup, whose restore target is then the close button | open image 0 from its link, press ArrowRight, press Escape | one trap per opening, removed on closing, with the focus returned to the link that opened the lightbox | not executed | Lightbox.BrowseAndCloseAsWritten | Lightbox.Lightbox.KeyDownCorrected |
