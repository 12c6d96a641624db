/**
 * The three instruction texts given to the language model: the planner and
 * architect prompts, each a fixed head, the argument verbatim and a fixed
 * tail, and the coder's system prompt, a constant that lists the four
 * file tools the coder may call.
 */
module Prompts {
  import opened Wrappers
  import opened Text

  /** A filled template: the head, the argument unchanged (nothing is escaped), the tail. */
  function Fill(head: string, arg: string, tail: string): string {
    head + arg + tail
  }

  /** Reads the argument back out of a text that has the template's head and tail. */
  function Unfill(head: string, tail: string, text: string): (r: Option<string>)
    ensures r.Some? ==> |head| + |r.value| + |tail| == |text| && Fill(head, r.value, tail) == text
  {
    if |head| + |tail| <= |text| && StartsWith(text, head) && EndsWith(text, tail) then
      var arg := text[|head|..|text| - |tail|];
      assert text == text[..|head|] + text[|head|..|text| - |tail|] + text[|text| - |tail|..];
      Some(arg)
    else None
  }

  /** Whatever the argument, it is read back from the filled template. */
  lemma UnfillFill(head: string, arg: string, tail: string)
    ensures Unfill(head, tail, Fill(head, arg, tail)) == Some(arg)
  {
    var text := Fill(head, arg, tail);
    assert text[..|head|] == head;
    assert text[|text| - |tail|..] == tail;
    assert text[|head|..|text| - |tail|] == arg;
  }

  /** Distinct arguments give distinct texts. */
  lemma FillInjective(head: string, tail: string, a: string, b: string)
    requires Fill(head, a, tail) == Fill(head, b, tail)
    ensures a == b
  {
    UnfillFill(head, a, tail);
    UnfillFill(head, b, tail);
  }

  /** The argument sits in the filled text right after the head. */
  lemma FillEmbeds(head: string, arg: string, tail: string)
    ensures OccursAt(Fill(head, arg, tail), arg, |head|)
    ensures Contains(Fill(head, arg, tail), arg)
  {
    var text := Fill(head, arg, tail);
    assert text[|head|..|head| + |arg|] == arg;
    assert 0 <= |head| <= |text| - |arg| && OccursAt(text, arg, |head|);
  }

  // ----- planner -----

  const PlannerHead: string := @"
You are the PLANNER agent. Convert the user prompt into a COMPLETE engineering project plan.

CRITICAL INSTRUCTIONS FOR FRAMEWORK/LANGUAGE DETECTION:
1. CAREFULLY analyze the user's prompt for ANY mentions of specific frameworks or languages.
2. Common frameworks to detect:
   - Frontend: Next.js, React, React.js, Vue, Vue.js, Angular, Svelte, Solid.js
   - Backend: Flask, Django, FastAPI, Express, Express.js, Node.js
   - Full-stack: Next.js (can be both)
3. Common languages to detect:
   - JavaScript, TypeScript, Python, Go, Rust, Java, PHP
4. If the user mentions frameworks like ""Next.js"", ""React"", ""Vue.js"", etc., 
   you MUST use that exact framework name in your plan.
5. If the user mentions languages like ""TypeScript"", ""JavaScript"", ""Python"", etc., 
   you MUST use that exact language.
6. Extract BOTH framework AND language from the user prompt.
7. If no specific framework/language is mentioned, choose appropriate defaults:
   - For web apps without framework: use plain HTML/CSS/JS
   - For complex web apps: suggest Next.js with TypeScript
   - For backend APIs: suggest Flask with Python or Express with JavaScript

DETECTION EXAMPLES:
- ""Create a website using Next.js"" → framework: ""Next.js"", language: ""TypeScript""
- ""Build a React app in TypeScript"" → framework: ""React"", language: ""TypeScript""
- ""Make a todo app with Vue.js"" → framework: ""Vue.js"", language: ""JavaScript""
- ""Create a Flask API"" → framework: ""Flask"", language: ""Python""
- ""Build a modern website in HTML, CSS, and JavaScript"" → framework: None, language: ""JavaScript""
- ""Create a todo app"" (no framework specified) → framework: None, language: ""JavaScript""

ADDITIONAL REQUIREMENTS:
1. List ALL files needed for the project with proper paths
2. For web projects, always include:
   - HTML file (index.html or main page)
   - CSS file (styles.css or similar)
   - JavaScript file if needed (script.js, app.js, or similar)
3. For Next.js/React projects, include:
   - package.json
   - Component files (.jsx or .tsx)
   - Configuration files as needed
4. For Python projects, include:
   - requirements.txt
   - Main application file
   - Additional modules as needed

User request:
"

  const PlannerTail: string := @"

Analyze the above request carefully and create a plan that:
- RESPECTS the user's framework and language choices
- Includes ALL necessary files
- Has clear, specific features
- Uses the appropriate tech stack
    "

  /** `planner_prompt(user_prompt)`: the user's request is read back unchanged from between the planner's head and tail. */
  function PlannerPrompt(userPrompt: string): (r: string)
    ensures Unfill(PlannerHead, PlannerTail, r) == Some(userPrompt)
    ensures OccursAt(r, userPrompt, |PlannerHead|)
  {
    UnfillFill(PlannerHead, userPrompt, PlannerTail);
    FillEmbeds(PlannerHead, userPrompt, PlannerTail);
    Fill(PlannerHead, userPrompt, PlannerTail)
  }

  /** Two requests give the same planner prompt only if they are the same request. */
  lemma PlannerPromptInjective(a: string, b: string)
    requires PlannerPrompt(a) == PlannerPrompt(b)
    ensures a == b
  {
    FillInjective(PlannerHead, PlannerTail, a, b);
  }

  /** The request appears in the planner prompt. */
  lemma PlannerPromptContainsRequest(userPrompt: string)
    ensures Contains(PlannerPrompt(userPrompt), userPrompt)
  {
    FillEmbeds(PlannerHead, userPrompt, PlannerTail);
  }

  // ----- architect -----

  const ArchitectHead: string := @"
You are the ARCHITECT agent. Given this project plan, break it down into explicit engineering tasks.

RULES:
- For each FILE in the plan, create one or more IMPLEMENTATION TASKS.
- Order tasks logically: create structure files first (package.json, requirements.txt), then main files.
- In each task description:
    * Specify exactly what to implement
    * Name the variables, functions, classes, and components to be defined
    * Mention how this task depends on or will be used by previous tasks
    * Include integration details: imports, expected function signatures, data flow
- Each step must be SELF-CONTAINED but also carry FORWARD the relevant context from earlier tasks.
- Be SPECIFIC about implementation details:
    * For HTML: specify structure, IDs, classes
    * For CSS: specify color schemes, layouts, responsive design
    * For JavaScript: specify event handlers, DOM manipulation, data structures
    * For React/Next.js: specify components, props, state management
    * For Python: specify functions, classes, error handling

IMPORTANT: Create tasks in dependency order:
1. Configuration files (package.json, requirements.txt, etc.)
2. Base/utility files
3. Main application files
4. UI/presentation files

Project Plan:
"

  const ArchitectTail: string := @"

Create a detailed implementation plan with clear, actionable tasks.
    "

  /** `architect_prompt(plan)`: the plan text is read back unchanged from between the architect's head and tail. */
  function ArchitectPrompt(plan: string): (r: string)
    ensures Unfill(ArchitectHead, ArchitectTail, r) == Some(plan)
    ensures OccursAt(r, plan, |ArchitectHead|)
  {
    UnfillFill(ArchitectHead, plan, ArchitectTail);
    FillEmbeds(ArchitectHead, plan, ArchitectTail);
    Fill(ArchitectHead, plan, ArchitectTail)
  }

  /** Two plan texts give the same architect prompt only if they are the same text. */
  lemma ArchitectPromptInjective(a: string, b: string)
    requires ArchitectPrompt(a) == ArchitectPrompt(b)
    ensures a == b
  {
    FillInjective(ArchitectHead, ArchitectTail, a, b);
  }

  /** The plan text appears in the architect prompt. */
  lemma ArchitectPromptContainsPlan(plan: string)
    ensures Contains(ArchitectPrompt(plan), plan)
  {
    FillEmbeds(ArchitectHead, plan, ArchitectTail);
  }

  // ----- coder -----

  /** One entry of the coder's tool list: the name, its parameters and what it does. */
  datatype ToolSpec = ToolSpec(name: string, params: string, summary: string)

  /** The tools the coder prompt offers, in the order it lists them. */
  const CoderTools: seq<ToolSpec> := [
    ToolSpec("write_file", "path, content", "Writes content to a file at the specified path"),
    ToolSpec("read_file", "path", "Reads content from a file at the specified path"),
    ToolSpec("list_files", "directory", "Lists all files in the specified directory"),
    ToolSpec("get_current_directory", "", "Returns the current working directory")
  ]

  function ToolNames(tools: seq<ToolSpec>): (names: seq<string>)
    ensures |names| == |tools| && forall i :: 0 <= i < |tools| ==> names[i] == tools[i].name
  {
    seq(|tools|, i requires 0 <= i < |tools| => tools[i].name)
  }

  function Digit(k: nat): char
    requires k <= 9
  {
    ('0' as int + k) as char
  }

  /** The line `k. name(params) - summary`. */
  function ToolLine(k: nat, t: ToolSpec): string
    requires k <= 9
  {
    [Digit(k)] + ". " + t.name + "(" + t.params + ") - " + t.summary + "\n"
  }

  /** The numbered tool lines, starting at number `k`. */
  function ToolList(tools: seq<ToolSpec>, k: nat): string
    requires k + |tools| <= 10
    decreases |tools|
  {
    if |tools| == 0 then "" else ToolLine(k, tools[0]) + ToolList(tools[1..], k + 1)
  }

  /** Every listed tool's name appears in the tool list. */
  lemma {:induction false} ToolListNamesEach(tools: seq<ToolSpec>, k: nat)
    requires k + |tools| <= 10
    ensures forall i :: 0 <= i < |tools| ==> Contains(ToolList(tools, k), tools[i].name)
    decreases |tools|
  {
    if |tools| > 0 {
      ToolListNamesEach(tools[1..], k + 1);
      var t := tools[0];
      var rest := ToolList(tools[1..], k + 1);
      var line := ToolLine(k, t);
      assert line == ([Digit(k)] + ". ") + t.name + ("(" + t.params + ") - " + t.summary + "\n");
      assert OccursAt(line, t.name, 3);
      ContainsWithin("", line, rest, t.name);
      assert "" + line + rest == ToolList(tools, k);
      forall i | 1 <= i < |tools|
        ensures Contains(ToolList(tools, k), tools[i].name)
      {
        assert tools[i] == tools[1..][i - 1];
        ContainsWithin(line, rest, "", tools[i].name);
        assert line + rest + "" == ToolList(tools, k);
      }
    }
  }

  const CoderHead: string := @"
You are the CODER agent. You implement specific engineering tasks with precision and completeness.

AVAILABLE TOOLS (use EXACT names):
"

  const CoderTail: string := @"
CRITICAL RULES:
- ONLY use the tools listed above - NO OTHER TOOLS EXIST
- Do NOT try to call any tool not in the list above
- Do NOT make up tool names like ""commentary"", ""think"", ""plan"", etc.
- If you need to think or plan, do it in your response text, NOT as a tool call

CODING GUIDELINES:
1. Write COMPLETE, PRODUCTION-READY code
2. Include ALL necessary imports and dependencies
3. Follow best practices for the language/framework:
   - HTML: Semantic tags, proper structure, accessibility
   - CSS: Modern layouts (flexbox/grid), responsive design, clean selectors
   - JavaScript: Modern ES6+, event handling, error handling
   - React: Functional components, hooks, proper state management
   - Python: PEP 8, type hints, docstrings
4. Add helpful comments for complex logic
5. Ensure code is properly formatted and indented
6. For web projects: make them visually appealing with modern design
7. Test integration points carefully

WORKFLOW:
1. Read existing files if updating (use read_file)
2. Implement the complete solution
3. Write the file with full content (use write_file)
4. Ensure the code works with other files in the project

Remember: Quality over speed. Write code you'd be proud to ship to production.
    "

  /** `coder_system_prompt()`: a constant text naming each of the coder's four tools. */
  function CoderSystemPrompt(): (r: string)
    ensures forall i :: 0 <= i < |CoderTools| ==> Contains(r, CoderTools[i].name)
  {
    ToolListNamesEach(CoderTools, 1);
    forall i | 0 <= i < |CoderTools|
      ensures Contains(CoderHead + ToolList(CoderTools, 1) + CoderTail, CoderTools[i].name)
    {
      ContainsWithin(CoderHead, ToolList(CoderTools, 1), CoderTail, CoderTools[i].name);
    }
    CoderHead + ToolList(CoderTools, 1) + CoderTail
  }

  /** The tool list names exactly write_file, read_file, list_files and get_current_directory, each once. */
  lemma CoderToolsAreTheFour()
    ensures ToolNames(CoderTools) == ["write_file", "read_file", "list_files", "get_current_directory"]
    ensures forall i, j :: 0 <= i < j < |CoderTools| ==> CoderTools[i].name != CoderTools[j].name
  {
  }
}
