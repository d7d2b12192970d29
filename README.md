# ai-starter, modelled in Dafny

This project models the sequential logic of the ai-starter repository:

- **The coding assistant** (`mini_projects/single-file-agent/agent.py`):
  - a conversation that only grows;
  - the `chat` loop, which asks the model and runs every requested tool before asking again;
  - the tool dispatcher and its three file tools, over a file system of files and directories.
- **The four workflow patterns** (`ai_workflows/02-workflow_patterns/01`–`04`):
  - the gated prompt chain;
  - the confidence router;
  - the two-check validator;
  - the orchestrator that plans a blog, has a worker write each section with the sections so far as context, and has a reviewer read them all.
- **The reflective research agent's text helpers** (`src/utils.py`): `clean_text`, `_safe_filename`, `ensure_pdf_url` and `clean_json_block`.
- **How its search tools shape their results** (`src/research_tools.py`): the arXiv records and their excerpt rule, the Tavily projection, and the Wikipedia answer.

Every model call is a function the model is given:
- The coding assistant takes a finite script of replies.
- The workflows take their extraction, routing, checking, planning, writing and reviewing steps as functions of their inputs.

Each workflow records the calls it makes, with their inputs. That is how "this step is not called" is stated.

Modules:
- `Strings`: the Python `str` operations the code relies on.
  - `in`, `replace`, `split`, `join` and `strip`;
  - `str()` of an integer;
  - `<` on strings, and `sorted`, proved to give the one strictly increasing enumeration of a set.
- `Files`: the file system, and what `_read_file`, `_list_files` and `_edit_file` answer and change.
- `Agent`:
  - `_execute_tool` and the `chat` loop as functions;
  - the class `AIAgent`, whose methods update `messages` and the file system in place and are proved equal to those functions.
- `PromptChaining`, `Routing`, `Parallelization`: the three decision functions.
- `Orchestrator`:
  - the insertion-ordered `sections_content` dict as a sequence of key/value items;
  - the context and review texts;
  - the class `BlogOrchestrator`, whose `write_blog` loop is proved against a recursive specification.
  - the worker model is given only a section's `Brief` (type, goal and style guide), which is what its prompt is formatted with; the planned `target_length` never reaches it.
  - the returned `BlogPost` holds the dict as a value. In the source, validating the `Dict[str, SectionContent]` field builds a new dict too, so a later `write_blog` is not seen through an earlier post.
- `TextUtils`: the four text helpers. Each regular-expression substitution is written out as the left-to-right rewrite `re.sub` performs.
- `ResearchTools`:
  - the record and excerpt logic of the arXiv tool, with its loops as methods;
  - the Tavily and Wikipedia tools.

Two facts about the code that the model keeps:
- `_edit_file` replaces every occurrence of `old_text`, as `str.replace` does.
- `chat` loops with `while True` and has no bound on tool-resolution cycles. The model's loop ends only when the script of replies runs out.

Three behaviours of the code follow from the contracts:
- **A bad argument orphans a tool call.** When a tool call's arguments are not valid JSON, `chat` returns "[Error]: ..." but keeps the assistant message whose call then has no answer. The conversation stops being "settled" (every call answered) (`Agent.DecodeFailureLeavesCallUnanswered`). Every later `chat` appends its user message right after the unanswered round, so the conversation is never settled again (`Agent.OrphanSurvivesChat`). When every argument decodes, each chat keeps the conversation settled (`Agent.ConverseSettles`).
- **Windows line endings block the hyphen join.** `clean_text` joins hyphenated line breaks before it normalises Windows line endings. So a hyphen before "\r\n" survives one cleaning and is joined only by a second: `clean_text` is not idempotent (`TextUtils.CleanTextKeepsHyphenBeforeCrLf`).
- **The two thresholds differ.** The prompt chain and the router let a confidence of exactly 0.7 through. The validator rejects it.

## Model

| member | source | states |
|---|---|---|
| Files.NodeAt | mini_projects/single-file-agent/agent.py:126-128 | a path string names a file or a directory only if it is not empty and resolves to one; it names a file only when it is not in directory form (ending with "/" or "/."), and a file in directory form is a path through a file |
| Files.EntryLines | mini_projects/single-file-agent/agent.py:131-138 | one listing line per name, in the given order, "[DIR] n/" for a directory and "[FILE] n" otherwise |
| Files.Ancestors | mini_projects/single-file-agent/agent.py:164-166 | the directories `os.makedirs` creates are exactly the proper prefixes of the path |
| Files.ListingOfDirectory | mini_projects/single-file-agent/agent.py:126-142 | a directory's listing is "Empty directory: p" exactly when it has no entries; otherwise "Content of p:" and the entry lines joined by "\n"; the names are exactly the entries, each once, in strictly increasing order |
| Files.ListingOfNonDirectory | mini_projects/single-file-agent/agent.py:128-129 | a missing path or a non-directory gives the "[Error] Directory does not exist or is not a directory" answer |
| Files.ReadGivesContent | mini_projects/single-file-agent/agent.py:115-120 | reading a file answers a fixed header followed by the file's whole content |
| Files.ReadFileAsDirectory | mini_projects/single-file-agent/agent.py:115-129 | a file named in directory form ("f.txt/") is not read: "Error reading file: [Errno 20] Not a directory: 'path'", and it is not listed as a directory |
| Files.EditReplaces | mini_projects/single-file-agent/agent.py:149-161 | on an existing file with non-empty old_text: "Text not found" and no change when it does not occur; otherwise every occurrence is replaced, the same files and directories exist and no other file changes |
| Files.EditCreates | mini_projects/single-file-agent/agent.py:163-171 | on a missing path not in directory form, or on a file with empty old_text: the file's content becomes exactly new_text, overwriting it, the missing parent directories are created and nothing else changes |
| Files.EditMakesDirectory | mini_projects/single-file-agent/agent.py:163-174 | on a missing path in directory form ("new/"): `os.makedirs` creates it and the directories above it as directories, opening it for writing then fails with "Is a directory", and no file changes |
| Files.EditFails | mini_projects/single-file-agent/agent.py:147-174 | editing a directory, a path through a file, or the empty path answers "Error editing file: ..." and changes nothing |
| Files.WriteKeepsValid | mini_projects/single-file-agent/agent.py:163-169 | writing a file that is neither a directory nor below a file keeps the file system well formed |
| Files.EditKeepsValid | mini_projects/single-file-agent/agent.py:147-174 | no edit makes a well-formed file system ill formed |
| Files.ReadAfterCreate | mini_projects/single-file-agent/agent.py:163-171 | after a creating edit, reading the file gives new_text |
| Files.ReadAfterReplace | mini_projects/single-file-agent/agent.py:149-161 | after a replacing edit, reading the file gives the content with every occurrence replaced |
| Agent.ToolDispatch | mini_projects/single-file-agent/agent.py:96-113 | an unknown name gives "Unknown tool: name"; a missing required key gives "Error executing tool: 'key'"; list_files defaults to "."; edit_file defaults old_text to ""; only edit_file changes files |
| Agent.ToolKeepsValid | mini_projects/single-file-agent/agent.py:96-113 | no tool call makes a well-formed file system ill formed |
| Agent.AnswerCallsAppends | mini_projects/single-file-agent/agent.py:218-231 | the tool loop only appends: at most one tool message per call, in call order, each with its call's id |
| Agent.AnswerCallsStops | mini_projects/single-file-agent/agent.py:218-233 | the loop answers every call exactly when no arguments fail to decode; otherwise it stops at the first call whose arguments fail, with that decode error |
| Agent.AnswerCallsComplete | mini_projects/single-file-agent/agent.py:218-231 | when every call's arguments decode, the loop ends without failure |
| Agent.RoundAnswers | mini_projects/single-file-agent/agent.py:218-231 | a fully decoded round appends exactly one tool message per call, in order, with the call ids |
| Agent.AnswerCallsKeepsValid | mini_projects/single-file-agent/agent.py:218-231 | the tool loop keeps the file system well formed |
| Agent.ConverseExtends | mini_projects/single-file-agent/agent.py:199-233 | a chat never removes or rewrites a message: the conversation it started from is a prefix of the final one |
| Agent.ConverseKeepsValid | mini_projects/single-file-agent/agent.py:199-233 | a chat keeps the file system well formed |
| Agent.FinalReply | mini_projects/single-file-agent/agent.py:207-216 | a reply without tool calls is appended, its content is the answer and no tool runs |
| Agent.FailedCompletion | mini_projects/single-file-agent/agent.py:199-233 | a failed model call ends the chat with "[Error]: " and the error text, keeping every message |
| Agent.AppendUserKeepsSettled | mini_projects/single-file-agent/agent.py:179-184 | appending the user message keeps a conversation with every tool call answered in that state |
| Agent.AppendRoundKeepsSettled | mini_projects/single-file-agent/agent.py:207-231 | an assistant message followed by one answer per call, in order, keeps every tool call answered |
| Agent.ConverseSettles | mini_projects/single-file-agent/agent.py:176-233 | when every argument decodes, a chat started with every tool call answered ends with every tool call answered |
| Agent.DecodeFailureLeavesCallUnanswered | mini_projects/single-file-agent/agent.py:218-233 | for any conversation and reply: when some call's arguments fail to decode, the chat ends with "[Error]: " and the decode error, keeps the assistant message and the answers given before the bad call, and leaves that message with fewer answers than calls, so the conversation is not settled |
| Agent.OrphanSurvivesChat | mini_projects/single-file-agent/agent.py:179-233 | once an assistant message has fewer answers than calls, every later chat (user message first, then any replies) leaves its round interrupted by a non-tool message, and the conversation is never settled again |
| Agent.AIAgent.constructor | mini_projects/single-file-agent/agent.py:28-36 | the conversation starts as exactly the system message |
| Agent.AIAgent.ListFiles | mini_projects/single-file-agent/agent.py:126-145 | the loop over the sorted names gives the listing specified by ListFilesResult |
| Agent.AIAgent.EditFile | mini_projects/single-file-agent/agent.py:147-174 | the answer and the new file system are those of EditFileEffect; the conversation is unchanged |
| Agent.AIAgent.ExecuteTool | mini_projects/single-file-agent/agent.py:96-113 | the answer and the new file system are those of ToolEffect; the conversation is unchanged |
| Agent.AIAgent.Chat | mini_projects/single-file-agent/agent.py:176-233 | the user message is appended first; the conversation, the file system and the answer are then those of Converse over the replies |
| PromptChaining.ProcessCalendarRequest | ai_workflows/02-workflow_patterns/01_prompt_chaining.py:135-156 | the extraction step is always called first, with the user input |
| PromptChaining.GatePassesIff | ai_workflows/02-workflow_patterns/01_prompt_chaining.py:141-147 | a result comes back exactly when the extraction is an event with confidence at least 0.7 |
| PromptChaining.GateFailureCallsNothingElse | ai_workflows/02-workflow_patterns/01_prompt_chaining.py:141-152 | at a failed gate the result is None and neither parsing nor confirmation is called |
| PromptChaining.GatePassChains | ai_workflows/02-workflow_patterns/01_prompt_chaining.py:151-156 | past the gate, parsing gets the extraction's description, confirmation gets parsing's output and the confirmation is returned unchanged |
| PromptChaining.ThresholdIsInclusive | ai_workflows/02-workflow_patterns/01_prompt_chaining.py:141-144 | confidence exactly 0.7 passes the gate |
| Routing.NewEventResponse | ai_workflows/02-workflow_patterns/02_routing.py:104-108 | success, and a link that is "calendar://new?event=" followed by the event name |
| Routing.NewEventMessage | ai_workflows/02-workflow_patterns/02_routing.py:104-108 | the message is exactly: the opening with the name and date ending in " with ", then the participants joined by ", ", then ", expected to be of <duration> minutes." |
| Routing.ModifyEventResponse | ai_workflows/02-workflow_patterns/02_routing.py:134-138 | success, a link that is "calendar://modify?event=" followed by the identifier, and the message "Modified event '" + identifier + "'" |
| Routing.ProcessCalendarRequest | ai_workflows/02-workflow_patterns/02_routing.py:140-157 | the routing step is always called first, with the user input |
| Routing.LowConfidenceDropped | ai_workflows/02-workflow_patterns/02_routing.py:145-148 | below 0.7 the result is None and no handler is called |
| Routing.RoutesByLabel | ai_workflows/02-workflow_patterns/02_routing.py:150-156 | "new_event" calls only the new-event handler, "modify_event" only the modify handler, both with the routed description; any other label gives None |
| Routing.ResultIffHandled | ai_workflows/02-workflow_patterns/02_routing.py:140-157 | a response comes back exactly when a handler ran, and it reports success |
| Parallelization.VerdictFromLoggedCalls | ai_workflows/02-workflow_patterns/03_parallelization.py:75-87 | the verdict depends only on the two checks' answers for the logged calls, which are both about the user input: checks that agree there give the same result |
| Parallelization.ValidIff | ai_workflows/02-workflow_patterns/03_parallelization.py:83-94 | the request is valid exactly when it is a calendar request, its confidence exceeds 0.7 and it is safe |
| Parallelization.EitherCheckRejects | ai_workflows/02-workflow_patterns/03_parallelization.py:83-87 | an unsafe input or a failing calendar check is never valid |
| Parallelization.ThresholdIsStrict | ai_workflows/02-workflow_patterns/03_parallelization.py:85 | confidence exactly 0.7 is rejected |
| Parallelization.RiskFlagsIgnored | ai_workflows/02-workflow_patterns/03_parallelization.py:89-94 | the risk flags never change the verdict |
| Orchestrator.PutSemantics | ai_workflows/02-workflow_patterns/04_orchestrator.py:216 | `d[key] = value`: the key then holds the value, other keys keep theirs, an existing key keeps its place and a new key goes last |
| Orchestrator.PutKeepsDistinct | ai_workflows/02-workflow_patterns/04_orchestrator.py:216 | storing keeps the dict's keys distinct |
| Orchestrator.ContextLayout | ai_workflows/02-workflow_patterns/04_orchestrator.py:146-151 | the context shows every stored section in insertion order as "=== type ===\ncontent", with "\n" between consecutive entries, and the last entry ends the context |
| Orchestrator.NoteFirstIffEmpty | ai_workflows/02-workflow_patterns/04_orchestrator.py:162 | the note is "This is the first section." exactly when nothing is stored, and "Previous sections:" + context otherwise |
| Orchestrator.ReviewLayout | ai_workflows/02-workflow_patterns/04_orchestrator.py:176-181 | the reviewer's text shows every stored section in insertion order as "##type\ncontent", with "\n\n" between consecutive entries, and the last entry ends the text |
| Orchestrator.WriteSectionsCalls | ai_workflows/02-workflow_patterns/04_orchestrator.py:213-216 | the worker is called exactly once per planned section, in plan order, with the topic |
| Orchestrator.WriteSectionsKeys | ai_workflows/02-workflow_patterns/04_orchestrator.py:213-216 | the dict is not reset: sections stored before keep their place, and every planned type ends up stored |
| Orchestrator.WriteSectionsOnlyPlanned | ai_workflows/02-workflow_patterns/04_orchestrator.py:213-216 | afterwards the dict holds only the keys stored before and the planned types |
| Orchestrator.WriteSectionsDistinct | ai_workflows/02-workflow_patterns/04_orchestrator.py:213-216 | storing a section under a type already present overwrites it in place, so the dict's keys stay distinct |
| Orchestrator.WriteSectionsLastWins | ai_workflows/02-workflow_patterns/04_orchestrator.py:213-216 | after the loop a planned type holds what the worker wrote for its last planned section, given that worker's note |
| Orchestrator.WriteSectionsUntouched | ai_workflows/02-workflow_patterns/04_orchestrator.py:213-216 | a type the loop does not plan keeps the value it had before the loop |
| Orchestrator.WorkerNote | ai_workflows/02-workflow_patterns/04_orchestrator.py:143-162 | worker k is given the note on the dict as the first k sections left it, so it sees every section written before it |
| Orchestrator.FirstWorkerNote | ai_workflows/02-workflow_patterns/04_orchestrator.py:162 | starting from an empty dict, the first worker is told it writes the first section |
| Orchestrator.BlogOrchestrator.constructor | ai_workflows/02-workflow_patterns/04_orchestrator.py:118-119 | the dict starts empty |
| Orchestrator.BlogOrchestrator.GetOrchestratorPlan | ai_workflows/02-workflow_patterns/04_orchestrator.py:122-140 | one planner call with the topic, length and style; the plan is its answer; the dict is unchanged |
| Orchestrator.BlogOrchestrator.WriteSection | ai_workflows/02-workflow_patterns/04_orchestrator.py:143-171 | one worker call with the topic, the section and the note on the dict as it is; the dict is unchanged |
| Orchestrator.BlogOrchestrator.ReviewBlogPost | ai_workflows/02-workflow_patterns/04_orchestrator.py:174-199 | one reviewer call with the topic, the plan's audience and the text of every stored section; the dict is unchanged |
| Orchestrator.BlogOrchestrator.WriteAllSections | ai_workflows/02-workflow_patterns/04_orchestrator.py:213-216 | the loop leaves the dict and the calls that WriteSections specifies |
| Orchestrator.BlogOrchestrator.WriteBlog | ai_workflows/02-workflow_patterns/04_orchestrator.py:202-229 | one planner call, the worker calls of the loop, one reviewer call over the filled dict; the post carries the plan, the dict and the review unchanged |
| TextUtils.NormalizeNewlines | mini_projects/reflective_research_agent/src/utils.py:40 | no carriage return is left, and every other character is a line feed or comes from the input |
| TextUtils.CollapseBlanks | mini_projects/reflective_research_agent/src/utils.py:41 | no tab is left and no two spaces are adjacent; the result is empty only for the empty input |
| TextUtils.SqueezeNewlines | mini_projects/reflective_research_agent/src/utils.py:42 | every character comes from the input, which is empty only when the result is, with the same first character |
| TextUtils.SqueezeNewlinesShape | mini_projects/reflective_research_agent/src/utils.py:42 | no run of three line feeds is left, and no two adjacent spaces are created |
| TextUtils.StripKeepsShape | mini_projects/reflective_research_agent/src/utils.py:43 | the final strip keeps those properties and leaves no whitespace at either end |
| TextUtils.CleanText | mini_projects/reflective_research_agent/src/utils.py:38-43 | no "\r", no tab, no two adjacent spaces, no run of three line feeds and no whitespace at either end |
| TextUtils.CleanTextJoinsHyphenation | mini_projects/reflective_research_agent/src/utils.py:39 | a word broken by a hyphen at a line end is joined: "a-\nb" becomes "ab" |
| TextUtils.CleanTextKeepsHyphenBeforeCrLf | mini_projects/reflective_research_agent/src/utils.py:39-40 | a hyphen before "\r\n" is kept by one cleaning and joined by a second, so cleaning is not idempotent |
| TextUtils.TextWithoutSpecialsIsClean | mini_projects/reflective_research_agent/src/utils.py:38-43 | a text with nothing for any rewrite to do is its own clean form |
| TextUtils.ReplaceUnsafeRuns | mini_projects/reflective_research_agent/src/utils.py:49 | only characters of `[A-Za-z0-9._-]` are left |
| TextUtils.SafeNameUnchanged | mini_projects/reflective_research_agent/src/utils.py:49 | a name of allowed characters only is left as it is |
| TextUtils.SafeFilename | mini_projects/reflective_research_agent/src/utils.py:46-52 | only allowed characters; ends with ".pdf" in any case; ".pdf" is appended exactly when the sanitised name did not already end that way |
| TextUtils.SafeFilenameIdempotent | mini_projects/reflective_research_agent/src/utils.py:46-52 | a safe name is its own safe name |
| TextUtils.EnsurePdfUrl | mini_projects/reflective_research_agent/src/utils.py:55-62 | the result ends with ".pdf"; an upgraded URL with "/pdf/" already ending with ".pdf" is returned as is; otherwise "/abs/" becomes "/pdf/" and ".pdf" is appended when missing |
| TextUtils.UpgradeLeavesNoHttp | mini_projects/reflective_research_agent/src/utils.py:56 | after the scheme upgrade no "http://" is left anywhere |
| TextUtils.EnsurePdfUrlOnAbstractPage | mini_projects/reflective_research_agent/src/utils.py:55-62 | "http://host/abs/id" becomes "https://host/pdf/id.pdf" |
| TextUtils.DropOpeningFence | mini_projects/reflective_research_agent/src/utils.py:109 | removing the opening fence leaves a suffix of the text, shorter by at least the three backticks |
| TextUtils.OpeningFenceDropped | mini_projects/reflective_research_agent/src/utils.py:109 | the fence, a letters-only language tag and the line feed after it are removed |
| TextUtils.ClosingFenceDropped | mini_projects/reflective_research_agent/src/utils.py:110 | a closing fence and the line feed before it are removed |
| TextUtils.CleanJsonBlock | mini_projects/reflective_research_agent/src/utils.py:106-111 | the result neither starts nor ends with a backtick, a space or a line feed |
| TextUtils.CleanJsonBlockUnfences | mini_projects/reflective_research_agent/src/utils.py:106-111 | a fenced block with a language tag gives back exactly its body |
| ResearchTools.NonEmptyNames | mini_projects/reflective_research_agent/src/research_tools.py:61-65 | the authors are exactly the non-empty names |
| ResearchTools.NonEmptyNamesAppend | mini_projects/reflective_research_agent/src/research_tools.py:61-65 | keeping names distributes over concatenation, so the order is kept |
| ResearchTools.CollectAuthors | mini_projects/reflective_research_agent/src/research_tools.py:61-65 | the author loop gives the non-empty names in order |
| ResearchTools.FirstPdfLink | mini_projects/reflective_research_agent/src/research_tools.py:67-71 | the index of the first link titled "pdf": none before it is, and it is when it exists |
| ResearchTools.FindPdfLink | mini_projects/reflective_research_agent/src/research_tools.py:67-71 | the link loop gives the href of the first link titled "pdf", or None |
| ResearchTools.LinkPdfChoice | mini_projects/reflective_research_agent/src/research_tools.py:67-73 | link_pdf is the first "pdf" link's address when it has one; else ensure_pdf_url of a non-empty id, ending with ".pdf"; it is missing only when there is neither |
| ResearchTools.Tokens | mini_projects/reflective_research_agent/src/research_tools.py:104 | `split()` gives non-empty tokens with no whitespace in them |
| ResearchTools.MaxLength | mini_projects/reflective_research_agent/src/research_tools.py:103-105 | the longest token's length: no token is longer and some token has it; 0 without tokens |
| ResearchTools.AtLeastOne | mini_projects/reflective_research_agent/src/research_tools.py:109 | `max(1, letters)` is at least 1 and equals the count when that is positive |
| ResearchTools.SparseSpacesInIntegers | mini_projects/reflective_research_agent/src/research_tools.py:109 | the ratio test `spaces / max(1, letters) < 0.03` is the integer test 100 * spaces < 3 * max(1, letters) |
| ResearchTools.LooksUnreadableIsRatioTest | mini_projects/reflective_research_agent/src/research_tools.py:107-111 | the unreadable test is exactly letters > 120, the ratio test and a longest token over 80 |
| ResearchTools.Snippet | mini_projects/reflective_research_agent/src/research_tools.py:100 | the snippet has at most 5000 characters and no whitespace at either end |
| ResearchTools.TextFieldsExcerpt | mini_projects/reflective_research_agent/src/research_tools.py:95-118 | an excerpt is set exactly when the cleaned text is not empty; a warning exactly when the snippet looks unreadable, and then the excerpt is the abstract |
| ResearchTools.TextFieldsSnippet | mini_projects/reflective_research_agent/src/research_tools.py:100-118 | otherwise the excerpt is the snippet, not empty, at most 5000 characters, with no whitespace at either end |
| ResearchTools.PdfOutcomeCases | mini_projects/reflective_research_agent/src/research_tools.py:84-120 | nothing without a link; only the fetch error when the download raised; nothing for empty bytes; only the extraction error when extraction raised; otherwise the excerpt rule |
| ResearchTools.PdfOutcomeExclusive | mini_projects/reflective_research_agent/src/research_tools.py:84-120 | at most one of fetch error, extraction error and excerpt is set |
| ResearchTools.PaperFields | mini_projects/reflective_research_agent/src/research_tools.py:49-82 | the stripped title and abstract, at most 10 characters of the date, the non-empty authors, the id and the PDF link |
| ResearchTools.SetExcerpt | mini_projects/reflective_research_agent/src/research_tools.py:95-118 | the text branch sets the keys of the excerpt rule |
| ResearchTools.AttachPdf | mini_projects/reflective_research_agent/src/research_tools.py:84-120 | the fetch and text branches set the keys PdfOutcome specifies |
| ResearchTools.BuildPaper | mini_projects/reflective_research_agent/src/research_tools.py:49-120 | the loop body builds the record PaperRecord specifies |
| ResearchTools.BuildPapers | mini_projects/reflective_research_agent/src/research_tools.py:48-123 | one record per entry, in entry order |
| ResearchTools.ArxivSearch | mini_projects/reflective_research_agent/src/research_tools.py:37-127 | a failed request or XML parse gives one error record; otherwise one paper record per entry, in order |
| ResearchTools.TavilyRecords | mini_projects/reflective_research_agent/src/research_tools.py:157-171 | one hit per result, in order, with "" for missing keys, then the images only when they were asked for |
| ResearchTools.TavilySearch | mini_projects/reflective_research_agent/src/research_tools.py:146-174 | a missing API key raises; a failing search gives one error record; otherwise the records of the response |
| ResearchTools.WikipediaSearch | mini_projects/reflective_research_agent/src/research_tools.py:179-197 | exactly one record: the article when search, page and summary all succeed, otherwise the error of the first step that failed |
| Strings.ContainsIffOccurs | mini_projects/single-file-agent/agent.py:153 | `sub in s` holds exactly when `sub` occurs at some index of `s` |
| Strings.ReplaceIsJoinOfSplit | mini_projects/single-file-agent/agent.py:156 | `s.replace(old, new)` is `new.join(s.split(old))` |
| Strings.ReplaceAbsent | mini_projects/single-file-agent/agent.py:156 | replacing a text that does not occur changes nothing |
| Strings.ReplaceBySelf | mini_projects/single-file-agent/agent.py:156 | replacing a text by itself changes nothing |
| Strings.JoinSplit | mini_projects/single-file-agent/agent.py:156 | joining the pieces of a split with the separator gives the string back |
| Strings.JoinPart | ai_workflows/02-workflow_patterns/04_orchestrator.py:146-151 | each part of a join occurs where it starts, a separator follows every part but the last, and the last part ends the string |
| Strings.StripBySlice | mini_projects/reflective_research_agent/src/utils.py:43 | `strip` keeps a slice that neither starts nor ends with whitespace and cuts only whitespace |
| Strings.Take | mini_projects/reflective_research_agent/src/research_tools.py:52-54 | `s[:n]` is a prefix of length min(n, len(s)) |
| Strings.AsciiLower | mini_projects/reflective_research_agent/src/utils.py:50 | same length and no upper-case ASCII letter left |
| Strings.NatToStringRoundTrip | ai_workflows/02-workflow_patterns/02_routing.py:106 | the decimal text of a number reads back as that number |
| Strings.SortedElements | mini_projects/single-file-agent/agent.py:132 | `sorted` of a set lists each element once, in strictly increasing order |
| Strings.SortedEnumerationUnique | mini_projects/single-file-agent/agent.py:132 | any strictly increasing enumeration of the set is the sorted one |

## Left out

- The model calls are functions given to the model, not the OpenAI client; prompt templates are reduced to the fields they are formatted with, and schema parsing of replies is not modelled.
- Agent.AIAgent.Chat: the replies are a finite script given to `chat`, so the model ends with `ScriptExhausted` where the source would keep asking; the source's `while True` has no bound.
- `json.loads` of tool arguments and `json.dumps` of tool results are functions the agent is constructed with; arguments are maps from strings to strings, so a non-string argument value is not modelled.
- Files.ErrorText: the texts of OS errors follow CPython's "[Errno n] ...: 'path'" format. An edit of a path through a file answers "Not a directory" for the edited path in the model. The source's `os.makedirs` differs in two ways. When the file is the direct parent ("f.txt/x", or "f.txt/" in directory form), it reports "[Errno 17] File exists" for that parent. When the file lies further up ("f.txt/a/b"), it reports "[Errno 20] Not a directory" for the first directory it tries to make below the file ("f.txt/a"), not for the edited path.
- Path strings are resolved by splitting at "/" and dropping empty and "." components. A trailing "/" or "/." is kept as the directory form. "..", absolute paths, symbolic links, permissions and encodings are not modelled.
- The tool declarations (`_setup_tools`) and their schemas are static data and are not modelled.
- Logging, `print`, the interactive `__main__` loops and demo invocations are left out.
- The concurrency of `asyncio.gather` in the parallel validator is not modelled; the two checks are recorded as a multiset of calls.
- Confidence and cohesion scores are reals; `cohesion_score` is never inspected by the code and is carried as it is.
- The HTTP session and its retry policy (`build_session`), `fetch_pdf_bytes`, `pdf_bytes_to_text`, `maybe_save_pdf`, the ElementTree parsing and the Tavily and Wikipedia clients are left out; their outcomes are inputs (the parsed feed, the download and extraction functions, the search responses).
- ResearchTools.ArxivSearch: the final "Unexpected error" branch is not modelled, because every modelled step is total and only failures of left-out code could reach it; the query and max_results only shape the left-out HTTP request.
- ResearchTools.LooksUnreadable: `str.isalpha` is a parameter, because Unicode letter classification is not modelled.
- The module flags of `arxiv_search_tool` are constants of the source; the branches they switch off (`_SAVE_FULL_TEXT`) are not modelled, and the one-second sleep is left out.
- Strings.AsciiLower: lower-casing is exact only for ASCII, which is all `_safe_filename` feeds it after sanitising.
- `ai_workflows/01-basics`, `agentic_ai/01_basics.py` and `tool_map.py` are not part of this model: they are demo scripts and declaration tables without decision logic.
