# GitHub Tools Hub — a Dafny model of its page logic

GitHub Tools Hub is a React application. Each page asks GitHub's REST API for
a user's or a repository's data, sends a summary to a generative model, and
shows what comes back. This project models the deterministic logic on those
pages:

- **Clean-up and validation of model replies.** The regex
  `/```json\s*|\s*```/g` removes fence markers. The coding-challenge and
  codebase-visualizer pages also map smart quotes. Every page then trims,
  parses the text, and checks a list of required fields by JavaScript
  truthiness. This is in `cleanup.dfy`, `validation.dfy` and `json.dfy`.
- **State updates of the pages.** These cover:
  - the input guards and resets of the challenge, visualizer and chatbot
    pages;
  - the error order of the resume, learning-path and documentation
    pages;
  - the chatbot's bounded conversation history (`saveChatHistory` upserts an
    entry) and its message log.

  Each page is a `class` whose methods change its fields.
- **List and string helpers:**
  - owner and repository from a URL path;
  - `processMarkdown`;
  - the five largest files;
  - the PDF section classifier and its integer page cursor;
  - the repository-tree flattening;
  - the diagram-view selection;
  - language de-duplication (the insertion order of a JavaScript `Set`)
    and the star sum;
  - the six-repository prefix;
  - the portfolio's file map and its HTML and Markdown templates;
  - the `ReadMore` truncation.

Network calls, the model call, `JSON.parse`, `atob`, `new URL`, clocks and
`splitTextToSize` are parameters. Each one is an optional value, a `Result`,
or a function value. `JSON.parse` is an uninterpreted `string -> Result<Json>`.

Modules, one per file:
- `Wrappers`: `Option` and `Result`.
- `Json`: parsed values, property reads and truthiness.
- `Text`: `trim`, `split`, `join`, `replace` and `String(n)`.
- `Cleanup`: the clean-up chain.
- `Validation`: the required-field filter.
- `GitHub`: the token lookup, the insertion-ordered set, the profile
  aggregation loop, and owner/repo extraction.
- `Template`: template literals and reading them back.
- One module per page or service: `Challenge`, `Visualizer`, `Resume`,
  `Learning`, `Chatbot`, `DocGen`, `Portfolio`.

Behaviours of the code that the model keeps:
- The clean-up is not idempotent. A backtick, a space, a line break and five
  backticks clean to three backticks, and those clean to the empty string
  (`Cleanup.CleanNotIdempotentExample`).
- Missing fields are reported in declared order, not sorted.
- An empty array or object counts as present.
- When whitespace comes before an opening fence, the `json` tag survives
  (`Cleanup.LeadingWhitespaceExample`).

## Model

| member | source | states |
|---|---|---|
| Json.Member | src/pages/ChallengeGeneratorPage.tsx:137-138 | a property read gives a value exactly when some member has that key, and then it is that member's value |
| Json.Get | src/pages/ChallengeGeneratorPage.tsx:137-138 | reading a property fails exactly on `null`, with V8's message; only an object yields a defined member |
| Json.Truthy | src/pages/ChallengeGeneratorPage.tsx:137-138 | defines JavaScript truthiness: `undefined`, `null`, `false`, `0` and `""` are falsy, all else truthy |
| Json.OrElse | src/pages/CodebaseVisualizerPage.tsx:103-104 | `a \|\| b` is `a` when `a` is truthy and `b` otherwise |
| Json.Entries | src/pages/DocGeneratorPage.tsx:145-146 | `Object.entries` lists an object's members in order, one entry per array item or string character, and nothing for other values |
| Json.Keys | src/pages/ChallengeGeneratorPage.tsx:72 | `Object.keys` gives the keys of the entries, in order; the same read is at src/pages/LearningPathPage.tsx line 85 and checks the dependency object built at src/pages/CodebaseVisualizerPage.tsx lines 102-105 |
| Text.IsSpace | src/pages/ChallengeGeneratorPage.tsx:131 | defines the whitespace set that `trim` and `\s` share, ECMAScript's WhiteSpace and LineTerminator characters; `Text.LeadingSpaces`, `Text.TrailingSpaces` and the fence regex of `Cleanup` are stated over it |
| Text.LeadingSpaces | src/pages/ChallengeGeneratorPage.tsx:131 | the whitespace run at the front is maximal |
| Text.TrailingSpaces | src/pages/ChallengeGeneratorPage.tsx:131 | the whitespace run at the end is maximal |
| Text.Trim | src/pages/ChallengeGeneratorPage.tsx:131 | `trim` gives text no longer than the input after its leading whitespace, which neither starts nor ends with whitespace |
| Text.TrimInside | src/pages/ChallengeGeneratorPage.tsx:131 | the trimmed text is the slice of the input that starts after its leading whitespace |
| Text.TrimEmpty | src/pages/ChallengeGeneratorPage.tsx:88 | a string trims to empty exactly when it is all whitespace |
| Text.TrimChars | src/pages/ChallengeGeneratorPage.tsx:131 | trimming adds no character |
| Text.TrimNoop | src/pages/ChallengeGeneratorPage.tsx:131 | a string with no whitespace at either end is its own trim |
| Text.LeadingSpacesAreSpaces | src/pages/ChallengeGeneratorPage.tsx:131 | every character of the leading run is whitespace |
| Text.TrailingSpacesAreSpaces | src/pages/ChallengeGeneratorPage.tsx:131 | every character of the trailing run is whitespace |
| Text.Split | src/pages/DocGeneratorPage.tsx:362 | `split` with a non-empty separator gives at least one piece |
| Text.JoinSplit | src/pages/DocGeneratorPage.tsx:362-368 | joining the pieces of a split with the same separator gives back the input |
| Text.SplitPiecesAvoidSeparator | src/pages/CodebaseVisualizerPage.tsx:78 | no piece of a one-character split contains the separator |
| Text.SplitWithout | src/pages/CodebaseVisualizerPage.tsx:78 | a text without the separator is a single piece |
| Text.SplitAfterPiece | src/pages/CodebaseVisualizerPage.tsx:78 | a separator-free piece followed by the separator is split off first |
| Text.SplitJoin | src/pages/LearningPathPage.tsx:152-162 | splitting a join of separator-free parts gives back the parts |
| Text.SplitJoinThen | src/pages/LearningPathPage.tsx:152-162 | splitting a join, then the separator and more text, gives the parts followed by the pieces of the rest |
| Text.Join | src/pages/DocGeneratorPage.tsx:368 | defines `join(sep)`: the parts with `sep` between neighbours; proved in `Text.JoinSplit`, `Text.SplitJoin`, `Text.JoinAppend` and `Text.JoinAvoids` |
| Text.JoinAppend | src/services/portfolioBuilderService.ts:101 | a join of two non-empty lists is the two joins with one separator between them |
| Text.JoinAvoids | src/services/portfolioBuilderService.ts:101 | a join contains no character that neither the parts nor the separator contain |
| Text.LastPiece | src/pages/DocGeneratorPage.tsx:242 | `split(c).pop()` is the last piece: a suffix without `c`, preceded by `c` unless it is the whole text |
| Text.LastPieceIsSuffix | src/pages/DocGeneratorPage.tsx:242 | the last piece of a split is a suffix of the text without the separator |
| Text.StartsWith | src/pages/DocGeneratorPage.tsx:270-291 | defines `startsWith`, as the tests at lines 270, 277, 291 and 364 use it; the lemmas `DocGen.KindOfCases` and `DocGen.StarAfterSpaces` rest on it |
| Text.EndsWith | src/pages/DocGeneratorPage.tsx:270 | defines `endsWith`, as the heading test uses it; the lemma `DocGen.KindOfCases` rests on it |
| Text.RemoveFirst | src/pages/DocGeneratorPage.tsx:365 | `replace('*', '')` never lengthens the text |
| Text.RemoveFirstAt | src/pages/DocGeneratorPage.tsx:365 | `replace('*', '')` cuts out exactly the first `*` |
| Text.RemoveAll | src/pages/DocGeneratorPage.tsx:274-295 | the global deletes `replace(/\*\*/g, '')` (line 274) and `replace(/```/g, '')` (line 295) never lengthen the text |
| Text.DecimalString | src/pages/DocGeneratorPage.tsx:145-146 | the index keys `Object.entries` gives the items of an array or the characters of a string are their positions in decimal: a non-empty run of digits |
| Cleanup.MatchAt | src/pages/ChallengeGeneratorPage.tsx:128 | a match of the fence regex is empty or at least three characters long, and nothing matches without a backtick |
| Cleanup.StripFences | src/pages/ChallengeGeneratorPage.tsx:128 | the global replace never lengthens its input |
| Cleanup.StripFencesChars | src/pages/ChallengeGeneratorPage.tsx:128 | stripping only deletes characters |
| Cleanup.StripFencesNoBacktick | src/pages/ChallengeGeneratorPage.tsx:128 | a text without a backtick is left unchanged |
| Cleanup.StripFencesShort | src/pages/ChallengeGeneratorPage.tsx:128 | a text shorter than a marker is left unchanged |
| Cleanup.ReplaceChars | src/pages/ChallengeGeneratorPage.tsx:129-130 | a character-class replace maps each character on its own and keeps the length |
| Cleanup.MapQuotes | src/pages/ChallengeGeneratorPage.tsx:129-130 | the two smart-quote replaces keep the length |
| Cleanup.MapQuotesChars | src/pages/ChallengeGeneratorPage.tsx:129-130 | double smart quotes become `"`, single ones `'`, and every other character is kept, index by index |
| Cleanup.Clean | src/pages/ChallengeGeneratorPage.tsx:127-131 | defines the clean-up chain: fence stripping, optional quote mapping, then trim; its properties are the `Cleanup` lemmas around it |
| Cleanup.MapQuotesNoQuotes | src/pages/ChallengeGeneratorPage.tsx:129-130 | a text without smart quotes is left unchanged |
| Cleanup.NoSmartQuotesAfterClean | src/pages/ChallengeGeneratorPage.tsx:127-131 | no smart quotation mark survives the clean-up with quote mapping |
| Cleanup.CleanWithoutBackticks | src/pages/ChallengeGeneratorPage.tsx:127-131 | without a backtick the clean-up is the quote mapping (if any) followed by `trim` |
| Cleanup.CleanShrinks | src/pages/ChallengeGeneratorPage.tsx:127-131 | the clean-up never lengthens its input |
| Cleanup.MarkersOnlyRemoved | src/pages/ChallengeGeneratorPage.tsx:128 | text before a closing marker is kept; only the marker and the whitespace before it are deleted |
| Cleanup.ClosingStrip | src/pages/ChallengeGeneratorPage.tsx:128 | whitespace and a closing marker are deleted as one match |
| Cleanup.ClosingMarker | src/pages/ChallengeGeneratorPage.tsx:128 | the second alternative matches the whitespace and the three backticks |
| Cleanup.OpeningMarker | src/pages/ChallengeGeneratorPage.tsx:128 | the first alternative matches "```json" and the whole whitespace run after it |
| Cleanup.StripOpened | src/pages/ChallengeGeneratorPage.tsx:128 | an opening marker and its whitespace are deleted as one match |
| Cleanup.FencedBlock | src/pages/ChallengeGeneratorPage.tsx:127-131 | a single fenced block cleans to its body, with or without quote mapping |
| Cleanup.StripFencedBlock | src/pages/ChallengeGeneratorPage.tsx:128 | stripping a single fenced block leaves exactly its body |
| Cleanup.StripEmptyBlock | src/pages/ChallengeGeneratorPage.tsx:128 | a block with an empty body strips to nothing |
| Cleanup.MarkersClose | src/pages/ChallengeGeneratorPage.tsx:128 | a body, whitespace and a final closing marker strip to the body |
| Cleanup.FencedJsonExample | src/pages/ChallengeGeneratorPage.tsx:128 | "```json\n{\"a\":1}\n```" cleans to `{"a":1}` |
| Cleanup.TagSurvivesAfterWhitespace | src/pages/ChallengeGeneratorPage.tsx:128 | with whitespace before an opening fence, the bare marker alternative matches first and the `json` tag is kept |
| Cleanup.StripTag | src/pages/ChallengeGeneratorPage.tsx:128 | whitespace and "```" are stripped, leaving `json` and the body |
| Cleanup.LeadingWhitespaceExample | src/pages/ChallengeGeneratorPage.tsx:128 | "\n```json\n{}" cleans to "json\n{}" |
| Cleanup.LoneBacktick | src/pages/ChallengeGeneratorPage.tsx:128 | a single backtick followed by whitespace starts no match |
| Cleanup.CleanNotIdempotent | src/pages/ChallengeGeneratorPage.tsx:127-131 | a lone backtick, whitespace and five backticks clean to "```", which cleans to "" |
| Cleanup.CleanNotIdempotentExample | src/pages/ChallengeGeneratorPage.tsx:127-131 | "` \n`````" cleans to "```", and that cleans to "" |
| Cleanup.CleanFenceAlone | src/pages/ChallengeGeneratorPage.tsx:127-131 | a bare marker cleans to "" |
| Cleanup.SmartQuoteSurvivesFenceOnlyClean | src/pages/ResumeGeneratorPage.tsx:176 | without quote mapping, U+201C and U+201D pass through the clean-up |
| Cleanup.SmartQuoteFenceOnly | src/pages/ResumeGeneratorPage.tsx:176 | the fence-only clean-up leaves a trimmed text without backticks as it is |
| Validation.MissingFields | src/pages/ChallengeGeneratorPage.tsx:137-138 | the missing fields are exactly the required names whose value is falsy, in declared order; on `null` the first read throws |
| Validation.Validate | src/pages/ChallengeGeneratorPage.tsx:133-150 | a result is accepted only with the parsed value, and every rejection carries the single generic message |
| Validation.ValidateAccepts | src/pages/ChallengeGeneratorPage.tsx:133-150 | a reply is accepted exactly when it parses, is not `null`, and no required field is missing |
| Validation.TruthinessOfFields | src/pages/ChallengeGeneratorPage.tsx:137-138 | an empty array counts as present; `0` and an absent member count as missing |
| Validation.NonObjectMissesAll | src/pages/ChallengeGeneratorPage.tsx:137-138 | a value that is neither an object nor `null` is missing every field |
| Validation.SubsequenceTail | src/pages/ChallengeGeneratorPage.tsx:137-138 | dropping the first element keeps an order-preserving sub-list |
| Validation.SubsequenceCons | src/pages/ChallengeGeneratorPage.tsx:137-138 | a sub-list stays one when an element is put in front of the list |
| GitHub.FetchToken | src/pages/ChallengeGeneratorPage.tsx:33-45 | the token comes from the stored row only when a user is signed in; otherwise "Not authenticated", then "GitHub token not found" |
| GitHub.FirstIndex | src/pages/ChallengeGeneratorPage.tsx:56-84 | the first position holding an element |
| GitHub.Dedup | src/pages/ChallengeGeneratorPage.tsx:56-84 | defines the insertion-ordered set; proved in the `GitHub.Dedup…` lemmas |
| GitHub.DedupMembers | src/pages/ChallengeGeneratorPage.tsx:56-84 | a `Set` holds exactly the elements added to it |
| GitHub.DedupDistinct | src/pages/ChallengeGeneratorPage.tsx:56-84 | a `Set` holds each element once |
| GitHub.DedupFirstSeen | src/pages/ChallengeGeneratorPage.tsx:56-84 | a `Set` lists its elements in order of first addition |
| GitHub.DedupSnoc | src/pages/ChallengeGeneratorPage.tsx:56-84 | `add` appends an element that is new and ignores one already there |
| GitHub.DedupAppend | src/pages/LearningPathPage.tsx:81-87 | adding several elements one after another is adding them to the set built so far |
| GitHub.DedupOfDistinct | src/pages/ChallengeGeneratorPage.tsx:56-84 | a list without repetitions is its own set |
| GitHub.DedupIdempotent | src/pages/ChallengeGeneratorPage.tsx:56-84 | re-adding a set's elements changes nothing |
| GitHub.FirstIndexPrefix | src/pages/ChallengeGeneratorPage.tsx:56-84 | appending does not move an earlier first occurrence |
| GitHub.FirstIndexLast | src/pages/ChallengeGeneratorPage.tsx:56-84 | a new last element first occurs at the end |
| GitHub.LanguageOf | src/pages/ChallengeGeneratorPage.tsx:60-62 | a repository adds at most one language, and only a truthy one |
| GitHub.DependenciesOf | src/pages/ChallengeGeneratorPage.tsx:62-77 | defines one repository's manifest read (also at src/pages/LearningPathPage.tsx lines 75-90): the keys of a truthy `dependencies`, and nothing when the read fails; proved in `GitHub.StackTechnologies` and `GitHub.UnreadableManifestAddsNothing` |
| GitHub.Gather | src/pages/ChallengeGeneratorPage.tsx:56-84 | defines what the loop collects, with repetitions; proved in `GitHub.GatherSnoc` and `GitHub.GatherMembers` |
| GitHub.StackOf | src/pages/ChallengeGeneratorPage.tsx:56-84 | defines the profile: a `null` repository fails with "Cannot read properties of null (reading 'language')"; otherwise the distinct languages, the distinct dependency names and the count; proved in `Learning.PathStack` |
| GitHub.GatherSnoc | src/pages/ChallengeGeneratorPage.tsx:56-84 | one more repository appends what it yields |
| GitHub.GatherMembers | src/pages/ChallengeGeneratorPage.tsx:56-84 | an element is gathered exactly when some repository yields it |
| GitHub.AddAll | src/pages/LearningPathPage.tsx:84-86 | `forEach(add)` leaves the set of everything added so far plus the new names |
| GitHub.LanguageStep | src/pages/ChallengeGeneratorPage.tsx:60-62 | one repository's step on the language set |
| GitHub.AnalyzeStack | src/pages/ChallengeGeneratorPage.tsx:56-84 | the loop with its two sets computes exactly the profile of the repositories |
| GitHub.AnalyzeRepo | src/pages/ChallengeGeneratorPage.tsx:58-83 | the loop body extends both sets by one repository's language and dependency names |
| GitHub.StackLanguages | src/pages/ChallengeGeneratorPage.tsx:56-84 | the languages are exactly the truthy `language` values, each once, and the count is the number of repositories |
| GitHub.UnreadableManifestAddsNothing | src/pages/LearningPathPage.tsx:71-91 | a repository whose manifest cannot be read adds no dependency name and does not stop the loop |
| GitHub.StackTechnologies | src/pages/LearningPathPage.tsx:81-87 | the technologies are the union of the dependency keys of the readable manifests, each once |
| GitHub.NonEmpty | src/pages/CodebaseVisualizerPage.tsx:78 | `filter(Boolean)` keeps only non-empty pieces of the input |
| GitHub.PathSegments | src/pages/CodebaseVisualizerPage.tsx:78 | the segments are non-empty and contain no `/` |
| GitHub.PathSegmentsConcat | src/pages/CodebaseVisualizerPage.tsx:78 | the segments, read in order, are the path with its slashes deleted |
| GitHub.NonEmptyConcat | src/pages/CodebaseVisualizerPage.tsx:78 | dropping empty pieces does not change their concatenation |
| GitHub.SplitConcat | src/pages/CodebaseVisualizerPage.tsx:78 | the pieces of a split on `/` concatenate to the path without slashes |
| GitHub.OwnerAndRepo | src/pages/CodebaseVisualizerPage.tsx:78-80 | fewer than two segments gives "Invalid repository URL"; otherwise owner and repository are the first two segments and extra ones are ignored |
| GitHub.AnalyzeProfile | src/pages/ChallengeGeneratorPage.tsx:47-85 | the token error, then "Failed to fetch repositories", then the profile of the repositories |
| Challenge.ParseChallenge | src/pages/ChallengeGeneratorPage.tsx:126-150 | an accepted challenge is what the cleaned reply parses to; every failure is "Failed to parse challenge data. Please try again." |
| Challenge.ChallengeAccepted | src/pages/ChallengeGeneratorPage.tsx:133-150 | a reply is accepted exactly when its cleaned text parses to a non-null value with none of the eight fields missing |
| Challenge.ChallengeMissingFields | src/pages/ChallengeGeneratorPage.tsx:137-138 | a field is reported missing exactly when it is falsy, in declared order |
| Challenge.ChallengeResult | src/pages/ChallengeGeneratorPage.tsx:98-150 | defines the pipeline as one value: the token lookup, the repository fetch, the profile, the reply and its parse; its cases are proved in `Challenge.ChallengeResultCases` |
| Challenge.ChallengeResultCases | src/pages/ChallengeGeneratorPage.tsx:98-155 | a challenge is produced only from a reply that parsed and passed validation, and each failure keeps its own message |
| Challenge.RunChallenge | src/pages/ChallengeGeneratorPage.tsx:98-150 | the steps, one after another, compute the pipeline's result |
| Challenge.ChallengePage.constructor | src/pages/ChallengeGeneratorPage.tsx:26-31 | the page opens empty, with no challenge and no solution |
| Challenge.ChallengePage.Show | src/pages/ChallengeGeneratorPage.tsx:151-155 | the outcome sets either the challenge or the error, and loading ends |
| Challenge.ChallengePage.GenerateChallenge | src/pages/ChallengeGeneratorPage.tsx:87-156 | a blank username only sets "Please enter a GitHub username"; otherwise the challenge and solution are reset and the result or its error is shown |
| Visualizer.ParseVisualization | src/pages/CodebaseVisualizerPage.tsx:149-173 | an accepted visualization is what the cleaned reply parses to; every failure is "Failed to parse visualization data. Please try again." |
| Visualizer.VisualizationAccepted | src/pages/CodebaseVisualizerPage.tsx:156-173 | accepted exactly when the cleaned reply parses to a non-null value with flowchart, dependencies, structure and summary all truthy |
| Visualizer.DiagramField | src/pages/CodebaseVisualizerPage.tsx:46-48 | `flow` selects flowchart, `deps` selects dependencies, any other view selects structure |
| Visualizer.DiagramPresent | src/pages/CodebaseVisualizerPage.tsx:46-48 | an accepted visualization has a truthy diagram for every view |
| Visualizer.FindStop | src/pages/CodebaseVisualizerPage.tsx:92 | where `find` stops: every entry before it is neither `null` nor the manifest, and the entry there, if any, is one of the two |
| Visualizer.FindManifest | src/pages/CodebaseVisualizerPage.tsx:92 | `find` fails with "Cannot read properties of null (reading 'path')" exactly when a `null` entry comes before the first `package.json` entry; otherwise it gives that first entry, or none when there is no such entry |
| Visualizer.Dependencies | src/pages/CodebaseVisualizerPage.tsx:93-106 | with no manifest in the tree, or none fetched, the dependencies are `{}`; a throw from `atob` or `JSON.parse` passes through; a `null` manifest fails reading `dependencies`; no other case fails |
| Visualizer.DependenciesDefaulting | src/pages/CodebaseVisualizerPage.tsx:93-106 | a readable manifest gives exactly the two keys, each its field or `{}` when that is falsy |
| Visualizer.RepositoryCheck | src/pages/CodebaseVisualizerPage.tsx:76-114 | the token error, then the URL error, then "Failed to fetch repository contents", then the `path` error of `find`, in this order; otherwise the dependencies of the entry `find` gives |
| Visualizer.NoManifestNoDependencies | src/pages/CodebaseVisualizerPage.tsx:92-114 | a readable tree without a `package.json` entry sends `{}` as its dependencies |
| Visualizer.VisualizationResult | src/pages/CodebaseVisualizerPage.tsx:125-173 | repository errors pass through; a `null` tree entry then fails with "Cannot read properties of null (reading 'path')"; a visualization comes only from an accepted reply over a tree without `null` entries |
| Visualizer.FilePaths | src/pages/CodebaseVisualizerPage.tsx:133 | the paths of all tree entries, in order; fails with "Cannot read properties of null (reading 'path')" exactly when some entry is `null` |
| Visualizer.RunVisualization | src/pages/CodebaseVisualizerPage.tsx:125-173 | the steps, one after another, compute the pipeline's result |
| Visualizer.VisualizerPage.constructor | src/pages/CodebaseVisualizerPage.tsx:37-41 | the page opens with no visualization and the flow view |
| Visualizer.VisualizerPage.Show | src/pages/CodebaseVisualizerPage.tsx:174-178 | the outcome sets either the visualization or the error, and loading ends |
| Visualizer.VisualizerPage.GenerateVisualization | src/pages/CodebaseVisualizerPage.tsx:116-179 | a blank URL only sets "Please enter a repository URL"; otherwise the pipeline's result (a visualization, or its error, including the `null` tree entry error of line 133) is shown and loading ends |
| Visualizer.Diagram | src/pages/CodebaseVisualizerPage.tsx:46-48 | defines the active view's diagram; proved in `Visualizer.DiagramField` and `Visualizer.DiagramPresent` |
| Visualizer.VisualizerPage.CurrentDiagram | src/pages/CodebaseVisualizerPage.tsx:46-48 | a diagram is drawn exactly when there is a visualization, and it is the active view's field |
| Resume.ResumeText | src/pages/ResumeGeneratorPage.tsx:176-180 | the resume is the fence-stripped, trimmed reply, kept only when it parses; otherwise the parse error |
| Resume.ResumeKeepsQuotes | src/pages/ResumeGeneratorPage.tsx:176 | a reply without backticks is kept exactly as trimmed, smart quotes included |
| Resume.ResumeResult | src/pages/ResumeGeneratorPage.tsx:130-195 | the token error, then "GitHub user not found", then "Failed to fetch repositories", then the parse gate |
| Resume.ResumeOnlyWhenParsed | src/pages/ResumeGeneratorPage.tsx:179-191 | a resume is produced only from a reply whose cleaned text parses |
| Resume.ResumePage.constructor | src/pages/ResumeGeneratorPage.tsx:85-96 | the page opens with no resume and an empty history |
| Resume.ResumePage.GenerateResume | src/pages/ResumeGeneratorPage.tsx:130-200 | on success the resume is shown and a row is put in front of the history; on failure the error is shown and the history is unchanged |
| Resume.ReadMore | src/pages/ResumeGeneratorPage.tsx:226-235 | expanded shows the full text; collapsed shows the first 200 characters (or all of them) followed by "...", even for short text |
| Learning.ParsePath | src/pages/LearningPathPage.tsx:124-132 | any value the fence-only cleaned reply parses to is accepted; a parse failure gives "Failed to parse AI response as JSON" |
| Learning.PathResult | src/pages/LearningPathPage.tsx:51-138 | defines the pipeline as one value; its cases are proved in `Learning.PathResultCases` |
| Learning.PathResultCases | src/pages/LearningPathPage.tsx:51-138 | once profile and reply are in hand, the path is whatever the cleaned reply parses to, with no field check |
| Learning.PathStack | src/pages/LearningPathPage.tsx:68-91 | the languages are the distinct truthy repository languages, and the technologies the distinct dependency keys of readable manifests |
| Learning.LearningPage.constructor | src/pages/LearningPathPage.tsx:32-35 | the page opens with a `null` learning path |
| Learning.LearningPage.AnalyzeTechnologies | src/pages/LearningPathPage.tsx:51-138 | the error is cleared and the path reset to `null` first; on success the path is set, on failure the error is set and the path stays `null` |
| Learning.StepLines | src/pages/LearningPathPage.tsx:152-160 | one `- step` line per step, in order |
| Learning.ResourceLines | src/pages/LearningPathPage.tsx:162 | one `- [title](url) (type)` line per resource, in order |
| Learning.DownloadPath | src/pages/LearningPathPage.tsx:140-163 | nothing is downloaded when there is no learning path |
| Learning.Markdown | src/pages/LearningPathPage.tsx:143-163 | defines the downloaded document from its template; its lines are proved in `Learning.DownloadLines` |
| Learning.DownloadLines | src/pages/LearningPathPage.tsx:140-163 | the document's lines are the heading lines, then each level's heading and one line per step, then one line per resource, unless an interpolated text holds a line break |
| Learning.SplitHead | src/pages/LearningPathPage.tsx:143-151 | the opening of the document splits into its fixed lines |
| Learning.SplitLine | src/pages/LearningPathPage.tsx:143-163 | a template line without a line break splits off as one piece ahead of the rest |
| Learning.LevelHeadingSingle | src/pages/LearningPathPage.tsx:152 | a level heading holds no line break when the level's time frame holds none |
| Learning.SplitSection | src/pages/LearningPathPage.tsx:152-160 | a heading, a block of lines and an empty line split into exactly those lines ahead of the rest |
| Learning.SplitLevel | src/pages/LearningPathPage.tsx:152-160 | a level's section splits into its heading and one line per step |
| Learning.SplitResources | src/pages/LearningPathPage.tsx:161-162 | the resources section splits into its heading and one line per resource |
| Learning.BlockThen | src/pages/LearningPathPage.tsx:152-162 | a block of separator-free lines, a break and more text split into the lines followed by the rest's lines |
| Learning.StepLinesSingle | src/pages/LearningPathPage.tsx:152-160 | step lines hold no line break when the steps hold none |
| Learning.ResourceLinesSingle | src/pages/LearningPathPage.tsx:162 | resource lines hold no line break when the resources hold none |
| Chatbot.IndexOfUrl | src/pages/ChatbotPage.tsx:49 | `findIndex` is the first index holding the URL, or -1 when none does |
| Chatbot.Take | src/pages/ChatbotPage.tsx:59 | `slice(0, n)` is the first `n` elements, or all of them |
| Chatbot.Upsert | src/pages/ChatbotPage.tsx:48-62 | the history after saving holds at most ten conversations |
| Chatbot.UpsertReplaces | src/pages/ChatbotPage.tsx:50-53 | an existing URL gets the new messages and timestamp at its first index; every other entry keeps its position and value |
| Chatbot.UpsertPrepends | src/pages/ChatbotPage.tsx:55-59 | a new URL goes to index 0, the others shift right by one, and anything beyond ten is dropped |
| Chatbot.UpsertDistinct | src/pages/ChatbotPage.tsx:49-59 | with distinct URLs and at most ten entries before, the URLs stay distinct and the saved URL is present |
| Chatbot.FindConversation | src/pages/ChatbotPage.tsx:49 | the loop finds the first index holding the URL, or -1 |
| Chatbot.Line | src/pages/ChatbotPage.tsx:172 | defines `role: content`; proved in `Chatbot.LineSingle` |
| Chatbot.Transcript | src/pages/ChatbotPage.tsx:172 | defines the transcript; proved in `Chatbot.TranscriptAppend` and `Chatbot.TranscriptLines` |
| Chatbot.Lines | src/pages/ChatbotPage.tsx:172 | one `role: content` line per message, in order |
| Chatbot.TranscriptAppend | src/pages/ChatbotPage.tsx:172 | each further message adds one line at the end of the transcript |
| Chatbot.TranscriptLines | src/pages/ChatbotPage.tsx:172 | when no message holds a line break, the transcript's lines are exactly the messages' lines |
| Chatbot.LineSingle | src/pages/ChatbotPage.tsx:172 | a message without a line break gives a line without one |
| Chatbot.LastCommits | src/pages/ChatbotPage.tsx:113-116 | at most the first five commits, in order |
| Chatbot.Analysis | src/pages/ChatbotPage.tsx:82-118 | the token error, then the URL error; on success the context keeps the languages and the first five commits |
| Chatbot.ChatbotPage.constructor | src/pages/ChatbotPage.tsx:23-46 | the page opens with the stored history and nothing else |
| Chatbot.ChatbotPage.SaveChatHistory | src/pages/ChatbotPage.tsx:48-62 | only the history changes, and it becomes the upsert of the old history |
| Chatbot.Welcome | src/pages/ChatbotPage.tsx:133-140 | defines the welcome text, which names the repository and lists its languages; used by `Chatbot.ChatbotPage.AnalyzeRepo` |
| Chatbot.ChatbotPage.AnalyzeRepo | src/pages/ChatbotPage.tsx:120-149 | a blank URL only sets "Please enter a repository URL"; on success the messages are exactly the one welcome message and the history is saved |
| Chatbot.ChatbotPage.HandleSubmit | src/pages/ChatbotPage.tsx:151-192 | with a blank message or no context nothing changes; otherwise the prompt shows the earlier transcript, and the log grows by the question and then by one assistant reply |
| Chatbot.ChatbotPage.LoadConversation | src/pages/ChatbotPage.tsx:194-198 | the saved conversation's URL and messages are loaded and the history panel closes; the history itself is unchanged |
| Chatbot.ChatbotPage.ClearHistory | src/pages/ChatbotPage.tsx:200-204 | the history is empty and its panel closed; nothing else changes |
| DocGen.Rewrite | src/pages/DocGeneratorPage.tsx:364-366 | defines one section's rewrite; proved in `DocGen.RewriteStarred` and `DocGen.ProcessMarkdownUnchanged` |
| DocGen.ProcessMarkdown | src/pages/DocGeneratorPage.tsx:360-369 | defines split on blank lines, rewrite each, join; proved in `DocGen.RewriteAll` and `DocGen.ProcessMarkdownUnchanged` |
| DocGen.RewriteAll | src/pages/DocGeneratorPage.tsx:363-367 | each section is rewritten on its own, in order |
| DocGen.ProcessMarkdownUnchanged | src/pages/DocGeneratorPage.tsx:360-369 | a document none of whose trimmed sections starts with `*` is returned unchanged |
| DocGen.RewriteStarred | src/pages/DocGeneratorPage.tsx:364-365 | a starred section becomes "## " and the text after its first `*`, trimmed |
| DocGen.StarAfterSpaces | src/pages/DocGeneratorPage.tsx:364-365 | the first non-blank character of a starred section is that `*` |
| DocGen.RemoveStar | src/pages/DocGeneratorPage.tsx:365 | removing the first `*` and trimming is trimming what follows it |
| DocGen.TrimAfterSpaces | src/pages/DocGeneratorPage.tsx:365 | leading whitespace does not change a trim |
| DocGen.LeadingSpacesAfter | src/pages/DocGeneratorPage.tsx:364 | whitespace in front lengthens the leading run by its length |
| DocGen.RepoName | src/pages/DocGeneratorPage.tsx:242 | the URL's last `/`-segment, or "documentation" when it is empty |
| DocGen.DatePart | src/pages/DocGeneratorPage.tsx:243 | the text before the first `T` of the timestamp |
| DocGen.FirstPieceIsPrefix | src/pages/DocGeneratorPage.tsx:243 | the first piece of a split is a prefix of the text |
| DocGen.DatePartOfTimestamp | src/pages/DocGeneratorPage.tsx:243 | for `date + "T" + time` the date part is `date` |
| DocGen.PdfFileName | src/pages/DocGeneratorPage.tsx:329 | `${repoName}-documentation-${date}.pdf` |
| DocGen.KindOf | src/pages/DocGeneratorPage.tsx:270-311 | a section is never classified as the title |
| DocGen.SectionText | src/pages/DocGeneratorPage.tsx:270-311 | defines the text each kind draws; proved in `DocGen.DrawText` |
| DocGen.SectionFrom | src/pages/DocGeneratorPage.tsx:267-325 | defines one pass of the section loop as a value; proved in `DocGen.SectionOnPage` and `DocGen.DrawSection` |
| DocGen.TextFrom | src/pages/DocGeneratorPage.tsx:269-324 | defines the drawing of one classified text; proved in `DocGen.DrawText` |
| DocGen.SectionsFrom | src/pages/DocGeneratorPage.tsx:266-326 | defines the whole section loop as a value; proved in `DocGen.SectionsOnPage` and `DocGen.SectionsAdvance` |
| DocGen.KindOfCases | src/pages/DocGeneratorPage.tsx:270-311 | heading (starts and ends with `**`), then bullet (starts with `*`), then code (starts with "```"), then text, tested in this order |
| DocGen.LinesFrom | src/pages/DocGeneratorPage.tsx:283-290 | one drawn line per wrapped line |
| DocGen.LinesOnPage | src/pages/DocGeneratorPage.tsx:284-289 | from the top of the page onward every wrapped line is drawn at 20 ≤ y ≤ 280, because y above 280 resets to 20 |
| DocGen.SectionOnPage | src/pages/DocGeneratorPage.tsx:267-325 | a heading is one line at the cursor, which then moves down by 15; other kinds are on the page and move the cursor by 7 per line plus 5 |
| DocGen.SectionsOnPage | src/pages/DocGeneratorPage.tsx:267-326 | every line of the sections other than a heading is on the page |
| DocGen.Layout | src/pages/DocGeneratorPage.tsx:249-326 | the first two lines are the title at y 20 and the date at y 30 |
| DocGen.LayoutOnPage | src/pages/DocGeneratorPage.tsx:249-326 | only the two header lines are titles, and every line that is not a heading is drawn on the page |
| DocGen.GeneratePdf | src/pages/DocGeneratorPage.tsx:249-326 | the loop that updates the cursor draws exactly the layout |
| DocGen.DrawSection | src/pages/DocGeneratorPage.tsx:267-325 | one pass of the section loop draws the section's lines |
| DocGen.DrawText | src/pages/DocGeneratorPage.tsx:269-324 | a heading is drawn at the cursor, which moves by 10 then 5; other kinds are drawn line by line, with 5 more after a code block |
| DocGen.SectionsAdvance | src/pages/DocGeneratorPage.tsx:266-325 | one section drawn keeps the loop's account of what is left of the layout |
| DocGen.LayoutHeader | src/pages/DocGeneratorPage.tsx:249-263 | the title and date lines start the layout and leave the cursor at 50 |
| DocGen.DrawLines | src/pages/DocGeneratorPage.tsx:283-290 | the per-line loop draws the wrapped lines from the cursor |
| DocGen.LinesStep | src/pages/DocGeneratorPage.tsx:284-289 | one line's step: the page check, the line, the height |
| DocGen.Flatten | src/pages/DocGeneratorPage.tsx:68-101 | defines the recursive listing; a failed listing gives the fetch error; proved in `DocGen.FlattenItems` and `DocGen.FlattenSplice` |
| DocGen.FlattenItems | src/pages/DocGeneratorPage.tsx:86-98 | only file records come out |
| DocGen.FlattenSplice | src/pages/DocGeneratorPage.tsx:86-98 | flattening two runs of entries is flattening each, in order, so each directory's files are spliced in its place |
| DocGen.FlattenPlainFiles | src/pages/DocGeneratorPage.tsx:86-93 | a listing of plain files flattens to their records, in order |
| DocGen.FetchRepoContents | src/pages/DocGeneratorPage.tsx:68-101 | the loop that descends into directories computes exactly the flattening, or the first refused request |
| DocGen.ThenEmpty | src/pages/DocGeneratorPage.tsx:96 | nothing followed by a result is that result |
| DocGen.ThenErr | src/pages/DocGeneratorPage.tsx:95 | a failing sub-listing fails the whole |
| DocGen.ThenStep | src/pages/DocGeneratorPage.tsx:96 | spreading in runs one at a time equals spreading their concatenation |
| DocGen.FilesOnly | src/pages/DocGeneratorPage.tsx:128 | the filter keeps every file entry and nothing else |
| DocGen.Insert | src/pages/DocGeneratorPage.tsx:129 | inserting adds exactly one element |
| DocGen.InsertSorted | src/pages/DocGeneratorPage.tsx:129 | inserting into a largest-first list keeps it largest first |
| DocGen.SortBySize | src/pages/DocGeneratorPage.tsx:129 | the sort is a permutation |
| DocGen.SortBySizeSorted | src/pages/DocGeneratorPage.tsx:129 | the sort is ordered largest first |
| DocGen.LargestFiles | src/pages/DocGeneratorPage.tsx:127-130 | at most five entries |
| DocGen.SortedLength | src/pages/DocGeneratorPage.tsx:129 | the sort keeps the number of entries |
| DocGen.ChosenFromTree | src/pages/DocGeneratorPage.tsx:127-130 | every chosen entry is a file entry of the tree |
| DocGen.LeftOutNoLarger | src/pages/DocGeneratorPage.tsx:127-130 | no file left out is larger than the smallest one chosen |
| DocGen.LinesAdvance | src/pages/DocGeneratorPage.tsx:283-290 | one line drawn keeps the loop's account of what is left to draw |
| DocGen.ChosenSubMultiset | src/pages/DocGeneratorPage.tsx:127-130 | the chosen entries, with repetitions, are among the tree's file entries |
| DocGen.LargestFilesChosen | src/pages/DocGeneratorPage.tsx:127-130 | at most five file entries of the tree, a sub-multiset of its files, largest first; when five are chosen, no unchosen file is larger than the smallest chosen |
| DocGen.Dependencies | src/pages/DocGeneratorPage.tsx:140-148 | a failed or refused request leaves both lists empty; a manifest that does not decode gives its error |
| DocGen.DependenciesDefaulting | src/pages/DocGeneratorPage.tsx:144-147 | a missing or falsy dependency field gives an empty list, otherwise its entries |
| DocGen.Analysis | src/pages/DocGeneratorPage.tsx:103-169 | the tree error comes first, then the manifest's; on success the largest files and dependencies are the ones above |
| DocGen.DocPage.constructor | src/pages/DocGeneratorPage.tsx:13-21 | the page opens with no documentation and no analytics |
| DocGen.DocPage.GenerateDocumentation | src/pages/DocGeneratorPage.tsx:171-231 | the token error, then the URL error, then the analysis and the documentation, each failure shown as the error |
| Portfolio.RepoLanguage | src/services/portfolioBuilderService.ts:313-314 | a repository adds its language exactly when that is truthy |
| Portfolio.Stars | src/services/portfolioBuilderService.ts:318 | defines the star total; proved in `Portfolio.StarsAppend` and `Portfolio.StarsCountEach` |
| Portfolio.Languages | src/services/portfolioBuilderService.ts:312-317 | defines the language list; proved in `Portfolio.UserLanguages` and `Portfolio.UserLanguagesOrder` |
| Portfolio.StarsAppend | src/services/portfolioBuilderService.ts:318 | the star totals of consecutive lists add up |
| Portfolio.StarsCountEach | src/services/portfolioBuilderService.ts:318 | every repository's stars are counted in the total |
| Portfolio.UserDataOf | src/services/portfolioBuilderService.ts:278-324 | fails with the first unmet check, in order: "Not authenticated", "GitHub token not found", "GitHub user not found", "Failed to fetch repositories"; otherwise the profile, all repositories, their languages and the star total |
| Portfolio.UserLanguages | src/services/portfolioBuilderService.ts:312-317 | the languages are exactly the truthy repository languages, each once |
| Portfolio.UserLanguagesOrder | src/services/portfolioBuilderService.ts:312-317 | the languages appear in order of first occurrence |
| Portfolio.UserContributions | src/services/portfolioBuilderService.ts:318 | contributions count every repository's stars, featured or not |
| Portfolio.CollectLanguages | src/services/portfolioBuilderService.ts:312-317 | the `reduce` that pushes each new truthy language computes the de-duplicated list |
| Portfolio.GetUserData | src/services/portfolioBuilderService.ts:278-324 | the steps compute exactly the user data or the first error |
| Portfolio.Featured | src/services/portfolioBuilderService.ts:12 | the first min(6, n) repositories, in their order |
| Portfolio.Shown | src/services/portfolioBuilderService.ts:91-97 | a template literal writes `null` as "null" |
| Portfolio.Described | src/services/portfolioBuilderService.ts:70 | a falsy description becomes "No description available" |
| Portfolio.CardRows | src/services/portfolioBuilderService.ts:67-76 | one row of card fields per repository |
| Portfolio.TagRows | src/services/portfolioBuilderService.ts:60 | one row per language |
| Portfolio.Html | src/services/portfolioBuilderService.ts:38-88 | defines the page from its template; its tags and cards are read back in `Portfolio.TagsReadBack` and `Portfolio.CardsReadBack` |
| Portfolio.Readme | src/services/portfolioBuilderService.ts:90-112 | defines the README from its template; read back in `Portfolio.TechListLines` and `Portfolio.ReadmeProjectsReadBack` |
| Portfolio.SourceCode | src/services/portfolioBuilderService.ts:26-35 | exactly the keys index.html, styles.css, README.md and netlify.toml, each with its generated text |
| Portfolio.GeneratePortfolioContent | src/services/portfolioBuilderService.ts:6-24 | errors pass through; otherwise the file map, with `files["index.html"]` equal to the preview |
| Portfolio.DataOf | src/services/portfolioBuilderService.ts:8-15 | defines `portfolioData`; proved in `Portfolio.PortfolioData` |
| Portfolio.PortfolioData | src/services/portfolioBuilderService.ts:8-15 | the portfolio shows the first six repositories in order and keeps the languages and contributions |
| Portfolio.TagLitsOk | src/services/portfolioBuilderService.ts:60 | the tag template can be read back |
| Portfolio.TagsReadBack | src/services/portfolioBuilderService.ts:60 | the tags block holds one tag per language, in order |
| Portfolio.CardLitsOk | src/services/portfolioBuilderService.ts:67-76 | the card template can be read back |
| Portfolio.CardFits | src/services/portfolioBuilderService.ts:67-76 | a repository without the delimiting characters fits the card template |
| Portfolio.CardsReadBack | src/services/portfolioBuilderService.ts:67-76 | the project grid holds one card per repository, in order, with its name, description or default, language and link |
| Portfolio.ReadmeCardLitsOk | src/services/portfolioBuilderService.ts:105-110 | the README entry template can be read back |
| Portfolio.ReadmeCardFits | src/services/portfolioBuilderService.ts:105-110 | a repository without line breaks fits the README entry template |
| Portfolio.ReadmeProjectsReadBack | src/services/portfolioBuilderService.ts:105-110 | the README lists one entry per repository, in order, under the same rules as the HTML cards |
| Portfolio.TechListLines | src/services/portfolioBuilderService.ts:101 | the technology list has one `- ` line per language, in order |
| Template.Fill | src/services/portfolioBuilderService.ts:67-76 | a filled template starts with its first literal |
| Template.Stop | src/services/portfolioBuilderService.ts:67-76 | the first position of a character, or the end |
| Template.Unfill | src/services/portfolioBuilderService.ts:67-76 | reading back gives one field per gap |
| Template.UnfillFill | src/services/portfolioBuilderService.ts:67-76 | reading back a filled template, and any text after it, gives the fields and that text |
| Template.Fills | src/services/portfolioBuilderService.ts:67-76 | `map` fills the template once per row, in order |
| Template.UnfillAllFills | src/services/portfolioBuilderService.ts:60-76 | rows written with `join('')` are read back, in order, one per row |
| Template.FillPrefixed | src/services/portfolioBuilderService.ts:105-110 | a separator in front of the first literal is a separator in front of the text |
| Template.JoinAsConcat | src/services/portfolioBuilderService.ts:105-110 | `join(sep)` of filled rows is the first row, then each other row with `sep` in front |
| Template.UnfillJoinedFills | src/services/portfolioBuilderService.ts:105-110 | rows written with `join(sep)` are read back, in order, one per row |
| Template.StopAt | src/services/portfolioBuilderService.ts:67-76 | a field without the delimiter ends where the next literal starts |
| Template.FitsTail | src/services/portfolioBuilderService.ts:67-76 | the remaining fields still fit the remaining literals |
| Template.FitsPrefixed | src/services/portfolioBuilderService.ts:105-110 | fields that fit a template also fit it with a separator in front |

## Left out

- I/O becomes parameters: the GitHub REST calls, Supabase auth and tables, the Gemini call and its prompt texts, `atob`, `new URL` (only its `pathname`, as a `Result`), `localStorage`, `Date.now`/`new Date` (clock readings passed in), and jsPDF's `splitTextToSize` (a function value from text and width to lines).
- Asynchrony and rendering are not modelled: `await` ordering and interleaving, the `loading` flag between steps, JSX, mermaid, html2pdf, JSZip, Blob downloads and the clipboard.
- jsPDF drawing is out: fonts, colours, the code block's background rectangle, `addPage` (only the cursor reset is modelled), and the resume page's `createPDFContent` HTML.
- Floating point is out: language percentages and KB sizes, and the settings storage bar; `Math.random` too.
- The code translator and settings pages are a prompt pass-through and a password-equality guard, so they are not part of this model. The same goes for the challenge page's `revealSolution`.
- A JSON object is a list of members, and the model does not require its keys to be distinct. `Json.Member` reads the first member with a key, while `JSON.parse` keeps the last one. Parsing is a parameter, so no proved property depends on which one is read.
- Values are compared structurally. JavaScript's `Set` compares objects by identity, so two equal objects would be two elements there.
- Integer-like keys, which `Object.keys` puts first, are taken to be absent.
- `ReadMore` counts characters, not UTF-16 code units.
- Every response body is taken to be a JSON array where the code iterates it.
- V8's exact error messages are only modelled for reading a property of `null`.
- The learning path is kept as `Json` on the page. `downloadPath` reads it as a typed `Plan`.
- Learning.LearningPage.AnalyzeTechnologies: the model response's `text()` throwing inside the learning page's `try` is not modelled.
- Resume.ResumePage.GenerateResume: the history reload after saving is modelled as putting the new row in front of the old history; the second `getUser` call is taken to succeed.
- Portfolio: the fixed `styles.css` text is a parameter.
- Portfolio: profile and repository records are typed records, not arbitrary JSON. A failing `userResponse.json()` is not modelled.
- Portfolio: star sums are exact naturals, with no 2^53 rounding. The username only appears in request URLs, so it is not modelled.
- Portfolio.Html: the whole page is defined from its literal pieces but not read back whole. Cards contain line breaks, which a single-character reader cannot delimit, so read-back is proved for the tags block and the cards block separately.
- Portfolio.ReadmeProjectsReadBack: stated for at least one repository. With none, the README's projects text is empty and there is nothing to read back.
