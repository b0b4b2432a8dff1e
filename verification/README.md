# A verified model of NVX's checking tools

NVX's repository checks its own documentation, tests, and isolation with tools that hold real
algorithms. This project models the hard ones in Dafny and proves what they promise, over every input
and every run:

- the inline engine of the Markdown checker: matching delimiter runs as cmark-gfm does (sections 6.4
  and 6.5 of the GitHub Flavored Markdown spec), the stack of open brackets behind links, images and
  citations, rendering, tab columns (section 2.2), and the numbering of heading anchors;
- the token, bracket and `cfg` logic of the Rust checkers: matching brackets, splitting, parsing and
  rendering predicates, what predicates mean, and which require `test`;
- the comparison of the tests of two commits, the ways that they compile, and the module graph that
  those ways are collected over;
- restoring the module graph of a crate that is analyzed with its tests;
- the adversarial campaign: broker, executor, controller, replay, and the minimization of a failure;
- the canonical text of a UUID.

`dafny verify dfyconfig.toml` checks all of it.

## How it is laid out

Code that computes by recursion is modelled as functions. Code that works step by step is modelled as
methods with loops, or classes where objects change, each proved against a function or against the
property itself; lemmas then prove the properties of the functions. Clocks, the strategist that picks
cases, and an external executor may do anything at any step: what they do is a parameter, or any value. The
local executor does what its host does: files that cannot be written, oracles that do not close, what they see
at each repetition of a case, how its processes end, and canaries that do not boot are parameters of each
request. Regular expressions are parameters: `InlineItems.Lexis` stands for the matches of the lexical
rules, and `InlineItems.Lawful` is all that is required of them.

| files | what they model |
|---|---|
| `Tags`, `Emphasis`, `EmphasisNesting`, `EmphasisMatches`, `EmphasisSearch`, `EmphasisLaws`, `EmphasisTurns`, `EmphasisMissed`, `EmphasisInPlace` | matching delimiter runs, and the tags that they render |
| `InlineItems`, `InlineMarks`, `InlineTrace`, `Inline`, `InlineLaws`, `InlineRender`, `InlineTokens` | items of inline content, what a text says of each part of it, the scan, the traversal of the items, and what they render |
| `Tabs`, `Slugs` | columns and indentation; heading anchors |
| `Brackets`, `CfgSplit`, `Cfgs`, `CfgMeaning`, `CfgExact`, `CfgConjuncts`, `TestConditions` | tokens and `cfg` predicates |
| `Conditions`, `ModuleConditions`, `ModuleCycles`, `Worklist` | the ways that code compiles, and the files that do |
| `ComparisonEntries`, `ComparisonOrder`, `Comparison`, `ComparisonLaws`, `ComparisonLists` | comparing tests |
| `ModuleGraph` | restoring a module graph |
| `ActionResults`, `Repetitions`, `CaseExecutor`, `Broker`, `Campaign`, `CampaignOutcome`, `CampaignLaws` | adversarial campaigns |
| `Uuid`, `Options` | UUIDs; an optional value |

## Findings

Some properties that one would expect do not hold of the code. Each has a witness, and the condition under
which the property does hold is proved from both sides:

- `requires_test` and `forbids_test` treat a `not` as if the two classifications were each other's
  negation. `not(all(not(test), unix))` is said to require `test` and holds without it
  (`CfgMeaning.RequiresTestUnsound`); `not(any(not(test), unix))` requires `test` and is not said to
  (`CfgMeaning.RequiresTestIncomplete`). For predicates none of whose options but `test` occurs twice, the
  classifications are right throughout, under every configuration, if and only if the operand of every
  `not` is negatable, which folding it with `test` on, off, and open decides (`CfgExact.RightExactly`); and
  each of the two directions has its own condition on what the operand of each outermost `not` is said to be
  and folds to (`CfgExact.SafeExactly`, `CfgExact.FullExactly`). An
  option that occurs twice can decide what folding does not: `any(test, all(unix, not(unix)))` requires
  `test`, negates only an option, and is not said to (`CfgExact.TwiceUnseen`). What is said is true there,
  too (`CfgMeaning.RequiresTestSound`). Code of one such predicate compiles only with `test` if and only if the
  predicate folds to false without it (`TestConditions.RequireTestExactly`).
- `_emphasize` misses matches. In `*a**b**c**`, the last run could close the first, but the search of the
  second, which is held to the rule of three because it opens, too, bounded the searches of its key, and
  the last run is dropped (`EmphasisMissed.MatchMissed`). At every turn at which a search fails, the runs on
  the stack that it could have used are exactly those below its bound that open and do not close, of its
  mark, and only if its closer cannot open (`EmphasisLaws.FailsExactly`). No match is left among the runs
  that stay on the stack (`EmphasisLaws.MatchedExhausts`).
- Where files declare one another in a cycle, the conditions that `module_conditions` finds depend on the
  order in which it looks files up (`ModuleConditions.CycleLookups`). A cycle only loses ways
  (`ModuleConditions.LookupSound`). The lookups are right in every order, whatever the predicates of the
  declarations, if and only if no files that chains of declarations reach, and that are no tested roots,
  declare one another in a cycle (`ModuleCycles.RightExactly`).
- `restore` undoes the projection of the uses if and only if no use in tests lands on a use that a module
  makes of itself outside tests only (`ModuleGraph.RestoringInverts`), as one does where a module that only
  the analysis with tests has uses a crate that uses itself (`ModuleGraph.SelfUseLost`).
- `compare` takes lists, and an entry that a later one of its key hides is in no change
  (`ComparisonLists.HiddenUnseen`): it may be gone without one (`ComparisonLists.HiddenLost`). The entries of a
  list are those that are unchanged and those that one change speaks of if and only if no two of the list have
  one key (`ComparisonLists.EachListedOnce`).
- A request for quarantine is answered with an error, and the executor keeps its session and runs further
  cases, if and only if its oracles do not close or the answer cannot be written
  (`CaseExecutor.Executor.Handle`, `CaseExecutor.QuarantineNotEntered`). The controller then gives it up, and ends
  it by force if and only if the note of that can be written (`Campaign.Quarantine`).
- An executor that a case escaped from ends contained if and only if the budget lasts to the finalization, the
  executor is not lost in that, and it confirms its quarantine or the note of giving it up is written
  (`CampaignOutcome.RunCampaign`, `CampaignOutcome.EscapeContained`). When time runs out after an escape, nothing
  more is asked of it at all (`CampaignLaws.EscapeNotFollowed`).
- A policy violation that the local executor reports of a case is the verdict of the campaign if and only if the
  report is within the broker's bounds and its observation is written (`CampaignLaws.HonestReportDecides`). A case
  with 1,000,001 connections is not: the campaign ends as a failure of availability
  (`CampaignLaws.EscapeNotTaken`).
- A policy violation that the executor finds when it is finalized is the verdict if and only if its answer is
  credible and is written before it is read (`CampaignLaws.FindingDecides`), which for the local executor means
  that no oracle says more than 4096 characters of an error and that the answer is written
  (`CampaignLaws.HonestFindingDecides`). Otherwise the verdict may be a failure before anything was tried, although
  the executor answered that it is quarantined (`CampaignLaws.FindingNotRead`).

## Model

| member | source | states |
|---|---|---|
| `EmphasisInPlace.FindOpener` | scripts/check_markdown_links.py:2219-2239 | The scan down the stack finds the nearest run at or above the bottom that the closer closes by the rule of three, and none exactly when there is none. |
| `EmphasisInPlace.Pair` | scripts/check_markdown_links.py:2207-2211 | A match takes its characters from both runs and records its element as a start of one and an end of the other, and changes no other run. |
| `EmphasisInPlace.MatchStrikethrough` | scripts/check_markdown_links.py:2199-2206 | Strikethrough uses up both runs if they are as long, leaves them literal otherwise, and drops both from the stack. |
| `EmphasisInPlace.MatchEmphasis` | scripts/check_markdown_links.py:2207-2216 | Emphasis uses two characters of both runs if both have them and one otherwise, and drops the runs that are used up. |
| `EmphasisInPlace.Emphasize` | scripts/check_markdown_links.py:2173-2216 | The loop over objects changed in place terminates and leaves the runs as the specification does, whatever the runs. |
| `Emphasis.StepProgress` | scripts/check_markdown_links.py:2179-2216 | Each turn keeps the stack in order with unused runs, and lowers the unused characters and stack length, or moves on. |
| `EmphasisLaws.RunInvariant` | scripts/check_markdown_links.py:2179-2216 | Every state of the loop keeps the invariants of nesting, conservation, recording, legality and searching. |
| `EmphasisLaws.MatchedNests` | scripts/check_markdown_links.py:2173-2216 | For every list of runs, the tags emitted around any nested content are properly nested: each start has an end of the same element, and none cross. |
| `EmphasisLaws.MatchedConserves` | scripts/check_markdown_links.py:2199-2211 | Literal characters, one per `em`, and two per `strong` of an emphasis run add up to its length; a strikethrough run is untouched or wholly used once. |
| `EmphasisLaws.MatchedByTheRules` | scripts/check_markdown_links.py:2179-2239 | The tags of each run are exactly those of a list of matches, each legal by the rule of three, of which no two cross and of which a pair of runs makes all but the last with two characters. |
| `EmphasisLaws.MatchedExhausts` | scripts/check_markdown_links.py:2182-2195 | At the end no run on the stack can close another one there, although failed searches bound later ones. |
| `EmphasisLaws.FailsExactly` | scripts/check_markdown_links.py:2187-2195 | At every turn at which a search fails, a run on the stack is legal for the closer if and only if the closer cannot open and the run is below the bound, opens, does not close, and has its mark; the closer leaves the stack exactly if it cannot open. |
| `EmphasisTurns.StepTurned` | scripts/check_markdown_links.py:2182-2216 | Each turn, said of the states before and after it: a run that cannot close is passed; if a run at or above the bound is legal for the closer, the nearest is its opener, they make exactly one element, or none, and just the runs outside them and those of them with characters left stay; else the bound is noted, and the closer stays exactly if it opens. |
| `EmphasisTurns.TurnedUnique` | scripts/check_markdown_links.py:2182-2216 | Nothing else is the next state. |
| `EmphasisTurns.TurnMatches` | scripts/check_markdown_links.py:2188-2216 | At every turn from the runs as scanned at which the nearest legal run is there: one match of the two is added, strong if both have two characters left and else em, or strikethrough if their lengths are equal; none is added only for strikethrough of two lengths. |
| `EmphasisTurns.MatchedTraced` | scripts/check_markdown_links.py:2179-2216 | Matching is the last state of such turns, at which nothing is left to try. |
| `EmphasisTurns.LeavesUnused` | scripts/check_markdown_links.py:2182-2216 | When nothing is left to try, a run with characters left has left the stack if and only if it can only close, a match is around it, or it is within strikethrough that was refused for its lengths. |
| `EmphasisMissed.MatchMissed` | scripts/check_markdown_links.py:2187-2195 | The runs of `*a**b**c**`, whose last is dropped although the first, unused and uncrossed, is legal for it. |
| `EmphasisLaws.RenderNests` | scripts/check_markdown_links.py:2077-2086 | Pieces with links at any depth, whose texts match their own runs, render properly nested tags. |
| `EmphasisLaws.RenderSays` | scripts/check_markdown_links.py:2077-2086 | Without its tags, what is rendered is the texts, raw HTML, and unused characters of the pieces at any depth, in order: nothing is lost, added or moved. |
| `InlineTokens.RenderText` | scripts/check_markdown_links.py:2020-2086 | For every text, lawful lexis and scanner, the pieces that the items of the text leave, with the tags of raw HTML as they are, render all that they say, in order, with tags that nest properly but for those of raw HTML, and a link for each link that is shown. |
| `Inline.Parse` | scripts/check_markdown_links.py:1441-1530 | For any lawful lexis, the items found are those of the marks of the whole text, less what images cover; they are disjoint or one lies in the other's text, links hold no links, images hold nothing, and each item is justified by the text. |
| `InlineMarks.MarkedUnique` | scripts/check_markdown_links.py:1441-1530 | There is one list of marks of a text, each of which is what the text says where it starts: an escape, a code span up to the first run of as many backticks, an autolink or raw HTML, a bare URL where no bracket is open, an opening bracket, a closing one with the last that is open, or a character. |
| `InlineMarks.ListedFinds` | scripts/check_markdown_links.py:1516-1527 | An item is listed if and only if a mark finds it that is not between the brackets of an image. |
| `InlineLaws.EveryOffset` | scripts/check_markdown_links.py:1459-1529 | Every offset is in exactly one mark, and starts it unless it is escaped, among backticks, in a code span, autolink, raw HTML or bare URL, the bracket of an image, or in the destination or reference of a link or image. |
| `InlineLaws.CodeFound` | scripts/check_markdown_links.py:1474-1489 | Backticks that start a mark are a code span that closes at the first later run of as many, which is found, or in the text of an image that is. |
| `InlineLaws.AngleFound` | scripts/check_markdown_links.py:1490-1502 | So is an autolink or raw HTML from a "<" that starts a mark. |
| `InlineLaws.UrlFound` | scripts/check_markdown_links.py:1464-1473 | A bare URL around the start of a mark is what the mark finds if and only if no bracket is open there, and then it is found. |
| `InlineLaws.PairFound` | scripts/check_markdown_links.py:1509-1528 | Whatever is between them, a closing bracket and the last one that is open are an image or a link, if they end one, but no link around another, or else a citation of a footnote; which is found, or in the text of an image that is. |
| `InlineLaws.FoundMarked` | scripts/check_markdown_links.py:1441-1530 | Nothing is found but what a mark finds. |
| `InlineLaws.NothingWithin` | scripts/check_markdown_links.py:1448-1452 | Nothing that is found begins or ends inside a code span, autolink, raw HTML or bare URL, found or in an image. |
| `Inline.Turn` | scripts/check_markdown_links.py:1459-1529 | Each turn of the scan keeps the invariants of the items, the stack of brackets, and the marks, and moves on. |
| `InlineRender.ByStartSorted` | scripts/check_markdown_links.py:2020-2030 | Sorting the items by start keeps them and puts each before what it holds. |
| `InlineRender.RenderReachesAll` | scripts/check_markdown_links.py:2033-2076 | The recursive traversal reaches exactly the items outside citations, each once, in the order of where they start. |
| `Tabs.Indent` | scripts/check_markdown_links.py:1312-1319 | Skips all and only the spaces and tabs at a place, and ends at the column that they reach. |
| `Tabs.Advance` | scripts/check_markdown_links.py:1322-1332 | Skips exactly the columns asked for, if need be part of a tab, or all of the indentation if it is shorter. |
| `Tabs.AdvanceComposes` | scripts/check_markdown_links.py:1322-1332 | To advance by a and then by b is to advance by a + b, wherever it stops in between. |
| `Tabs.IndentAfterAdvance` | scripts/check_markdown_links.py:1312-1332 | The indentation ends at the same offset and column after any advance into it. |
| `Tabs.Quote` | scripts/check_markdown_links.py:1335-1338 | Skipping a quote marker skips at most one column after it and keeps the place within its line. |
| `Tabs.Pad` | scripts/check_markdown_links.py:1341-1350 | What remains of a tab and what was consumed of it add up to its width; elsewhere nothing remains. |
| `Tabs.PadKeepsColumns` | scripts/check_markdown_links.py:1341-1350 | Content whose partly consumed tab becomes spaces keeps every column of the line. |
| `Slugs.Number` | scripts/check_markdown_links.py:2012-2016 | Numbering terminates, and yields the slug, or the first number of it, that is not taken. |
| `Slugs.Anchors` | scripts/check_markdown_links.py:2003-2017 | One anchor per heading with text, each the first of its slug that is free, and no two alike, although numbered anchors may collide with literal headings. |
| `Brackets.MatchBrackets` | scripts/check_test_layout.py:271-289 | The loop with a stack computes the matching. |
| `Brackets.MatchMeans` | scripts/check_test_layout.py:271-289 | It succeeds exactly on well-bracketed tokens, with partners that pair brackets of one type; otherwise it names an opening bracket that nothing closes, or a closing one up to which nothing can complete the tokens. |
| `Brackets.PartnersNest` | scripts/check_test_layout.py:271-289 | The partners of brackets do not cross. |
| `CfgSplit.SplitCommas` | scripts/check_test_layout.py:330-348 | The loop that jumps over brackets computes the split. |
| `CfgSplit.SplitMeans` | scripts/check_test_layout.py:330-348 | The pieces are exactly the nonempty segments between the commas outside brackets. |
| `CfgSplit.TrailingComma` | scripts/check_test_layout.py:375-384 | A last comma in a group changes none of its operands. |
| `CfgSplit.MentionsMeans` | scripts/check_test_layout.py:391-399 | What does not parse has words if and only if one of its tokens mentions `test`. |
| `Cfgs.RenderBalanced` | scripts/check_test_changes.py:682-698 | Every rendered predicate is well-bracketed. |
| `Cfgs.ParseRender` | scripts/check_test_layout.py:367-399 | The tokens of a predicate of any depth and arity parse as it wherever they stand. |
| `Cfgs.ReadRender` | scripts/check_test_changes.py:682-698 | Rendering a predicate, matching its brackets, and parsing it gives it back. |
| `CfgMeaning.NeverAlwaysFold` | scripts/check_test_layout.py:437-456 | `_never` and `_always` are three-valued evaluation that knows no option. |
| `CfgMeaning.FoldSound` | scripts/check_test_layout.py:437-456 | What folds to a constant has that value under every configuration that agrees. |
| `CfgMeaning.NotClassified` | scripts/check_test_layout.py:411-434 | Over an operand that is classified right by folding, a `not` is classified safely, and completely, if and only if the folds of its operand say so. |
| `CfgMeaning.ClassifiedExactly` | scripts/check_test_layout.py:411-434 | All classifications within a predicate agree with folding if and only if every `not` in it has a negatable operand. |
| `CfgExact.FoldExact` | scripts/check_test_layout.py:411-456 | If no option but `test` occurs twice, a predicate holds only with `test`, or only without, under every configuration if and only if it folds to false. |
| `CfgExact.RightExactly` | scripts/check_test_layout.py:411-434 | For such predicates, both classifications are right throughout, under every configuration, if and only if every `not` has a negatable operand. |
| `CfgExact.SafeExactly` | scripts/check_test_layout.py:411-434 | For predicates none of whose options but `test` occurs twice, nothing false is said of a predicate and its joined parts, under any configuration, if and only if the operand of every outermost `not` folds to true wherever it is said to require or to forbid `test`. |
| `CfgExact.FullExactly` | scripts/check_test_layout.py:411-434 | For such predicates, nothing is left out if and only if the operand of every outermost `not` is classified where it folds to true, or always does. |
| `CfgExact.DeniedFolds` | scripts/check_test_layout.py:411-434 | Over an operand that negates only what is negatable, folding alone decides both. |
| `CfgExact.TwiceUnseen` | scripts/check_test_layout.py:411-434 | A predicate that requires `test` because an option occurs twice, and is not said to. |
| `CfgMeaning.RequiresTestSound` | scripts/check_test_layout.py:411-434 | For such predicates, "requires" and "forbids" hold under every configuration. |
| `CfgMeaning.LiteralNegationsWellNegated` | scripts/check_test_layout.py:411-434 | Predicates whose every `not` is over an option or a chain of them are such predicates. |
| `CfgMeaning.RequiresTestUnsound` | scripts/check_test_layout.py:411-434 | A predicate that is said to require `test` and holds without it. |
| `CfgMeaning.RequiresTestIncomplete` | scripts/check_test_layout.py:411-434 | A predicate that requires `test` and is not said to. |
| `TestConditions.RequireTestSound` | scripts/check_test_changes.py:2404-2420 | Code whose conditions are said to require `test` compiles under no configuration without it, if the predicates that are said to require it fold to false without it. |
| `TestConditions.RequireTestExactly` | scripts/check_test_changes.py:2404-2420 | Code of one predicate, none of whose options but `test` occurs twice, is said to require `test` if the predicate is, and compiles only with it if and only if the predicate folds to false without. |
| `TestConditions.RequiresRendered` | scripts/check_test_changes.py:2411-2418 | A predicate that was rendered requires `test` as it did before. |
| `CfgConjuncts.Conjuncts` | scripts/check_test_changes.py:701-744 | The loop over attributes collects exactly what each requires, and a configuration satisfies all of it exactly when every attribute lets the item compile. |
| `CfgConjuncts.RequiredHolds` | scripts/check_test_changes.py:701-744 | A configuration satisfies every rendered predicate of an attribute exactly when the attribute lets the item compile. |
| `CfgConjuncts.ConditionalHolds` | scripts/check_test_changes.py:719-735 | Guards `any(not(P), X)` for cfg_attr nested at any depth hold exactly when what they apply does wherever it applies. |
| `CfgConjuncts.FlattenedHolds` | scripts/check_test_changes.py:712-717 | Flattening an `all` keeps its meaning. |
| `CfgConjuncts.FlattenedConjuncts` | scripts/check_test_changes.py:712-717 | No predicate that it yields is an `all`. |
| `CfgConjuncts.AssumeTestMeans` | scripts/check_test_changes.py:747-760 | With `test` on, a predicate holds exactly when its residue does. |
| `CfgConjuncts.AssumeTestSplits` | scripts/check_test_changes.py:747-760 | A predicate that requires `test` is `test` and its residue. |
| `CfgConjuncts.AssumeTestDrops` | scripts/check_test_changes.py:747-760 | The residue no longer requires `test` itself. |
| `Conditions.ReducedMeans` | scripts/check_test_changes.py:196-200 | Reducing keeps where code compiles, under every assignment, and leaves no way below another. |
| `Conditions.ReducedCanonical` | scripts/check_test_changes.py:196-200 | Two sets of ways reduce to the same if and only if they mean the same. |
| `Conditions.WithinMeans` | scripts/check_test_changes.py:203-207 | Code within a holder compiles where the holder does and its own predicates hold. |
| `Conditions.WithinWithin` | scripts/check_test_changes.py:203-207 | Holders compose: within p and then q is within both. |
| `ModuleConditions.RightUnique` | scripts/check_test_changes.py:2366-2399 | What a lookup is to find is unique: the minimal ways of the chains from tested roots, and none exactly if there is no chain. |
| `ModuleConditions.LookupSound` | scripts/check_test_changes.py:2366-2399 | On any graph, every way that is found is what a chain needs, and no way passes a file whose own lookup is going on. |
| `ModuleConditions.LookupRight` | scripts/check_test_changes.py:2366-2401 | Unless reached files that are no roots declare one another in a cycle, a lookup after any right ones is right for every file that it visits. |
| `ModuleCycles.CycleLoses` | scripts/check_test_changes.py:2366-2401 | With a predicate of its own for each declaration, every such cycle loses a way: looking up where a chain enters it leaves the next file wrong. |
| `ModuleCycles.RightExactly` | scripts/check_test_changes.py:2366-2401 | Lookups are right in every order, whatever the predicates, if and only if there is no such cycle. |
| `ModuleConditions.CycleLookups` | scripts/check_test_changes.py:2366-2401 | On a cycle, two orders give a file different conditions. |
| `ModuleConditions.Finder.Inherited` | scripts/check_test_changes.py:2366-2399 | The method that fills the memo in place does what the specification does. |
| `Worklist.Compiled` | scripts/check_test_layout.py:1686-1698 | The worklist terminates with exactly the files that a chain of declarations reaches from a target without passing an excluded one. |
| `Comparison.Take` | scripts/check_test_changes.py:280-294 | The candidate taken is the first of those most alike in conditions and then in kind and name; none exactly when there is no candidate. |
| `Comparison.Renamed` | scripts/check_test_changes.py:353-374 | The entry taken as renamed is the first of the most similar ones in the scope that reach the threshold. |
| `Comparison.CompareCommon` | scripts/check_test_changes.py:252-269 | Entries under the same key change as their content, conditions, and path say. |
| `Comparison.MatchTexts` | scripts/check_test_changes.py:296-305 | The first pass leaves no text both gone and new. |
| `Comparison.Compare` | scripts/check_test_changes.py:242-324 | Every change is justified by its entries, each entry of either commit is used as often as it is unmatched or changed, each text moves exactly the smaller of the times that it is gone and new, and each change after those of common entries is the next one, until nothing is left. |
| `ComparisonOrder.FollowsUnique` | scripts/check_test_changes.py:296-323 | One list of changes follows: first the first entry gone whose text is left goes to the first of the likest of those; then the first entry gone goes to the first of the likest of its kind and name, if it is named, or else to the first of the most similar that it may have been renamed to, or is removed; then the rest is added. |
| `ComparisonOrder.PairMeans` | scripts/check_test_changes.py:296-321 | A gone and a new entry that are paired are of one text, and relocated exactly if their conditions are equal; or modified, and of one kind and nonempty name, or renamed. |
| `ComparisonOrder.RemovedMeans` | scripts/check_test_changes.py:306-323 | An entry is removed only if none that is added has its text or, if it is named, its kind and name, or may be it renamed. |
| `ComparisonLaws.EachOnce` | scripts/check_test_changes.py:242-324 | Each entry of either commit is unchanged or in exactly one change. |
| `ComparisonLaws.NoSilentLoss` | scripts/check_test_changes.py:252-305 | A base entry that no flagging change speaks of survives under its key, grew under equal conditions, or moved to a new entry of its text and conditions that no other change uses. |
| `ComparisonLaws.Conserves` | scripts/check_test_changes.py:242-324 | Base entries and additions are as many as head entries and removals. |
| `ComparisonLists.CompareLists` | scripts/check_test_changes.py:242-324 | Lists are compared by the last entry of each key, with all that comparing ensures of those. |
| `ComparisonLists.EachListedOnce` | scripts/check_test_changes.py:249-324 | The entries of a list are those that are unchanged and those that one change speaks of, each once, if and only if no two of the list have one key. |
| `ComparisonLists.ListsConserve` | scripts/check_test_changes.py:249-324 | The lists balance with additions and removals if and only if as many entries of either are hidden by later ones, as where no key repeats. |
| `ComparisonLists.HiddenUnseen` | scripts/check_test_changes.py:249-250 | An entry that a later one of its key hides is in no change. |
| `ComparisonLists.HiddenLost` | scripts/check_test_changes.py:249-250 | Two entries of one key in the base, the first of which is gone from the head without a change. |
| `ModuleGraph.FindKept` | scripts/module_diagrams.py:411-416 | The nearest owner, or the module itself, that the plain analysis has. |
| `ModuleGraph.Restore` | scripts/module_diagrams.py:368-431 | Restores exactly the accepted inputs, and says of others what is wrong. |
| `ModuleGraph.MoveUses` | scripts/module_diagrams.py:411-431 | The loop finds the uses that land on plain ones or on a module itself, and what they land on. |
| `ModuleGraph.BuiltClosed` | scripts/module_diagrams.py:359-365 | The owners of the modules that build outside tests do, too. |
| `ModuleGraph.RestoringValid` | scripts/module_diagrams.py:368-431 | What is restored holds the owners of its modules and the ends of its uses. |
| `ModuleGraph.RestoringLands` | scripts/module_diagrams.py:405-431 | Every restored use projects onto a plain use or a module itself, and every plain use is projected onto. |
| `ModuleGraph.RestoringInverts` | scripts/module_diagrams.py:405-431 | The projection of what is restored is the plain analysis if and only if no module's use of itself is lost. |
| `ModuleGraph.RestoringExactly` | scripts/module_diagrams.py:418-430 | A use is restored if and only if it is one of the analysis with tests, between modules that build outside them, whose projection adds nothing to the plain uses; or a plain use that no such use moves to. |
| `ModuleGraph.RestoringLargest` | scripts/module_diagrams.py:418-430 | What is restored projects into the plain uses, no further use can join it, and every set of such uses that does is in it. |
| `ModuleGraph.RestoringModules` | scripts/module_diagrams.py:359-430 | The restored modules are the most that hold their owners and have no condition `test`, each with the visibility and owner that the analysis with tests gives it. |
| `ModuleGraph.MoveNearest` | scripts/module_diagrams.py:411-423 | A use moves to the nearest modules, of its ends and what contains them, that the plain analysis has. |
| `ModuleGraph.SelfUseLost` | scripts/module_diagrams.py:405-431 | An input whose restoration loses a use of a crate by itself. |
| `Broker.TypedBroker.Execute` | scripts/nvx_tools/adversarial_broker.py:656-677 | An action is refused, and neither logged nor sent, if and only if it is unknown, repeated, or cannot be written; any other is logged before it is sent, and its result is recorded only if it passes the checks and its observation is written; the cases that have results are distinct; what the local executor reports is honest. |
| `Broker.TypedBroker.Take` | scripts/nvx_tools/adversarial_broker.py:668-677 | An answer gives a result exactly if it is a report within the bounds, of the case and sequence, that can be written. |
| `Broker.Channel.Send` | scripts/nvx_tools/adversarial.py:502-542 | What the local executor answers, if it does, is honest, and agrees with what its oracles saw. |
| `Broker.TruthfulCredible` | scripts/nvx_tools/adversarial.py:946-1017 | The controller takes what the local executor answers to a finalization if and only if no oracle says more than 4096 characters of an error. |
| `ActionResults.ReadReplay` | scripts/nvx_tools/adversarial_broker.py:702-746 | A replay is read as its cases, which are catalogued, distinct and in sequence, and refused with what is wrong. |
| `ActionResults.ReplayOwnLog` | scripts/nvx_tools/adversarial.py:1074-1084 | The actions that a campaign writes replay as themselves. |
| `Repetitions.Repeat` | scripts/nvx_tools/adversarial_executor.py:392-497 | For whatever happens at each repetition: those run that are dispatched; the return code is the last process's, and there is none if the next was late or blocked; the case took too long if and only if it was late or a process did; and it was torn down if and only if every process was. |
| `Repetitions.RanDispatched` | scripts/nvx_tools/adversarial_executor.py:409-497 | A repetition runs if and only if all before it ran, succeeded, and left the oracles clean, it is not late, and the oracles are clean then. |
| `CaseExecutor.RunCase` | scripts/nvx_tools/adversarial_executor.py:498-549 | A report has what its repetitions add up to, with the inventory and the oracles, and the gravest category that it shows; it suspects an escape exactly when it is a policy violation, which the oracles then saw; nothing is dispatched after a violation. |
| `CaseExecutor.PassesExactly` | scripts/nvx_tools/adversarial_executor.py:392-529 | A case passes if and only if every repetition can be dispatched and ends clean, the inventory is complete, and the oracles see nothing. |
| `CaseExecutor.HonestAccepted` | scripts/nvx_tools/adversarial_broker.py:420-561 | The broker takes such a report if and only if its fields are within the bounds, as its samples of output always are. |
| `CaseExecutor.Executor.Handle` | scripts/nvx_tools/adversarial_executor.py:651-1004 | A quarantine lasts and refuses all but a shutdown; a request for it enters it if and only if the oracles close and the answer is written, and else keeps the session; a case is reported once for a sequence unless the host fails; a clean finalization finds exactly what the oracles saw, and its evidence shows that. |
| `CaseExecutor.QuarantineNotEntered` | scripts/nvx_tools/adversarial_executor.py:926-945 | An executor whose oracles do not close answers a request for quarantine with an error and goes on to run a case. |
| `Campaign.Quarantine` | scripts/nvx_tools/adversarial.py:1020-1071 | After a broken protocol the executor gets nothing but a request for quarantine, and ends contained if and only if it confirms that credibly or the note of giving it up is written; a local one that confirms it is in quarantine. |
| `Campaign.Choose` | scripts/nvx_tools/adversarial.py:1567-1621 | The campaign goes on exactly while there is time, cases are left, the replay has more, or the strategist has credits, with the replay's next case or what the strategist wants, which must be a case that is left; a campaign that stops has done what its reason says. |
| `Campaign.Strike` | scripts/nvx_tools/adversarial.py:1622-1664 | Sending a case keeps a clean campaign going, or stops it with the failure or fault that it had. |
| `Campaign.Attack` | scripts/nvx_tools/adversarial.py:1567-1664 | Every action is what was chosen then, and the attack stops short of its budget only if it was to or a case was not clean; no case follows such a one, an escape that the broker took is the verdict, one that it did not is a fault, the log holds the actions, the budget and the replay are kept, and what the local executor reports its oracles saw. |
| `CampaignOutcome.Finish` | scripts/nvx_tools/adversarial.py:1665-1711 | If the budget lasts, the executor is finalized, and asked for quarantine exactly when a case escaped; if it does not, nothing more is asked of it. The verdict on the local executor, without a fault, is an escape if and only if its oracles saw one. |
| `CampaignOutcome.Heed` | scripts/nvx_tools/adversarial.py:1672-1711 | An answer that is not credible breaks the protocol, and one that cannot be written is a fault that leaves what the attack found; any other decides: a violation that the executor found itself, or a canary that fails, fails the campaign. |
| `CampaignOutcome.Settle` | scripts/nvx_tools/adversarial.py:1712-1745 | A fault fails the campaign, blames the target exactly when it was at work, and never takes back an escape. |
| `CampaignOutcome.Reproduce` | scripts/nvx_tools/adversarial.py:1108-1209 | A rerun sends the candidate's cases in order to an executor of its own, safely, and reproduces a failure exactly when its events fail as expected; it breaks off only if time runs out, the executor is not ready, a case gets no result, the finalization is not answered credibly, its answer cannot be written, or its connection does not close. |
| `CampaignOutcome.Minimize` | scripts/nvx_tools/adversarial.py:1212-1276 | Reruns drop one action more each, from the front if a case failed and else from the back, and stop at one that does not fail alike, or only when the attempts, the time, or the actions are used up; the result is the shortest that failed alike, and there is none exactly if a rerun breaks off or it cannot be written. |
| `CampaignOutcome.Shorten` | scripts/nvx_tools/adversarial.py:1746-1799 | A failure is minimized if and only if it is the target's, the run was not cut short, there is time, and it is no escape from a local target. |
| `CampaignOutcome.RunCampaign` | scripts/nvx_tools/adversarial.py:1443-1799 | Over every run of controller, broker and executor: the verdict is a policy violation if and only if the broker took a report of an escape or the controller read a credible answer that the executor found one; with the local executor and no fault, if and only if its oracles saw one, and a pass means that they saw none; nothing but quarantine follows an escape; an executor that was escaped from ends contained if and only if the budget lasted, it was not lost, and it confirmed its quarantine or the note of giving it up was written; a local target that was escaped from is never rerun. |
| `CampaignOutcome.EscapeContained` | scripts/nvx_tools/adversarial.py:1665-1711 | After an escape, the executor is contained if and only if something was asked of it, it was not lost, and it confirmed its quarantine or the note of giving it up was written; the verdict is the escape either way. |
| `CampaignLaws.ReportDecides` | scripts/nvx_tools/adversarial.py:1622-1745 | A report of an escape is the verdict if and only if the broker takes it and it is written; otherwise the case is blamed for its availability, and the executor is contained if and only if it confirms its quarantine or the note of giving it up is written. |
| `CampaignLaws.HonestReportDecides` | scripts/nvx_tools/adversarial.py:1622-1745 | What the local executor reports is the verdict if and only if it is within the broker's bounds and is written. |
| `CampaignLaws.EscapeNotTaken` | scripts/nvx_tools/adversarial.py:1622-1745 | A case with more than 1,000,000 connections is reported as a policy violation and ends the campaign as a failure of availability, with the executor contained, if time ran out, exactly if the note of giving it up is written. |
| `CampaignLaws.FindingDecides` | scripts/nvx_tools/adversarial.py:1671-1745 | What the executor finds when it is finalized is the verdict if and only if its answer is credible and is written; otherwise the campaign fails, as one of availability if the answer was not credible or a case had failed, and else as before anything was tried. |
| `CampaignLaws.HonestFindingDecides` | scripts/nvx_tools/adversarial.py:1671-1745 | What the local executor finds is the verdict if and only if no oracle says too much of an error and the answer is written. |
| `CampaignLaws.FindingNotRead` | scripts/nvx_tools/adversarial.py:1701-1711 | A run whose executor answers that it found a violation and is quarantined, and which ends as a failure before anything was tried, because the answer cannot be written. |
| `CampaignLaws.EscapeNotFollowed` | scripts/nvx_tools/adversarial.py:1666-1670 | A run in which a case escapes, time runs out, and the executor is neither asked for anything nor ended. |
| `CampaignOutcome.PassedMeansClean` | scripts/nvx_tools/adversarial.py:1567-1711 | A campaign that passed has a clean result for every action, no fault, and an executor that was finalized cleanly. |
| `CampaignOutcome.MinimizedEnds` | scripts/nvx_tools/adversarial.py:1225-1276 | What is reported as minimized is a nonempty suffix of the actions that ends in the failed case, if one failed, and else a prefix. |
| `CampaignOutcome.MinimizedFails` | scripts/nvx_tools/adversarial.py:1225-1276 | Unless it is the original, a rerun of it failed as the campaign did. |
| `Uuid.Parse` | nvx-rs/src/uuid.rs:64-84 | A byte string of any length parses exactly when it is the text of some UUID, as that UUID. |
| `Uuid.Display` | nvx-rs/src/uuid.rs:94-105 | What is displayed is the text of the UUID. |
| `Uuid.TextsAreUnique` | nvx-rs/src/uuid.rs:64-105 | Two texts are equal if and only if their UUIDs are. |
| `Uuid.ParseDisplayed` | nvx-rs/src/uuid.rs:64-105 | What is displayed parses as itself. |
| `Uuid.DisplayParsed` | nvx-rs/src/uuid.rs:64-105 | What parses displays as itself. |
| `Uuid.SwapGroupsConverts` | nvx-rs/src/uuid.rs:45-55 | The conversion of layouts undoes itself and stores the first three groups little-endian. |

## Left out

- The execution engine, sessions, GPT reader and network policy of `nvx-rs`: their source is not part of this model.
- Lexing with regular expressions (Rust tokens, HTML tags, entities, autolinks, link destinations): matches are parameters or tokens are given.
- The block structure of Markdown (`_layout`) and the nesting of raw HTML elements (`_Elements`): the inline engine and the columns that the layout is built from are modelled.
- `_link_end` and the label rules: any partial function whose end lies after the bracket stands for them.
- What raw HTML and entities render: any text, and any tags for raw HTML, which stand where they are and are not matched.
- `github_slug`: any function from texts to slugs.
- Tokens have no offsets or lines, which only messages use.
- The similarity of two entries is any function, and the quick upper bounds on it, which only save time, are not computed.
- The details and categories of the messages that a comparison prints, and the order of keys, which is given.
- `cfg` attributes are given by their path and the range of their arguments.
- Clocks, processes, JSON and the strategist of a campaign: any behaviour at any step stands for them, and so for whether a file can be written.
- The shape of an executor's answers, as JSON and base64: one that is malformed is no answer of the protocol, as any outcome. The values that are checked are modelled.
- The summary and the manifest of a campaign: a run in which they cannot be written reports nothing.
- What closing the connection does to an executor that is not contained: it is sent a shutdown, and its process is ended if that does not end it.
- TestConditions.RequireTestSound: asks that the predicates that are said to require `test` fold to false without it, because code of one that does not, and none of whose options occurs twice, compiles without `test`.
