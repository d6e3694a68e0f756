# LangChain playground cores, modelled in Dafny

This project models three groups of sequential logic from a playground
repository of LangChain agents and Notion utilities. Each is stated as Dafny
datatypes, functions, methods and lemmas.

- **The ReWOO engine** (`ReWOO/graph.py`).
  - A planner writes a plan. `PlanParser` cuts it into
    `(description, #E<n>, tool, input)` steps with an explicit scanner for
    the regular expression of line 45. The scanner tries alternatives in the
    backtracking order of Python's engine.
  - `ReWOO` runs the steps one at a time. Before each tool call it rewrites
    the input with the evidence gathered so far, one key at a time and in
    insertion order. It stores the evidence under the step's variable.
  - The solver then answers from a transcript of the plan. The planner, the
    search tool and the chat model are the parameter `Services`. The
    library's graph is the explicit loop `plan → tool → (tool | solve)`.
  - Two behaviours of the code are kept:
    - A plan with no steps reaches the tool node anyway and fails there with
      `IndexError`.
    - A plan that repeats a variable never reaches the solver, because the
      results dict stops growing.
- **The Notion LaTeX splitters.** They cut a rich-text item whose text holds
  `\( \)`, `\[ \]` or `$$ $$` formulas into text and equation parts.
  - `LatexScan` is the `find`-based scanner. With the fixed delimiter list it
    models `Notion/math_converter.py`. With any iteration order of the
    delimiter set it models `Notion/notion_formatter.py`.
  - `LatexRegex` covers `Notion/block_formatter.py` and `Notion/formatters.py`.
    It runs `finditer` with the lazy pattern
    `(.*?)(\(|\[|$$)(.*?)(\)|\]|$$)|(.+)$` as a scanner. `.` stops at a
    newline unless the DOTALL flag is set, and `$` matches at the end or
    before a final newline.
  - `Notion` holds the shared rich-text and block data and the part
    constructors.
  - The block converters rewrite a `NotionBlock` object in place.
- **The serialisers.**
  - `NotionMarkdown` is `blocks_to_markdown`, with a counter array shared by
    every level of the recursion.
  - `MathBlock` is the `$$` flattening of rich text, its splitting back into
    parts, and the rebuilding of blocks from rows.
  - `Storm` is the STORM outline and persona text and the editor-name
    pattern.
  - `ChatHistory` is the role tagging of `format_history`.
  - `Strings` models the Python string operations the code relies on:
    `strip`, `find`, `split`, `join`, `replace` and `str(int)`.

Where the code and its documentation differ, the model follows the code:

- **Plan descriptions.** Group 1 of the plan pattern is greedy, so a step's
  description keeps the whitespace before `#E`
  (`PlanParser.TrailingSpaceKept`). It is not trimmed.
- **Several clauses on one line.** The planner prompt's example puts each
  `Plan:` on its own line. When a planner writes two clauses on one line,
  greedy group 1 runs to the last call on the line, and the two clauses
  become one step whose description holds the first clause
  (`PlanParser.SameLineClausesMerge`).
- **Reading back a plan.** A plan in the layout of the planner prompt's
  example, one clause `Plan: d#E = T[x]` per line, parses back into exactly
  its steps (`PlanParser.ParseClauses`). Each step must be plannable: a
  description that starts with a non-blank, and no `#` in the input that a
  `=` follows later in the input.
- **Reading back the solver's listing.** `solve` lists each step as
  `Plan: d` and, on the next line, `#E = T[x]`. Before any evidence is
  substituted, that listing parses back into the same steps, provided each
  description starts with a non-blank (`PlanParser.ParseLines`,
  `ReWOO.TranscriptParses`).
- **Quote blocks.** The quote branch of `_extract_block_content` is not dead.
  It runs for a quote block without `rich_text`, and then it raises
  `KeyError`.

## Model

| member | source | states |
|---|---|---|
| PlanParser.Skip | ReWOO/graph.py:45 | a greedy run of `\s`, `\d`, `\w`, `.` or `[^\]]` from a position ends at the end of the text or at a character outside the class |
| PlanParser.SkipRun | ReWOO/graph.py:45 | every character of that run belongs to the class |
| PlanParser.SkipTo | ReWOO/graph.py:45 | conversely, a stretch of class characters followed by the end or by a character outside the class is exactly the run |
| PlanParser.MatchTailSound | ReWOO/graph.py:45 | what the tail scanner finds matches `\s*(#E\d+)\s*=\s*(\w+)\s*\[([^\]]+)\]`: blanks, `#E` and digits, blanks, `=`, blanks, a word, blanks, `[`, an input without `]`, and `]` |
| PlanParser.MatchTailComplete | ReWOO/graph.py:45 | every match of that tail pattern at a position is the one the scanner finds there, so the match is unique |
| PlanParser.TableSound | ReWOO/graph.py:45 | an entry of the table of tails is a match of the tail pattern at its position, and an empty entry means there is none |
| PlanParser.TryEndIsLast | ReWOO/graph.py:45 | greedy `(.+)`: the description end found is the last one on the line that a tail follows, and when none is found no end on the line has one |
| PlanParser.TryWhitespaceIsLast | ReWOO/graph.py:45 | greedy `\s*`: the description starts after the longest run of blanks that leaves room for one, and when none is found no shorter run leaves room either |
| PlanParser.MatchAtSound | ReWOO/graph.py:45 | a match at `p` is `Plan:`, blanks, a newline-free description and a tail, and it ends after the `]`; no tail starts later on the description's line, and no longer run of blanks after `Plan:` leaves room for any description |
| PlanParser.MatchAtNone | ReWOO/graph.py:45 | `Plan:` anchors no match only when no run of its blanks is followed by a description that a tail follows |
| PlanParser.MatchAtWhen | ReWOO/graph.py:45 | conversely, after `Plan:` and all its blanks, a description followed by a tail, with no tail starting later on the line, is the match at `p` |
| PlanParser.SpansWellFormed | ReWOO/graph.py:45 | the four groups of a match form a well-formed step |
| PlanParser.AnchorsAt | ReWOO/graph.py:54 | entry `p` of the table the search runs over is the pattern anchored at `p` |
| PlanParser.Leftmost | ReWOO/graph.py:54 | one search step from a position reports a match that starts at or after it and ends within the text |
| PlanParser.LeftmostFound | ReWOO/graph.py:54 | the search reports the table's entry at the reported match's own start |
| PlanParser.LeftmostIsFirst | ReWOO/graph.py:54 | no position between the search position and the reported match, and none at all when nothing is reported, anchors a match |
| PlanParser.Matches | ReWOO/graph.py:54 | the matches of `findall` come in order, each starting at or after the end of the previous one and ending within the text |
| PlanParser.MatchesAreLeftmost | ReWOO/graph.py:54 | each match is the leftmost match after the end of the previous match |
| PlanParser.MatchesExhaustive | ReWOO/graph.py:54 | after the last match the rest of the text holds no match |
| PlanParser.NoMatchSkipped | ReWOO/graph.py:54 | every match is the pattern anchored at its own start, no position in a gap between matches anchors one, and none after the last one does |
| PlanParser.MatchesWellFormed | ReWOO/graph.py:54 | every reported match is a match of the pattern and yields a well-formed step |
| PlanParser.Parse | ReWOO/graph.py:54 | every parsed step has a non-empty newline-free description, a `#E<digits>` variable, a word tool name and a non-empty input without `]` |
| PlanParser.LinePieces | ReWOO/graph.py:106 | where the listing `Plan: d\n#E = T[x]` of a step stands, each of its fields and literals stands in turn |
| PlanParser.LineTailSpans | ReWOO/graph.py:45 | the call line of a listed well-formed step is a tail match from the newline on |
| PlanParser.LineMatch | ReWOO/graph.py:45 | a listed writable step is matched at its `Plan:`, with its description as group 1 and its call as the tail |
| PlanParser.LineStep | ReWOO/graph.py:45 | the four groups of that match are exactly the step's description, variable, tool and input |
| PlanParser.LineFound | ReWOO/graph.py:45 | the match of a listed writable step ends where its listing ends |
| PlanParser.MatchesStep | ReWOO/graph.py:54 | a match anchored at the search position is the first reported, and the rest are reported from its end |
| PlanParser.LinesListed | ReWOO/graph.py:106 | a listing of steps that fills the rest of the text stands step after step |
| PlanParser.LinesMatch | ReWOO/graph.py:54 | the matches of writable steps listed one after the other are exactly the listings of those steps, in order |
| PlanParser.ListedSteps | ReWOO/graph.py:45 | the groups of the `i`-th listed match are exactly the fields of step `i` |
| PlanParser.ParseListed | ReWOO/graph.py:45-54 | writable steps listed one after the other to the end of the text are what `findall` reads back |
| PlanParser.ParseLines | ReWOO/graph.py:45-54 | round trip: the listing of writable steps in the solver's layout parses back to exactly those steps |
| PlanParser.CallTailSpans | ReWOO/graph.py:45 | a written call `#E = T[x]` of a well-formed step is a match of the tail pattern from its `#` |
| PlanParser.CallGroups | ReWOO/graph.py:45 | the groups of that tail match are exactly the step's variable, tool and input |
| PlanParser.ClausePieces | ReWOO/graph.py:33-35 | where a planner clause `Plan: d#E = T[x]` and its newline stand, each field and literal stands in turn |
| PlanParser.ClauseNoLaterCall | ReWOO/graph.py:45 | in a plannable clause no tail match starts after the description and before the newline, so greedy group 1 ends at the clause's own call |
| PlanParser.ClauseMatch | ReWOO/graph.py:45 | a plannable clause followed by the end of the text or the next `Plan:` is matched at its `Plan:`, with its description as group 1 and its call as the tail |
| PlanParser.ClauseStep | ReWOO/graph.py:45 | the four groups of that match are exactly the step's description, variable, tool and input |
| PlanParser.ClauseFound | ReWOO/graph.py:45 | the match of a written plannable clause ends just before the clause's newline |
| PlanParser.MatchesPast | ReWOO/graph.py:54 | a position that anchors no match changes nothing `findall` reports from it |
| PlanParser.ClausesMatch | ReWOO/graph.py:54 | the matches of plannable clauses written one per line are exactly the clauses' own matches, in order |
| PlanParser.ClauseSteps | ReWOO/graph.py:45 | the groups of the `i`-th clause's match are exactly the fields of step `i` |
| PlanParser.ParseClausesFrom | ReWOO/graph.py:45-54 | plannable clauses written one per line to the end of the text are what `findall` reads back |
| PlanParser.ParseClauses | ReWOO/graph.py:45-54 | round trip: a plan of plannable steps in the planner's layout, one `Plan:` clause per line, parses back to exactly those steps, in order, each field as written |
| PlanParser.ExamplePlanParses | ReWOO/graph.py:33-35 | the two-line plan `Plan: add #E1 = Google[2+3]` / `Plan: double #E2 = LLM[Double #E1]` parses to its two steps, the descriptions keeping their blank before `#E` |
| PlanParser.TrailingSpaceKept | ReWOO/graph.py:45 | `Plan:a #E1=G[x]` parses to the one step `("a ", "#E1", "G", "x")`, with the space kept in the description |
| PlanParser.SameLineClausesMerge | ReWOO/graph.py:45 | `Plan:a #E1=G[x] Plan:b #E2=L[y]` parses to the single step `("a #E1=G[x] Plan:b ", "#E2", "L", "y")`: greedy group 1 swallows the first clause |
| ReWOO.Planned | ReWOO/graph.py:50-55 | the plan node stores the planner's text unchanged as `plan_string` and its parse as `steps`, with no results yet |
| ReWOO.PlanNode | ReWOO/graph.py:50-55 | the plan node's method computes exactly `Planned` |
| ReWOO.CurrentTask | ReWOO/graph.py:61-67 | the current step is 1 without results, even with no steps; with results it is None exactly when there are as many results as steps, and otherwise it is the number of results plus one |
| ReWOO.Route | ReWOO/graph.py:112-119 | the router chooses the solver exactly when the current step is None, and the tool node otherwise |
| ReWOO.Dispatch | ReWOO/graph.py:77-82 | a tool call fails exactly when the tool is neither `Google` nor `LLM`, and then with ValueError |
| ReWOO.ToolStep | ReWOO/graph.py:70-84 | the tool node succeeds exactly when a step is current, lies within the plan and names a known tool; it then stores the substituted call's result under the step's variable; TypeError when no step is current, IndexError past the plan |
| ReWOO.ToolExecution | ReWOO/graph.py:70-84 | the tool node's method, with its substitution loop, computes exactly `ToolStep` |
| ReWOO.PutLookup | ReWOO/graph.py:83 | after storing `v` under `k`, `k` maps to `v` and every other key keeps its value |
| ReWOO.PutExisting | ReWOO/graph.py:83 | storing under a present key keeps the keys and their order |
| ReWOO.PutNew | ReWOO/graph.py:83 | storing under a new key appends exactly one entry and leaves earlier entries unchanged |
| ReWOO.SubstituteLastKey | ReWOO/graph.py:75-76 | the last key's step cuts the text at every occurrence of the key and joins the pieces with its value |
| ReWOO.SubstituteNoKeys | ReWOO/graph.py:75-76 | a text that holds none of the keys is left unchanged |
| ReWOO.ShorterKeyFirst | ReWOO/graph.py:75-76 | with `#E1 → a` stored before `#E10 → b`, `#E10` becomes `a0`: the earlier key rewrites part of the later one |
| ReWOO.LaterKeyRewritesEarlierValue | ReWOO/graph.py:75-76 | a later key also rewrites text an earlier replacement produced: `#E1 → #E2`, then `#E2 → x`, turns `#E1` into `x` |
| Strings.ReplaceIsJoinOfSplit | ReWOO/graph.py:76 | `str.replace` equals the join, by the replacement, of the split at the target |
| ReWOO.TranscriptAppend | ReWOO/graph.py:100-106 | the transcript is the in-order concatenation of per-step entries, with no separator |
| ReWOO.SubstituteStep | ReWOO/graph.py:102-105 | the solver's inner loop substitutes the evidence into both the variable name and the input |
| ReWOO.BuildTranscript | ReWOO/graph.py:100-106 | the accumulation loop builds exactly the transcript of `Plan: d\nname = tool[input]` entries |
| ReWOO.TranscriptWithoutEvidence | ReWOO/graph.py:100-106 | before any evidence, the transcript `solve` builds is the plan's steps listed as `Plan: d\n#E = T[x]` |
| ReWOO.TranscriptParses | ReWOO/graph.py:100-106 | before any evidence, the transcript of writable steps parses back into exactly those steps |
| ReWOO.Solve | ReWOO/graph.py:99-109 | the solver returns the transcript and the content of the one chat-model reply to the prompt built from it and the task |
| ReWOO.RunTools | ReWOO/graph.py:124-128 | the loop of tool runs and routing computes exactly `ToolLoop` |
| ReWOO.Run | ReWOO/graph.py:122-131 | the compiled graph runs plan, then the tool loop, then solve, and stores the answer as `result`; an error of the tool loop is the error of the run |
| ReWOO.Expected | ReWOO/graph.py:72-84 | the evidence after the first `k` steps of a plan has exactly `k` entries |
| ReWOO.ExpectedKeys | ReWOO/graph.py:83 | entry `i` of that evidence is keyed by step `i`'s variable |
| ReWOO.RunOneStep | ReWOO/graph.py:70-84 | with distinct variables and known tools, running step `k + 1` extends the evidence of `k` steps by exactly that step's entry |
| ReWOO.RunsRemainingSteps | ReWOO/graph.py:122-129 | from step `k`, the loop reaches the solver with the full evidence when at least the remaining number of tool runs is allowed, and hits the run limit otherwise |
| ReWOO.SolveAfterEveryStep | ReWOO/graph.py:122-129 | with no results, N ≥ 1 steps, distinct variables and known tools, the solver is reached after exactly N tool runs: N runs suffice and N - 1 do not |
| ReWOO.StopsAtUnknownTool | ReWOO/graph.py:77-82 | the first step with an unknown tool ends the loop with ValueError, before the results gain its entry |
| ReWOO.UnknownToolHere | ReWOO/graph.py:77-82 | a current step with an unknown tool raises ValueError at once |
| ReWOO.RepeatedVariableSpins | ReWOO/graph.py:64-83 | when the current step's variable is already a key, the results stop growing and the loop never reaches the solver |
| ReWOO.SharedVariableNeverSolves | ReWOO/graph.py:83 | a plan whose first two steps share a variable never reaches the solver |
| ReWOO.NoStepsIndexError | ReWOO/graph.py:62-73 | a plan with zero steps still goes to the tool node, which indexes the empty step list and raises IndexError |
| Notion.CreateTextPart | Notion/rich_text.py:4-16 | a text part has the new content as text and plain text, no link, and the source's annotations and href (also `extract_text_part`, Notion/notion_formatter.py:172-184) |
| Notion.CreateEquationPart | Notion/rich_text.py:19-31 | an equation part has the stripped new content as expression, the unstripped content as plain text, and the source's annotations and href (also `text_to_equation` and `extract_equation_part`) |
| Notion.TextToText | Notion/block_formatter.py:5-17 | `text_to_text` has the new content as text and plain text and copies link, annotations and href (the same function is Notion/utils.py:18-30) |
| Notion.TextPartsAgree | Notion/rich_text.py:12 | the two text constructors agree exactly when the source item has no link |
| LatexScan.PairOf | Notion/math_converter.py:12-15 | a pair of one delimiter kind found from `start_idx` has its opener at or after `start_idx` and its closer after the opener, both within the text |
| LatexScan.PairOfIsFirst | Notion/math_converter.py:12-15 | the opener is the first occurrence from `start_idx`, the closer the first occurrence after the opener, and there is no pair exactly when no opener from `start_idx` has a closer after it |
| LatexScan.FirstHit | Notion/math_converter.py:11-15 | the pair the kind loop finds belongs to one of the remaining kinds and lies within the text |
| LatexScan.FirstHitIsFirst | Notion/math_converter.py:11-15 | the reported pair is the first opener of its kind and the first closer after it, and the kind loop finds nothing exactly when no remaining kind has an opener followed by its closer |
| LatexScan.FirstKindWins | Notion/math_converter.py:11-29 | the kinds are tried in order: the first kind with a complete pair wins, and every earlier kind has none, even if another kind occurs earlier in the text |
| LatexScan.Tokens | Notion/math_converter.py:9-36 | the scan from an index gives no token exactly when the index is at or past the end: empty content gives an empty list |
| LatexScan.TokensHit | Notion/math_converter.py:17-27 | a found pair gives the text before it, then the formula, then the scan from just past the closer, which is strictly past the old index |
| LatexScan.TokensSpellContent | Notion/math_converter.py:9-36 | round trip: the tokens, written out with their delimiters, are the content from the scan index on |
| LatexScan.TokensAlternate | Notion/math_converter.py:17-36 | plain runs are never empty and never adjacent |
| LatexScan.NoPairSingleRun | Notion/math_converter.py:31-35 | when no kind has an opener followed by its closer from the scan index on, the rest of the content is one plain run |
| LatexScan.NoOpenerSingleRun | Notion/math_converter.py:31-35 | non-empty content without any opener is one plain run equal to the whole content |
| LatexScan.StrippedEquationPart | Notion/math_converter.py:23-25 | the equation part has the stripped inner content as both expression and plain text |
| LatexScan.HitPartsShape | Notion/math_converter.py:17-25 | text before an equation becomes a part only when the opener lies after the scan index |
| LatexScan.TryKinds | Notion/math_converter.py:10-29 | the kind loop finds a pair exactly when some kind has an opener from `start_idx` followed by its closer, moves the index strictly forward within the text, and emits the parts of that pair |
| LatexScan.ProcessTextContent | Notion/math_converter.py:4-38 | the while loop emits exactly the parts of the tokens (the list order or any set order, Notion/notion_formatter.py:200-235) |
| LatexScan.ConvertListAppend | Notion/math_converter.py:40-47 | the conversion of a rich-text list is the conversion of its items, in order |
| LatexScan.PlainItem | Notion/math_converter.py:31-35 | a text item without openers gives nothing when empty, and otherwise one text part with the whole content, with its link dropped |
| LatexScan.ProcessRichText | Notion/math_converter.py:40-47 | the rich-text loop splits text items and keeps every other item, in order |
| LatexScan.ConvertLatex | Notion/math_converter.py:49-53 | the blocks are updated in place in order; a block with empty `rich_text` is untouched; a block missing its object or `rich_text` raises KeyError and leaves it and every later block untouched |
| LatexScan.ConvertBlock | Notion/math_converter.py:50-52 | one block: KeyError exactly when its object or `rich_text` is missing; otherwise it gets the converted list |
| LatexScan.ConvertLatexBlock | Notion/notion_formatter.py:237-247 | for any iteration order of the delimiter set, a block without its object raises AttributeError; a missing or empty `rich_text` is left alone; otherwise the list is overwritten in place |
| LatexScan.LoopAllBlocks | Notion/notion_formatter.py:249-251 | the result is the same blocks in the same order, each converted, unless a block raises |
| LatexScan.ListOrderPrefersParentheses | Notion/math_converter.py:2 | with the list order, `$$a$$\(b\)` first gives the plain run `$$a$$`, because `\(` is tried first |
| LatexScan.SetOrderMayPreferDollars | Notion/notion_formatter.py:143 | a set order that tries `$$` first turns the same text's first token into the formula `a` |
| LatexRegex.LineEnd | Notion/block_formatter.py:87 | a run of `.` stops at the next newline without DOTALL, and at the end of the text otherwise |
| LatexRegex.CloserFrom | Notion/block_formatter.py:87 | the lazy inner group ends at the nearest closer of any kind |
| LatexRegex.PairFrom | Notion/block_formatter.py:87 | a formula found from a position has an opener at or after it and the nearest closer after that opener, within the line |
| LatexRegex.PairFromIsFirst | Notion/block_formatter.py:87 | the lazy leading group ends at the first opener that some closer follows on the line: no opener before it has one, and there is no formula exactly when no opener has one |
| LatexRegex.MatchAt | Notion/block_formatter.py:87 | a match at a position starts there, is never empty and ends within the text |
| LatexRegex.Search | Notion/block_formatter.py:89 | the next match from a position starts at or after it |
| LatexRegex.SearchFinds | Notion/block_formatter.py:89 | the search reports the match the pattern makes at the position it stops at |
| LatexRegex.SearchIsFirst | Notion/block_formatter.py:89 | no position between the search's start and the reported match, and none at all when nothing is reported, anchors a match |
| LatexRegex.PairNearest | Notion/block_formatter.py:87 | in a formula match no closer starts inside the inner text: any opener closes at the nearest following closer, of whatever kind |
| LatexRegex.MatchWellFormed | Notion/block_formatter.py:87 | each match is a listed opener and closer around inner text, or a non-empty rest; without DOTALL none of its groups crosses a newline; and it spells the text it covers |
| LatexRegex.MatchesWellFormed | Notion/block_formatter.py:89 | every match `finditer` yields is well formed |
| LatexRegex.RestIsLast | Notion/block_formatter.py:101-103 | only the last match can be a rest-of-line match, so the loop's `break` cuts nothing off |
| LatexRegex.PiecesOf | Notion/block_formatter.py:90-103 | a match gives its non-empty before-text, its non-empty formula and its non-empty rest as parts, in that order |
| LatexRegex.ConvertRichText | Notion/block_formatter.py:57-105 | the match loop emits exactly the parts of every match (also `_convert_rich_text`, Notion/formatters.py:120-143) |
| LatexRegex.PartsFromSource | Notion/block_formatter.py:93-102 | every part copies annotations and href, is non-empty, keeps the link on text, and has the stripped plain text as expression |
| LatexRegex.EmptyFormulaVanishes | Notion/block_formatter.py:96-98 | `\(\)` produces no part at all |
| LatexRegex.MixedDelimiters | Notion/block_formatter.py:87 | `\(x$$` is one formula `x`: an opener closes at a closer of another kind |
| LatexRegex.NoOpenerRest | Notion/block_formatter.py:87 | a non-empty text without openers or newlines is one rest match |
| LatexRegex.NoOpenerSingleText | Notion/block_formatter.py:87-103 | such an item converts to one text part holding the whole content |
| LatexRegex.SearchAgrees | Notion/block_formatter.py:87 | on newline-free text the search is the same with and without DOTALL |
| LatexRegex.MatchesAgree | Notion/block_formatter.py:89 | on newline-free text the matches are the same with and without DOTALL |
| LatexRegex.NewlineFreeRoundTrip | Notion/block_formatter.py:87-103 | on newline-free text the matches spell the whole text |
| LatexRegex.DotAllMatchesAtOnce | Notion/block_formatter.py:87 | with DOTALL a match starts at every position before the end, so no text is skipped |
| LatexRegex.DotAllRoundTrip | Notion/block_formatter.py:87 | with DOTALL the matches spell the whole text |
| LatexRegex.LinesDropped | Notion/block_formatter.py:87 | as written, `a\nb` gives only the part `b` |
| LatexRegex.LinesKeptWithDotAll | Notion/block_formatter.py:87 | with DOTALL, `a\nb` gives one part holding `a\nb` |
| LatexRegex.OthersKept | Notion/block_formatter.py:111-115 | non-text items pass through unchanged and in order, and splitting text items adds none |
| LatexRegex.ItemPartsOf | Notion/block_formatter.py:112-115 | a text item is split and any other item is kept as it is |
| LatexRegex.ConvertRichTextList | Notion/block_formatter.py:110-115 | the list loop emits each item's parts in order |
| LatexRegex.ConvertLatexBlock | Notion/block_formatter.py:107-117 | a block without its object raises AttributeError; a missing or empty `rich_text` is left alone; otherwise the same block gets the converted list |
| LatexRegex.ProcessBlock | Notion/formatters.py:157-172 | a block of a type without rich text is returned unchanged; a missing object raises KeyError; a missing `rich_text` raises TypeError; otherwise the list is written back into the same block |
| LatexRegex.ConvertersAgreeOnBlocks | Notion/formatters.py:157-172 | run on two equal blocks of a rich-text type that have a `rich_text` list, `convert_latex_block` (Notion/block_formatter.py:107-117) and `process_block` both succeed and leave equal blocks, an empty list included |
| NotionMarkdown.HeadingKinds | Notion/utils.py:14 | the rich-text types that start with `heading_` are exactly `heading_1` to `heading_3` |
| NotionMarkdown.HeadingLevel | Notion/utils.py:63-64 | the heading level is the type's last digit, 1 to 3 |
| NotionMarkdown.PrefixShapes | Notion/utils.py:63-66 | a heading prefix is n `#` and a space with no indent; a bulleted item's prefix is 2×level spaces and `- ` |
| NotionMarkdown.IndentLength | Notion/utils.py:60 | the indent is 2×level spaces |
| NotionMarkdown.WrapNests | Notion/utils.py:80-91 | the marks nest, with code innermost, then bold, italic and strikethrough, and underline outermost |
| NotionMarkdown.WrapAll | Notion/utils.py:80-91 | with every flag set the text becomes ``__~~***`t`***~~__`` |
| NotionMarkdown.DefaultUnwrapped | Notion/formatters.py:13-22 | the default annotations have every flag false and colour `default`, and they add no marks |
| NotionMarkdown.EquationInline | Notion/utils.py:76-78 | an equation renders as `\(expr\)` inside its marks |
| NotionMarkdown.OtherInline | Notion/utils.py:72-91 | any other item contributes only its marks |
| NotionMarkdown.NonEmpty | Notion/utils.py:104 | the filter's result holds only non-empty pieces, and a piece is in it exactly when it is a non-empty input piece |
| NotionMarkdown.NonEmptyOne | Notion/utils.py:104 | a single piece is kept exactly when it is not empty |
| NotionMarkdown.NonEmptyAppend | Notion/utils.py:104 | the filter of two lists one after the other is the two filters one after the other, so order and repetitions are kept |
| NotionMarkdown.JoinLinesEmpty | Notion/utils.py:104 | the output is empty exactly when every piece is empty |
| NotionMarkdown.Restart | Notion/utils.py:99-100 | restarting sets that level's counter to 0 and changes no other counter |
| NotionMarkdown.Zeros | Notion/utils.py:54 | the default counter array is ten zeros |
| NotionMarkdown.NonRichBlockSilent | Notion/utils.py:58 | a block of a type without rich text contributes nothing, not even its children, and leaves the counters alone |
| Strings.NatToStringValue | Notion/utils.py:69 | the decimal digits the f-string prints for a counter denote that counter |
| NotionMarkdown.NumberedLine | Notion/utils.py:67-69 | a numbered item at level L prints its indent and the incremented counter of level L |
| NotionMarkdown.BlockCounts | Notion/utils.py:67-68 | a block raises its own level's counter by one exactly when it is a numbered item; other siblings do not reset it |
| NotionMarkdown.ListCounts | Notion/utils.py:56-68 | a list raises its level's counter by the number of numbered items in it |
| NotionMarkdown.BlockKeepsOuterCounters | Notion/utils.py:56-102 | rendering a block leaves the array's length and the counters of outer levels unchanged |
| NotionMarkdown.ListKeepsOuterCounters | Notion/utils.py:56-102 | rendering a list leaves the array's length and the counters of outer levels unchanged |
| NotionMarkdown.ChildCounterRestarts | Notion/utils.py:98-102 | a block with children restarts the next level's counter at 0, so afterwards it equals the number of numbered children |
| NotionMarkdown.BlockErrors | Notion/utils.py:67-72 | a numbered item past the tenth level raises IndexError; a rich-text block without its object or `rich_text` raises KeyError |
| NotionMarkdown.TenLevels | Notion/utils.py:54-68 | a numbered item at level 10 raises IndexError |
| NotionMarkdown.AddMarks | Notion/utils.py:80-91 | the annotation steps compute exactly the nested wrapping |
| NotionMarkdown.AppendItems | Notion/utils.py:72-93 | the item loop appends every item's marked text to the prefix |
| NotionMarkdown.HeadOf | Notion/utils.py:63-69 | the prefix and the counter array after it, updated in place |
| NotionMarkdown.MarkdownOfBlock | Notion/utils.py:57-102 | one block's pieces and the shared array after them, updated in place |
| NotionMarkdown.MarkdownOf | Notion/utils.py:48-104 | the recursive function over a shared array computes exactly the modelled pieces, joined by newlines, and the array it leaves |
| NotionMarkdown.BlocksToMarkdown | Notion/utils.py:48-54 | a top-level call starts at level 0 with ten zero counters |
| NotionMarkdown.NumberedThenParagraph | Notion/utils.py:67-69 | a numbered item followed by a paragraph renders as `1. a` and `p`, and the counter stays 1 |
| NotionMarkdown.SecondNumbered | Notion/utils.py:98-102 | the second numbered item prints `2.` and its numbered child starts again at `1.` |
| NotionMarkdown.NestedNumbering | Notion/utils.py:48-104 | `1. a`, `p`, `2. b` with child `c` render as `1. a\np\n2. b\n  1. c` |
| MathBlock.RichTextContentAppend | Notion/math_block.py:81-89 | the content of a list is the content of its items, in order |
| MathBlock.ProcessRichText | Notion/math_block.py:81-89 | the loop concatenates text verbatim, writes each equation as `$$ expr $$` and ignores other items |
| MathBlock.FormattedSnoc | Notion/math_block.py:97-101 | each piece's parts follow the parts of the pieces before it |
| MathBlock.FormatContentForNotion | Notion/math_block.py:91-104 | the loop formats exactly the pieces of the split at `$$`: odd pieces become equations with stripped expressions, non-empty even pieces become text |
| MathBlock.FormattedParts | Notion/math_block.py:97-101 | pieces without `$$` give parts whose text is non-empty and free of `$$` and whose expressions are stripped |
| MathBlock.FormatContentParts | Notion/math_block.py:94-101 | every formatted part of any string is of that shape |
| MathBlock.SplitAfterFirst | Notion/math_block.py:94 | `split("$$")` cuts at the first `$$` and splits the rest again |
| Strings.Split | Notion/math_block.py:94 | the pieces of a split hold no separator and join back to the string |
| MathBlock.FormatContentEmpty | Notion/math_block.py:91-103 | the formatted parts are empty exactly when the string is empty |
| MathBlock.SplitContent | Notion/math_block.py:81-94 | under the round-trip conditions, splitting the content at `$$` gives the texts and the padded expressions in turn |
| MathBlock.FormattedPieces | Notion/math_block.py:97-101 | those pieces format to one part per item |
| MathBlock.RoundTrip | Notion/math_block.py:81-104 | formatting the content of a list of texts and equations gives back its text and equation sequence, when: the list holds no other items; texts are non-empty and free of `$$`; no text is followed by a text; a text followed by an equation does not end in `$`; and expressions are stripped and free of `$$` |
| MathBlock.DollarEndBreaksRoundTrip | Notion/math_block.py:81-94 | the text `a$` followed by the equation `x` is written `a$$$ x $$` and comes back as the text `a` and the equation `$ x` |
| MathBlock.ExtractBlockContent | Notion/math_block.py:68-79 | when the object has a `rich_text` key, the content is that text's flattening |
| MathBlock.QuoteBranchRaises | Notion/math_block.py:76-77 | a quote block gives content exactly when it has `rich_text`: the quote branch can only raise |
| MathBlock.ContentNeedsRichText | Notion/math_block.py:72-79 | except for code blocks, a block without `rich_text` gives `""`, or KeyError for a quote |
| MathBlock.RowsAligned | Notion/math_block.py:58-66 | the frame has one (id, type, content) row per block, in order |
| MathBlock.RowsOk | Notion/math_block.py:58-66 | the frame is built exactly when no block's content raises |
| MathBlock.RowsErrorStays | Notion/math_block.py:61-63 | the first block that raises decides the outcome |
| MathBlock.ExtractContent | Notion/math_block.py:68-79 | the method computes exactly `ExtractBlockContent` |
| MathBlock.BlocksToRows | Notion/math_block.py:58-66 | the row loop computes exactly the rows |
| MathBlock.KeptRows | Notion/math_block.py:123-125 | a row gives a block exactly when its type has a handler and it is a divider or its content is non-empty |
| MathBlock.RowBlocksAppend | Notion/math_block.py:121-125 | the blocks of rows follow the row order |
| MathBlock.CombineOrder | Notion/math_block.py:108-125 | the result starts with the greeting paragraph, and each further row adds its block at the end, if kept |
| MathBlock.RowBlocksAtMost | Notion/math_block.py:121-125 | at most one block per row, and exactly one per row when every row is kept |
| MathBlock.CombineTextAndEquations | Notion/math_block.py:106-127 | the row loop computes exactly the greeting followed by the kept rows' blocks |
| Storm.SubsectionAsStr | langchain_playground/STORM/storm.py:26-28 | the subsection text is stripped and starts with `###` |
| Storm.SubsectionKept | langchain_playground/STORM/storm.py:28 | when the description ends in a non-space, the subsection text is exactly `### title\n\ndescription` |
| Storm.SubsectionBlank | langchain_playground/STORM/storm.py:28 | with a blank description only the right-stripped `### title` is left |
| Storm.SectionAsStr | langchain_playground/STORM/storm.py:36-39 | the section text is stripped and starts with `##` |
| Storm.SectionWithoutSubsections | langchain_playground/STORM/storm.py:38-39 | with no subsections (None or empty) the section is the right-stripped `## title\n\ndescription` |
| Storm.SectionOfSubsections | langchain_playground/STORM/storm.py:38-39 | with subsections, the section is `## title\n\ndesc\n\n` followed by the subsection texts joined by blank lines |
| Storm.OutlineAsStr | langchain_playground/STORM/storm.py:46-49 | the outline text is stripped and starts with `#` |
| Storm.OutlineWithSections | langchain_playground/STORM/storm.py:48-49 | with sections, the outline is `# title\n\n` followed by the section texts joined by `\n\n` |
| Storm.OutlineWithoutSections | langchain_playground/STORM/storm.py:48-49 | with no sections only the right-stripped `# title` is left |
| Storm.Persona | langchain_playground/STORM/storm.py:85-87 | the persona ends in a newline and is not stripped |
| Storm.PersonaLines | langchain_playground/STORM/storm.py:87 | for one-line fields, the persona's lines are Name, Role, Affiliation and Description in that order, followed by an empty last piece |
| Storm.ClassRun | langchain_playground/STORM/storm.py:81 | the run of name characters is maximal |
| Storm.NamePattern | langchain_playground/STORM/storm.py:81 | the pattern matches exactly the names of 1 to 64 ASCII letters, digits, `_` and `-` |
| Storm.ValidNameHasNoNewline | langchain_playground/STORM/storm.py:81 | a valid name holds no newline |
| ChatHistory.MessagesLength | chatui.py:7-14 | a conversation yields one record per present message: missing messages are dropped |
| ChatHistory.HistoryLength | chatui.py:7-14 | the output length is the number of present messages, and an empty history gives an empty list |
| ChatHistory.MessageAt | chatui.py:9-13 | the present message at position `i` becomes the record right after those of the present messages before it, with role `user` for even `i` and `assistant` for odd `i`; missing messages still count toward `i` |
| ChatHistory.MessageSource | chatui.py:10-14 | every record is a present message of the conversation, unchanged, with the role of that message's position |
| ChatHistory.AllPresent | standalone-GUI/chatui.py:87-91 | with no message missing, record `i` is message `i` with the role of position `i` |
| ChatHistory.HistoryAppend | standalone-GUI/chatui.py:85-92 | the records follow the conversations in order |
| ChatHistory.SingleConversation | standalone-GUI/chatui.py:90-92 | a history of one conversation is that conversation's records |
| ChatHistory.MissingReplyKeepsRoles | standalone-GUI/chatui.py:87-92 | in `hi`, `hello`, missing, `bye`, the message `bye` is the assistant's, and the next conversation starts with the user again |

## Left out

- The planner, the search tool and the chat model are the uninterpreted parameter `Services`. The prompt templates are opaque text, apart from the solver prompt's layout.
- The `Services` calls are total functions, so a planner, search or chat-model call never fails. Network errors, timeouts and API errors from those calls are not modelled.
- The chat model's reply is a value with its content and its `str()` rendering. The tool node stores the `str()` of a reply, which is not modelled further.
- The library's recursion limit is the `fuel` bound of `ReWOO.ToolLoop`. The model does not fix the library's default limit.
- PlanParser: `\d` and `\w` match ASCII digits and word characters only. Python's Unicode-aware classes also match other scripts' digits and letters. `\s` and `strip()` follow Python's Unicode whitespace.
- PlanParser.Parse: no corrected parser is modelled for plans that put two clauses on one line. The model keeps the merging of `findall` as written (`PlanParser.SameLineClausesMerge`).
- PlanParser.ParseClauses: the round trip is proved only for plannable steps. An input that holds a call of its own, such as `[#E2 = g[y]`, is left out because greedy group 1 runs to that inner call. The condition is stronger than needed: a `#` that starts no call, with a later `=`, is excluded too.
- PlanParser.ParseLines: the round trip holds only for writable steps, whose description does not start with a blank, because `Plan:\s*` consumes such a blank.
- Python's regular-expression engine is not modelled in general. Only the two patterns are modelled, each as a scanner.
- The iteration order of the delimiter set in `Notion/notion_formatter.py` is a parameter. Any permutation of the three pairs is allowed.
- Blocks that the converters rewrite in place must be distinct objects. Aliasing between blocks is not modelled.
- LatexScan.LoopAllBlocks: applies only `convert_latex_block`, not an arbitrary `func`.
- `format_content_for_notion` is modelled on strings only. Its non-string path returns the input unchanged and is not modelled.
- The pandas frame of `blocks_to_dataframe` is a sequence of rows.
- A block's `children` list is given. Fetching it over HTTP is not modelled.
- Storm.SectionOfSubsections: requires every subsection description to end in a non-space character. `Section.as_str` joins the unstripped subsection texts, and this condition makes them equal to the stripped `Subsection.as_str` texts. For other descriptions the section text is still modelled exactly, but no lemma states its shape.
- The STORM language-model chains, the pydantic validation machinery and the module-level calls are not modelled. Only the name pattern is modelled, as a predicate.
- Not modelled:
  - the Notion HTTP clients;
  - the page drivers;
  - `BaseFormatter.process_blocks` and `Rephraser`, which do progress bars, API updates and LLM rephrasing;
  - Gradio, OpenCC conversion, image handling and packaging.

## Findings

| source | as written | input that shows it | evidently intended | confidence | as-written member | corrected member |
|---|---|---|---|---|---|---|
| Notion/math_block.py:81-94 | each equation is written as `$$ expr $$` right after the preceding text, and the content is split again at the leftmost `$$` | the text `a$` followed by the equation `x` is written `a$$$ x $$` and comes back as the text `a` and the equation `$ x` | each text and equation comes back as it was | not executed | MathBlock.DollarEndBreaksRoundTrip | MathBlock.RoundTrip |
| Notion/block_formatter.py:87 (also Notion/formatters.py:105) | the pattern is compiled without DOTALL. `.` then stops at a newline and `$` needs the end of the text, so a line without a formula that is not the last line is dropped | `a\nb` converts to the single text part `b` | every character of the text survives the conversion, as it does with DOTALL | not executed | LatexRegex.LinesDropped | LatexRegex.DotAllRoundTrip |
