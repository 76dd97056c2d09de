# Santodan nodes: wildcard processor, prompt list and batch splitter

This project models three ComfyUI custom nodes of the Santodan node pack in
Dafny, and proves properties of each.

- **`WildcardManager`** (`santodan_nodes/wildcard.py`) expands a prompt
  written in a small wildcard language. It works in three phases:
  1. Quantifiers `N#__name__` become `N` copies of the reference, separated
     by `|`.
  2. The innermost `{…}` group is resolved until none is left. A group
     holding `$$` is a multi-select: `{range$$separator$$a|b|c}`. Any other
     group is a weighted single choice: `{w::a|b}`.
  3. References `__name__` are replaced by a random line of the wildcard
     file of that name, expanded again. A reference to a missing or empty
     file is dropped.

  Every choice comes from one `random.Random(seed)` generator.
  `process_text` runs the expansion either once on the whole text without
  comment lines, or once per non-blank, non-comment line. It returns the
  outputs (never an empty list) and their newline-joined preview.
- **`PromptListWithTemplates.run`** (`santodan_nodes/promptListTemplate.py`)
  builds a list in two steps. It starts with the optional incoming list,
  then appends each of the five prompt inputs that is a non-blank string.
- **`SplitBatchWithPrefix`** (`santodan_nodes/utils.py`) returns one image
  of a batch per call, with a name made of a running counter plus the
  `index` input, followed by the filename.
  - The counter restarts when the index or the filename changes.
  - It also restarts when more than one second has passed since the
    previous call.
  - Past the end of the batch, the last image is used.

## Modules

- `Text` holds Python's string operations used by the source: `strip`,
  `split`, `join`, `in`, `find` and `startswith`.
- `Numbers` holds `int()` and `float()` of a string, and weights as Python
  floats: finite, ±inf or NaN.
- `Patterns` holds the three regular expressions and the quantifier rewrite.
- `Oracle` holds `randint`, `sample`, `choice` and `choices`, defined over a
  stream of draws.
- `Interpreter` gives `_process_syntax` as functions of the text and the
  generator position.
- `Engine` is `_process_syntax` as the code runs it. It has loops over the
  local `text` and an `Rng` object whose position advances. Each method is
  proved to agree with `Interpreter`.
- `InterpreterFacts` holds the properties of the language.
- `FuelFacts` shows that the fuel bound changes no result other than `OutOfFuel`.
- `Driver` is `process_text`.
- `PromptList` is `PromptListWithTemplates.run`.
- `SplitBatch` is `SplitBatchWithPrefix`.

## Model

| member | source | states |
|---|---|---|
| Interpreter.OptionLines | santodan_nodes/wildcard.py:95 | the options of a wildcard file are at most its lines, each one stripped, non-empty and not starting with `#` |
| Interpreter.OptionLinesAppend | santodan_nodes/wildcard.py:95 | the filter works line by line: the options of two runs of lines are the options of the first followed by those of the second |
| Interpreter.Process | santodan_nodes/wildcard.py:98-160 | an expansion that succeeds never moves the generator backwards and leaves no `__name__` reference in its result |
| Interpreter.ResolveGroups | santodan_nodes/wildcard.py:112-148 | once the group loop ends without error, no `{…}` group without inner braces is left in the text |
| Interpreter.ResolveRefs | santodan_nodes/wildcard.py:150-159 | once the wildcard loop ends without error, no `__name__` reference is left |
| Interpreter.ProcessAll | santodan_nodes/wildcard.py:121 | expanding a list of options in order gives one result per option |
| Interpreter.WeightsAt | santodan_nodes/wildcard.py:136-145 | the k-th weight and the k-th choice are those of the k-th option alone |
| Patterns.ExpandQuantifiers | santodan_nodes/wildcard.py:108-110 | the rewrite loop stops, and its result has no quantifier left |
| Patterns.FindRef | santodan_nodes/wildcard.py:102 | the wildcard regex search finds the leftmost `__name__` match, longest at its start, and finds none exactly when the text has no match |
| Patterns.FindGroup | santodan_nodes/wildcard.py:101 | the group regex search finds the leftmost `{…}` holding no brace, and none exactly when there is none |
| Oracle.RandInt | santodan_nodes/wildcard.py:131 | `randint(lo, hi)` fails exactly when lo > hi, and otherwise returns a value in [lo, hi] using one draw |
| Oracle.Sample | santodan_nodes/wildcard.py:132 | `sample` of k from n fails exactly when k < 0 or k > n, and otherwise returns k distinct indices below n using k draws |
| Oracle.WeightedChoice | santodan_nodes/wildcard.py:147 | `choices` fails exactly when the total weight is not finite and positive, and otherwise returns an index of the list using one draw |
| Oracle.ZeroWeightNeverChosen | santodan_nodes/wildcard.py:147 | with non-negative weights, an option of weight 0 is never chosen |
| Oracle.BisectSorted | santodan_nodes/wildcard.py:147 | the bisection used by `choices` lands between the cumulative weights that bracket the drawn value |
| Oracle.CumulativeSorted | santodan_nodes/wildcard.py:147 | cumulative weights of non-negative weights never decrease |
| Engine.Rng.constructor | santodan_nodes/wildcard.py:166 | `random.Random(seed)` starts at the beginning of its stream |
| Engine.Rng.RandInt | santodan_nodes/wildcard.py:131 | the generator's `randint` returns what `Oracle.RandInt` defines, and advances only when it succeeds |
| Engine.Rng.Sample | santodan_nodes/wildcard.py:132 | the generator's `sample` agrees with `Oracle.Sample` |
| Engine.Rng.Choice | santodan_nodes/wildcard.py:156 | the generator's `choice` agrees with `Oracle.Choice` |
| Engine.Rng.Choices | santodan_nodes/wildcard.py:147 | the generator's `choices` agrees with `Oracle.WeightedChoice` |
| Engine.ProcessSyntax | santodan_nodes/wildcard.py:98-160 | the three-phase loop computes `Interpreter.Process` and leaves the generator at the position it defines, or raises its error |
| Engine.QuantifierLoop | santodan_nodes/wildcard.py:108-110 | the `subn` loop computes `ExpandQuantifiers` |
| Engine.GroupLoop | santodan_nodes/wildcard.py:112-148 | the group loop computes `ResolveGroups` |
| Engine.GroupPass | santodan_nodes/wildcard.py:113-148 | one pass of the group loop either ends the loop with its result, or splices one group and leaves the same remaining work |
| Engine.ReplaceGroup | santodan_nodes/wildcard.py:115-148 | resolving the found group and splicing its replacement continues the group loop as `GroupThenRest` defines |
| Engine.ResolveGroupContent | santodan_nodes/wildcard.py:116-147 | a group is a multi-select when it holds `$$`, and otherwise a single choice |
| Engine.MultiSelectGroup | santodan_nodes/wildcard.py:116-133 | the multi-select computes `MultiSelect`: split on `$$`, expand the options, draw a count, sample, join |
| Engine.SingleChoiceGroup | santodan_nodes/wildcard.py:134-147 | the single choice computes `SingleChoice`: weights, expanded choices, one weighted draw |
| Engine.SplitWeights | santodan_nodes/wildcard.py:136-145 | the weight loop builds, in order, each option's weight and text as `ParseOption` reads them |
| Engine.ProcessEach | santodan_nodes/wildcard.py:121 | the list comprehension expands the options left to right on the shared generator, as `ProcessAll` defines |
| Engine.WildcardLoop | santodan_nodes/wildcard.py:150-159 | the wildcard loop computes `ResolveRefs` |
| Engine.WildcardPass | santodan_nodes/wildcard.py:151-159 | one pass either ends the loop with its result, or replaces one reference and leaves the same remaining work |
| Engine.ResolveReference | santodan_nodes/wildcard.py:153-159 | resolving the found reference continues the loop as `RefThenRest` defines |
| Engine.ReplaceReference | santodan_nodes/wildcard.py:154-159 | a reference with options is replaced by the expansion of a chosen line; one without options is cut out and the text after it is left-stripped |
| Engine.GroupNeedsBraces | santodan_nodes/wildcard.py:112-114 | a group is only found when the text has both `{` and `}`, so the loop condition never hides a match |
| Engine.RefNeedsUnderscores | santodan_nodes/wildcard.py:150-152 | a reference is only found when the text has `__`, so the loop condition never hides a match |
| InterpreterFacts.ExpandQuantifiersIdempotent | santodan_nodes/wildcard.py:108-110 | expanding quantifiers twice is the same as expanding them once |
| InterpreterFacts.QuantifierExpands | santodan_nodes/wildcard.py:104-107 | `N#__name__` becomes `N` copies of `__name__` joined by pipes |
| InterpreterFacts.QuantifierOptions | santodan_nodes/wildcard.py:107 | splitting that expansion on the pipe gives back `N` copies of the reference |
| InterpreterFacts.QuantifierInText | santodan_nodes/wildcard.py:100-108 | inside any text, `N#__name__` is replaced by `N` pipe-joined copies of the reference and the text around it is kept, when that text holds no `#` and does not extend the digits or the name |
| InterpreterFacts.QuantifierInGroup | santodan_nodes/wildcard.py:84 | the documented `{2$$, $$3#__colors__}` becomes a multi-select over three copies of `__colors__` |
| InterpreterFacts.MultiPartsTwo | santodan_nodes/wildcard.py:117-119 | `range$$options` uses the separator `", "` |
| InterpreterFacts.MultiPartsThree | santodan_nodes/wildcard.py:117-120 | `range$$sep$$options[$$…]` uses the middle part as the separator and ignores parts after the third |
| InterpreterFacts.RangeForms | santodan_nodes/wildcard.py:122-130 | `""`→(1,1), `a`→(a,a), `-b`→(1,b), `a-`→(a,n), `a-b`→(a,b), `-`→(1,n) |
| InterpreterFacts.ParseIntNoDash | santodan_nodes/wildcard.py:127-130 | a range without `-` never parses to a negative count, so the `abs` branch is never reached |
| InterpreterFacts.RangeLowNeverNegative | santodan_nodes/wildcard.py:122-130 | every lower bound the range yields is at least 0 |
| InterpreterFacts.ParseOptionShape | santodan_nodes/wildcard.py:137-145 | an option is either its own text with weight 1.0, or `w::text` with a parsing `w` free of `::`. The whole option is kept exactly when the weight does not parse |
| InterpreterFacts.DefaultWeightsUsable | santodan_nodes/wildcard.py:135-147 | options without `::` all weigh 1.0, so `choices` cannot fail on them |
| InterpreterFacts.SingleChoiceShape | santodan_nodes/wildcard.py:134-147 | a single choice fails with the expansion's error or on unusable weights. Otherwise it returns one of the expanded options, never one of weight 0, using one draw |
| InterpreterFacts.MultiSelectFails | santodan_nodes/wildcard.py:121-131 | a multi-select raises the option's error, `ValueError` for a bad integer, or `ValueError` for an empty range |
| InterpreterFacts.MultiSelectPicks | santodan_nodes/wildcard.py:131-133 | with bounds lo ≤ hi, the result is the separator join of between min(lo,n) and min(hi,n) distinct expanded options |
| InterpreterFacts.ProcessAllAppend | santodan_nodes/wildcard.py:121 | expanding one more option continues from where the list before it left the generator |
| InterpreterFacts.PlainTextUnchanged | santodan_nodes/wildcard.py:98-160 | text with no `#`, `{` or `_` comes back unchanged and draws nothing |
| InterpreterFacts.MissingReferenceDropped | santodan_nodes/wildcard.py:158-159 | a reference to a file with no options is removed, and the text after it is left-stripped |
| InterpreterFacts.ChosenRefResolved | santodan_nodes/wildcard.py:154-157 | a reference in text holding no `#`, `{` or `_` is replaced by the line `choice` draws from its file, when the file's lines hold no `#`, `{` or `_` either |
| InterpreterFacts.ReferenceReplaced | santodan_nodes/wildcard.py:150-160 | a reference in text holding no `#`, `{` or `_` becomes one of its file's lines, using one draw, when the file's lines hold no `#`, `{` or `_` either |
| FuelFacts.MoreFuelProcess | santodan_nodes/wildcard.py:98-160 | an expansion that does not run out of fuel gives the same text or error and generator position under any larger fuel |
| FuelFacts.MoreFuelGroups | santodan_nodes/wildcard.py:112-148 | the same for the group loop |
| FuelFacts.MoreFuelGroupThenRest | santodan_nodes/wildcard.py:113-148 | the same for one pass of the group loop and the rest of the loop |
| FuelFacts.MoreFuelGroup | santodan_nodes/wildcard.py:115-147 | the same for the replacement of one group |
| FuelFacts.MoreFuelMultiSelect | santodan_nodes/wildcard.py:116-133 | the same for a multi-select group |
| FuelFacts.MoreFuelSingleChoice | santodan_nodes/wildcard.py:135-147 | the same for a single-choice group |
| FuelFacts.MoreFuelAll | santodan_nodes/wildcard.py:121 | the same for expanding a list of options left to right |
| FuelFacts.MoreFuelRefs | santodan_nodes/wildcard.py:150-159 | the same for the wildcard loop |
| FuelFacts.MoreFuelRefThenRest | santodan_nodes/wildcard.py:151-159 | the same for one pass of the wildcard loop and the rest of the loop |
| FuelFacts.MoreFuelReplaceRef | santodan_nodes/wildcard.py:153-159 | the same for the replacement of one reference |
| FuelFacts.MoreFuelText | santodan_nodes/wildcard.py:164-178 | the outputs of `process_text` do not change with more fuel once it suffices |
| Text.SplitJoin | santodan_nodes/wildcard.py:165 | splitting a joined list on a separator that no part contains gives the list back |
| Text.JoinSplit | santodan_nodes/wildcard.py:168-170 | joining the pieces of a split gives the text back |
| Text.StripIdempotent | santodan_nodes/wildcard.py:95 | stripping twice is the same as stripping once |
| Numbers.ParseIntOfString | santodan_nodes/utils.py:80 | `int()` of the decimal text of a number gives the number back |
| Driver.RunProcessText | santodan_nodes/wildcard.py:164-178 | `process_text` returns the outputs `ProcessText` defines and their newline join as the preview, or raises the expansion's error |
| Driver.ProcessBlock | santodan_nodes/wildcard.py:167-172 | the "entire text as one" branch expands the stripped non-comment block once, or nothing when that block is empty |
| Driver.ProcessLines | santodan_nodes/wildcard.py:173-177 | the line branch expands each stripped line that is neither blank nor a comment, in order, on one generator |
| Driver.OutputsPerJob | santodan_nodes/wildcard.py:166-178 | the result list is never empty. It holds one output per job, or `[""]` when there is no job |
| Driver.EntireTextOneOutput | santodan_nodes/wildcard.py:167-172 | "entire text as one" gives exactly one output: `""` for a block of only comments, otherwise the block's expansion |
| Driver.ListInputLines | santodan_nodes/wildcard.py:165 | a list input without newlines in its elements is processed one element per line |
| Driver.CommentsOnlyGiveEmpty | santodan_nodes/wildcard.py:173-178 | text of only blank and comment lines gives `[""]` |
| PromptList.PyList.constructor | santodan_nodes/promptListTemplate.py:54 | the list starts empty |
| PromptList.PyList.Extend | santodan_nodes/promptListTemplate.py:56 | `extend` appends all of the given elements in order |
| PromptList.PyList.Append | santodan_nodes/promptListTemplate.py:61 | `append` adds one element at the end |
| PromptList.Run | santodan_nodes/promptListTemplate.py:53-63 | both outputs are the same new list: the optional list, then the inputs that are non-blank strings |
| PromptList.AppendPrompts | santodan_nodes/promptListTemplate.py:58-61 | the loop appends exactly the prompt inputs, in order, after what the list held |
| PromptList.PromptsSnoc | santodan_nodes/promptListTemplate.py:59-61 | one more input appends it when it is a non-blank string, and nothing otherwise |
| PromptList.PromptsAppend | santodan_nodes/promptListTemplate.py:59-61 | the filter of two lists in a row is the filter of their concatenation |
| PromptList.PromptsMembers | santodan_nodes/promptListTemplate.py:60 | a value is appended exactly when it is an input and a non-blank string |
| PromptList.RunShape | santodan_nodes/promptListTemplate.py:53-63 | the result starts with the optional list, followed by at most five prompts |
| SplitBatch.SplitBatchWithPrefix.constructor | santodan_nodes/utils.py:31-37 | counter 0, no previous index or filename, last call time 0.0, and a window of one second |
| SplitBatch.SplitBatchWithPrefix.PairOne | santodan_nodes/utils.py:39-84 | `pair_one` updates its fields and returns what `Step` defines |
| SplitBatch.RejectedUnchanged | santodan_nodes/utils.py:40-44 | a `ValueError` for the type or rank is raised exactly when the input is not a 4-dimensional tensor, and it changes no field |
| SplitBatch.TrackingUpdated | santodan_nodes/utils.py:59-61 | every accepted call records its index, filename and time |
| SplitBatch.ImageInBatch | santodan_nodes/utils.py:64-79 | the chosen image is the counter, clamped to the last image of the batch. An empty batch raises `IndexError` and leaves the counter unincremented |
| SplitBatch.NameCarriesCounter | santodan_nodes/utils.py:80-82 | the name is the decimal of counter + index followed by the filename, and the counter then goes up by one |
| SplitBatch.NewParametersRestart | santodan_nodes/utils.py:50-52 | a new index or filename restarts numbering at image 0 with the name `index` + filename |
| SplitBatch.WindowDecidesRun | santodan_nodes/utils.py:53-56 | with the same parameters, the counter continues unless more than the window has passed |
| SplitBatch.RunContinues | santodan_nodes/utils.py:49-82 | calls spaced no more than the window apart continue one run: the k-th call gives the counter's start plus k |
| SplitBatch.FreshRun | santodan_nodes/utils.py:31-82 | from a new node, the k-th of closely spaced calls returns image min(k, B-1) named k + index followed by the filename |

## Left out

- The file system is a parameter. `Env.loadLines` gives the raw lines of the wildcard file of a name, and no lines for a missing one. Joining paths and reading files are not modelled; only the line filter is.
- The Mersenne Twister is not modelled. A seeded generator is a stream of draws. `randint`, `choice` and `sample` are characterised by their range and distinctness, not by CPython's exact values. How many draws each primitive takes is this model's own convention; CPython's rejection sampling uses a varying number of Mersenne Twister outputs.
- Python floats are exact reals, with ±inf and NaN as separate cases. `float()` parsing covers decimal and exponent forms, `inf` and `nan`. The weighted choice follows `random.choices`: cumulative weights, one uniform draw and bisection. Rounding is not modelled.
- Interpreter.Process: the model spends one unit of fuel on each group or reference it resolves, whether nested or one after another, so the fuel bounds the total work and not only the nesting depth. With too little fuel the model gives `OutOfFuel` where Python gives a text, for example `{a}{b}` with fuel 1. `OutOfFuel` also stands for Python's `RecursionError`, as on a wildcard file whose line refers to the file itself. CPython's recursion limit (1000 frames by default) is not modelled: each nesting through wildcard.py:121, 146 or 156 adds frames, so on a nesting deeper than that limit, such as a chain of 1200 files each referring to the next, Python raises `RecursionError` while the model with enough fuel returns a text. `FuelFacts.MoreFuelProcess` proves that a result other than `OutOfFuel` is the same under every larger fuel; it is Python's result only where Python stays within its recursion limit.
- Numbers.ParseInt: only ASCII digits are accepted. Python's `int()` also accepts other Unicode decimal digits, such as `٢` in a range, and the model gives `BadInteger` for those.
- Numbers.ParseFloat: only ASCII digits are accepted, as for `ParseInt`, so a weight written in other Unicode digits falls back to 1.0. Overflow and underflow are not modelled either. In Python `float("1e400")` is inf, so `choices` raises; the model keeps a finite weight of 10^400. A tiny weight such as `1e-400` is 0.0 in Python and a positive weight here.
- `\w` and `\d` in the patterns are ASCII letters, digits and `_`. Unicode word characters and digits are not modelled.
- The `print` warnings (wildcard.py:159, utils.py:69) are not modelled.
- `process_text` (wildcard.py:180-195) also returns a list of wildcard files and a UI dictionary. `get_wildcard_files`, `INPUT_TYPES`, `IS_CHANGED` and the HTTP routes are not part of this model.
- PromptList.Run: `template_file` and `save_filename` are unused by `run`. A Python value other than a string is an opaque `Other` value. An absent or empty `optional_prompt_list` adds nothing, which is how Python truthiness treats `None` and `[]`; other falsy objects are not modelled.
- The image tensor of `SplitBatchWithPrefix` is its shape, and the returned image is its index in the batch. `time.time()` is the `now` parameter.
- The range `-0` makes `randint(1, 0)` raise `ValueError`. The model gives `EmptyRange` for it. The `abs` branch for a negative count (wildcard.py:129) cannot be reached, because a negative number contains `-` and goes through the `lo-hi` branch (proved as `InterpreterFacts.ParseIntNoDash`).
- Errors are modelled as the code raises them. A bad integer in a range, an empty range, an impossible sample size and unusable weights all propagate out of `_process_syntax` and `process_text`. The model follows the code here, not a "never fails" reading of the node's description.
