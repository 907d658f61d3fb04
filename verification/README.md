# nextest, modelled in Dafny

This project models three parts of nextest and proves what they promise.

**The filterset language** (`nextest-filtering`). A filterset such as `deps(foo) and not test(~slow)` is parsed
by an error-recovering parser, compiled against the package graph, and evaluated twice: to a boolean for a test,
and in three-valued logic for a whole binary. The model has the parser at character level, both as functions on
the stream (`filterset_parser.dfy`, `matcher_text.dfy`) and as an object that advances through its input and
pushes errors (`stream_parser.dfy`); the printer that is meant to undo it; the compiler, with its nested loops over
the package graph; the stack machine that folds expressions without recursion; and both evaluators. `filterset.dfy`
puts them together, from text to answers.

`filterset_grammar.dfy` is the grammar as a reference that does not use the parser: how sets, strings, regexes, operators
and blanks are spelled, and which tree, with which spans, a text stands for. `grammar_reads.dfy` and `grammar_written.dfy`
prove that what is read without an error is exactly what it allows. `parse_mistakes.dfy` and `argument_mistakes.dfy` say
what is reported about inputs it does not allow, and `filterset_outcomes.dfy` what becomes of an expression that was read:
when it compiles, what it is refused for, and where.

**Help text** (`nextest-runner/src/help_render.rs`). A line writer wraps words and emits SGR style sequences (section
8.3.117 of ECMA-48) and OSC 8 hyperlinks, and a renderer drives it from markdown events. `line_layout.dfy` gives the
writer as functions, one character at a time, and `line_writer.dfy` and `help_rendering.dfy` give the objects that run.
`wanted_text.dfy` has the text as it is wanted, line by line before any wrapping, and `help_events.dfy` says, of the
events alone, which streams are well nested and what text they want: the prefix of every line, every character and
breakable space with its styles and link, and every line end. `shown_text.dfy` says when a page shows such a text: a line
may end in place of a breakable space, and the last blanks of a line are missing, as far as they are shown alike; everything
else is there and in place. `terminal.dfy` gives the page a terminal shows of the output, `held_text.dfy` follows it through
the writer's operations, and `help_renderer.dfy` proves that it shows what the events want. `kept_ink.dfy` draws from it
that no character is lost or added; `documents.dfy` shows that the streams meant are those of all documents; and
`numbered_items.dfy` says, by counting items in the events, which marker each item of a list has, and that its line starts
with it. `line_starts.dfy`, `trailing_blanks.dfy`, `clean_lines.dfy`, `clean_streams.dfy` and `block_separation.dfy` are
about prefixes and breaks, blanks at line ends, and blocks that run together.

**Smaller loops** (`nextest-runner`). Truncating colored text to a width, indenting text as it streams, and
splitting a test list into shards. `displayed_parts.dfy` says what is left of each component of a test instance, and
`partition_turns.dfy` which tests each shard runs, by counting the tests before them.

Methods are proved against the functions of the same name; what the source promises is then proved of those functions.

## What was found

- A name with a quote can be written in a filterset, but does not survive printing: the printer writes `\'` or `\"`,
  which the parser refuses (`QuotesDoNotRoundTrip`). Neither does an implicit argument that starts with a space, `=`, `~`
  or `#`, nor a regex that ends in a backslash or already escapes a slash. `Printable` is the exact condition, and
  `PrintParse` proves it in both directions.
- An empty argument, as in `test(=)`, is read back as the same tree but with an error reported, so
  `ParsedExpr::parse` accepts what `Filterset::parse` refuses (`EmptyArgumentsDisagree`).
- The help renderer does not flush when a quote, heading, paragraph or definition starts, so the last word of a tight
  list item runs together with the first word of the block in it. `BlockApart` says for every such block exactly when
  the two are kept apart, and `TightQuoteRunsOn` gives a document where they are not: an item `a` with a quote of `b`.
- A comment promises that lines end without blanks. Trimming stops at an escape sequence, so a blank line of code
  that is colored keeps the blanks of its prefix (`ColoredBlankKeepsPrefix`), and a blank code span in a link keeps the
  space before it (`LinkedBlankKeepsSpace`). `EndLineExact` gives the exact condition for a line, `CodeLineExact` and
  `BlankWordExact` spell it out for these two, and `RenderedExact` carries it over to whole documents. The promise holds
  without color and hyperlinks (`PlainOutputIsClean`), and with any settings for documents whose code spans end in ink
  and whose lines of code are empty or have some (`InkyOutputIsClean`).
- Indenters nest as their indentations concatenate exactly when these add up (`NestingExact`): an inner indentation
  with a newline in it can break that.
- Evaluation of `default()` ends exactly when the expression or the default filter is free of it
  (`EvaluationEnds`); the ban in the compiler is what guarantees that.

## Model

| member | source | states |
|---|---|---|
| FiltersetSyntax.NormalizeExact | nextest-filtering/src/proptest_helpers.rs:14-105 | adding the parentheses a tree needs keeps its leaves, gives a normal form, and changes a tree exactly if it was not one |
| MatcherText.UnicodeEscapeRoundTrip | nextest-filtering/src/parsing/unicode_string.rs:15-70 | a printed `\u{…}` escape is read back as its character, whatever follows |
| MatcherText.EscapeRoundTrip | nextest-filtering/src/parsing/unicode_string.rs:25-70 | every character that is printed as an escape, but for the two quotes, is read back from it, whatever follows |
| MatcherText.ReadText | nextest-filtering/src/parsing/unicode_string.rs:71-128 | reading a string only moves forward, stops before `,`, `)` or the end, and gives no text only after reporting an error |
| MatcherText.TextRoundTrip | nextest-filtering/src/parsing/unicode_string.rs:54-128 | reading a printed string stops at its end and gives it back with no error exactly if it has no quote |
| MatcherText.ReadRegex | nextest-filtering/src/parsing.rs:435-464 | the regex body read ends at an unescaped slash or at the end of input |
| MatcherText.RegexReadBack | nextest-filtering/src/parsing.rs:435-488 | for every regex not ending in a backslash, reading its printed form gives the regex with its escaped slashes unescaped and stops at the closing slash |
| MatcherText.RegexRoundTrip | nextest-filtering/src/parsing.rs:435-488 | a regex comes back from print then read exactly if it has no escaped slash and does not end in a backslash |
| MatcherText.PrintReadPrint | nextest-filtering/src/parsing.rs:435-488 | for every regex not ending in a backslash, print after read after print is print |
| MatcherText.ReadRegexNeverEndsInBackslash | nextest-filtering/src/parsing.rs:435-464 | no regex that is read up to its closing slash ends in a backslash |
| ParserState.SkipBlanks | nextest-filtering/src/parsing.rs:351-381 | skipping blanks only moves forward and leaves no blank in front |
| ParserState.TakeTill | nextest-filtering/src/parsing.rs:490-526 | recovery reads on to the stop character or the end of input, reporting nothing |
| FiltersetParser.ParseText | nextest-filtering/src/parsing.rs:383-405 | no text without a reported error; an empty one is reported |
| FiltersetParser.ParseRegex | nextest-filtering/src/parsing.rs:490-534 | no regex without a reported error, whether unclosed or invalid |
| FiltersetParser.ParseGlob | nextest-filtering/src/parsing/glob.rs:60-90 | no glob without a reported error |
| FiltersetParser.SetMatcher | nextest-filtering/src/parsing.rs:536-555 | a matcher operator or the default matcher: no result without a reported error |
| FiltersetParser.RecoverComma | nextest-filtering/src/parsing.rs:557-578 | recovery from an unexpected comma only moves forward and only adds errors |
| FiltersetParser.ParseNullary | nextest-filtering/src/parsing.rs:580-604 | a set without argument always gives a leaf, only moves forward and only adds errors |
| FiltersetParser.ParseUnary | nextest-filtering/src/parsing.rs:627-642 | a set with an argument: no leaf without a reported error |
| FiltersetParser.ParsePlatform | nextest-filtering/src/parsing.rs:644-671 | a platform set: no leaf without a reported error |
| FiltersetParser.FirstNameIsFirst | nextest-filtering/src/parsing.rs:673-695 | the set name read is the first in the order tried that the input starts with, and none is read only where the input starts with none |
| FiltersetParser.ParseOr | nextest-filtering/src/parsing.rs:866-893 | an `or` operator moves forward; a mistaken one is reported; which ones are mistaken, and how the others are spelled, is in `ParseMistakes.OrMistaken` and `GrammarWritten.ParseExact` |
| FiltersetParser.ParseAnd | nextest-filtering/src/parsing.rs:967-993 | an `and` or difference operator moves forward; a mistaken one is reported; the same of it is in `ParseMistakes.AndMistaken` and `GrammarWritten.ParseExact` |
| FiltersetParser.ParseBasic | nextest-filtering/src/parsing.rs:703-814 | a basic expression that is found moves strictly forward, so the loops over operators end |
| ParserSoundness.ParseSound | nextest-filtering/src/parsing.rs:697-1003 | for every input the parser ends, never fails, an Error result has a reported error, no error means a tree and all input read, and every tree is in normal form with leaf spans inside the input, disjoint and in order |
| ParserSoundness.SetMatcherAccepted | nextest-filtering/src/parsing.rs:528-555 | every matcher in a tree is valid for its library, and an implicit one is of the kind its predicate defaults to |
| GrammarReads.GrammarReads | nextest-filtering/src/parsing.rs:351-1003 | whatever the grammar allows, with any blanks (spaces, LF, CRLF) between its words and behind them, any spelling of its operators and any escapes in its strings, is read to its end without an error, to the tree it stands for, spans and all |
| GrammarWritten.GrammarWritten | nextest-filtering/src/parsing.rs:351-1003 | whatever is read without an error is a text of the grammar, and its tree is the one the text stands for |
| GrammarWritten.ParseExact | nextest-filtering/src/parsing.rs:995-1003 | for every input and tree: the input is read to its end without an error, and to this tree, if and only if it is a text of the grammar, which is written without the parser, that stands for this tree |
| GrammarReads.LeafReads | nextest-filtering/src/parsing.rs:580-695 | a set, with blanks before its parenthesis and around its argument, is recognized by its name and read to the leaf it stands for, its span from the parenthesis to the end of the argument |
| GrammarReads.MatcherReads | nextest-filtering/src/parsing.rs:536-555 | an argument is read by its operator or by the default of its predicate, whatever its escapes |
| GrammarReads.TextReads | nextest-filtering/src/parsing/unicode_string.rs:15-128 | a string is read as the characters it is written for, each plain, by a letter or by its number in up to six hexadecimal digits |
| GrammarWritten.TextWritten | nextest-filtering/src/parsing/unicode_string.rs:15-128 | a string read without an error is written so |
| GrammarWritten.RegexWritten | nextest-filtering/src/parsing.rs:435-464 | a regex read up to its slash is the text before it with every escaped slash unescaped |
| ParseMistakes.OrMistaken | nextest-filtering/src/parsing.rs:866-893 | two bars or the word `OR` between any two expressions are reported as an invalid `or` at their own two characters, as the only error, and there is no tree |
| ParseMistakes.AndMistaken | nextest-filtering/src/parsing.rs:967-993 | `&&` or the word `AND` between any two expressions is reported as an invalid `and` at its own characters, as the only error, and there is no tree |
| ParseMistakes.PrintedOrMistake | nextest-filtering/src/parsing.rs:866-893 | the same for any two printed trees with two bars or `OR` between them: the error is one column behind the first |
| ParseMistakes.PrintedAndMistake | nextest-filtering/src/parsing.rs:967-993 | the same for `&&` and `AND` |
| ParseMistakes.MisplacedReported | nextest-filtering/src/parsing.rs:743-790 | an operator of this or another language where an expression should start, or `NOT`, is the first thing reported, at its own characters, and there is no tree |
| ParseMistakes.NothingReported | nextest-filtering/src/parsing.rs:697-701 | an input of blanks is reported, all of it, as lacking an expression, and nothing else is |
| ParseMistakes.TrailingReported | nextest-filtering/src/parsing.rs:995-1003 | what stands behind an expression and starts like no operator is reported from the end of the expression to the end of input, as the only error, and the tree is that of the expression |
| ParseMistakes.MissingParenthesisReported | nextest-filtering/src/parsing.rs:703-714 | a parenthesis missing at the end of input is reported right behind the expression, as the only error, and taken as given |
| ArgumentMistakes.ArgumentReported | nextest-filtering/src/parsing.rs:580-604 | an argument of `all`, `none` or `default` is reported, all of it, as the only error, and ignored |
| ArgumentMistakes.UnknownPlatformReported | nextest-filtering/src/parsing.rs:644-671 | a platform other than `host` and `target`, in any blanks, is reported with the blanks before it, as the only error, and there is no tree |
| ArgumentMistakes.RegexReported | nextest-filtering/src/parsing.rs:490-534 | a regex the library refuses is reported without its slashes, as the only error, and there is no tree |
| ArgumentMistakes.GlobReported | nextest-filtering/src/parsing/glob.rs:60-90 | a glob the library refuses is reported without its `#`, as the only error, and there is no tree |
| ArgumentMistakes.CommaReported | nextest-filtering/src/parsing.rs:557-578 | a comma behind an argument is reported right there, as the only error; what follows up to the parenthesis is passed over, and the set is the one without it |
| ArgumentMistakes.EmptyReported | nextest-filtering/src/parsing.rs:383-405 | an empty string is reported where it would stand, as the only error, and the set is read all the same |
| ArgumentMistakes.EscapeReported | nextest-filtering/src/parsing/unicode_string.rs:25-51 | a backslash that starts no escape, in the text of any matcher but a regex, is reported with the character behind it before anything else, and there is no tree |
| MatcherRoundTrip.SetMatcherReads | nextest-filtering/src/expression.rs:86-111 | a printed matcher is read back as itself exactly if it is printable, and then with no error exactly if it is a regex or not empty |
| ExpressionRoundTrip.KeywordsApart | nextest-filtering/src/parsing.rs:673-695 | but for `binary` and `binary_id`, no set name is where the printed form of another set starts, so trying `binary_id` first is all the order has to see to |
| ExpressionRoundTrip.LeafReads | nextest-filtering/src/parsing.rs:100-121 | a printed leaf is read up to its end and comes back exactly if it is printable, and then with no error exactly if its text is not empty |
| ExpressionRoundTrip.BasicReads | nextest-filtering/src/parsing.rs:716-814 | a printed basic expression is read back by the basic parser, operator spelling included |
| ExpressionRoundTrip.AndsReads | nextest-filtering/src/parsing.rs:933-965 | a printed and/difference chain is read back left-associated |
| ExpressionRoundTrip.OrsReads | nextest-filtering/src/parsing.rs:835-864 | a printed or chain is read back left-associated |
| ExpressionRoundTrip.PrintParse | nextest-filtering/src/parsing.rs:220-231 | parsing the printed form of a tree gives exactly that tree back if and only if the tree is in normal form with every argument printable, with no error if and only if besides no argument is empty, and then all input is read |
| StreamParser.Parser.SkipBlanks | nextest-filtering/src/parsing.rs:351-381 | the object skips what the function skips |
| StreamParser.Parser.ReadText | nextest-filtering/src/parsing/unicode_string.rs:102-128 | the loop over fragments reads what the function reads |
| StreamParser.Parser.ReadRegex | nextest-filtering/src/parsing.rs:435-464 | the loop over fragments reads the regex the function reads |
| StreamParser.Parser.ParseRegex | nextest-filtering/src/parsing.rs:490-534 | the object, with its checkpoint, returns what the function returns and stops where it stops |
| StreamParser.Parser.ParseSet | nextest-filtering/src/parsing.rs:673-695 | the same for a set definition |
| StreamParser.Parser.ParseBasic | nextest-filtering/src/parsing.rs:703-814 | the same for a basic expression, which restores the checkpoint when nothing fits |
| StreamParser.Parser.ParseAnds | nextest-filtering/src/parsing.rs:933-965 | the repeat loop and the left fold over its list come to the recursive reading |
| StreamParser.Parser.ParseOrs | nextest-filtering/src/parsing.rs:835-864 | the same for `or` |
| StreamParser.Parser.Parse | nextest-filtering/src/parsing.rs:995-1003 | the whole parse: result, errors and position are those of the function |
| Collapse.CollapseFrames | nextest-filtering/src/expression.rs:748-777 | the LIFO work stack with its value stack computes the recursive fold, with every operand in its place |
| Collapse.LeavesLeftToRight | nextest-filtering/src/expression.rs:748-777 | leaves are visited once each, left to right |
| FiltersetCompile.RelatedPackages | nextest-filtering/src/compile.rs:126-166 | the nested loops collect exactly the workspace packages that depend on, or are depended on by, some matching package |
| Filterset.LeafErrorExact | nextest-filtering/src/compile.rs:168-265 | a leaf is reported exactly if it can select nothing: no test of any workspace package, no binary, or no known group |
| FiltersetCompile.CheckBannedPredicates | nextest-filtering/src/compile.rs:46-113 | one error per banned leaf, in leaf order; which leaves are banned, and for what reason, is in `FiltersetOutcomes.OutcomeExact` |
| FiltersetCompile.CompileFold | nextest-filtering/src/compile.rs:279-301 | folding compiles the tree, pushes one error per leaf that selects nothing, in leaf order, and notes a panic of the group validation |
| FiltersetCompile.Compile | nextest-filtering/src/compile.rs:18-44 | bans first, then compilation, run through the stack machine, with the outcome that `FiltersetOutcomes.OutcomeExact` gives |
| FiltersetOutcomes.OutcomeExact | nextest-filtering/src/compile.rs:18-265 | an expression compiles if and only if its compiled form has no group where it is an override filter, no test or group in an archive, no `default()` or group in the default filter, the test groups are known if it asks for one, and every leaf selects something; forbidden leaves are all reported, each with its span and its own reason, and nothing else then is; else all leaves that select nothing are, and nothing else; and it panics if and only if nothing is forbidden and it asks for a group while the groups are not known |
| FiltersetOutcomes.ParseOutcomeExact | nextest-filtering/src/expression.rs:558-605 | the same of every input that is read without an error, from text to outcome |
| FiltersetOutcomes.MatcherMeans | nextest-filtering/src/expression.rs:296-303 | an exact matcher matches its own text only, and one for a part matches a text exactly if the text is something, the part, and something |
| FiltersetOutcomes.NamedExactly | nextest-filtering/src/compile.rs:214-265 | an exact name of a binary, of a binary id or of a test group is refused exactly if there is none of that name; `@global` always is a group |
| FiltersetEval.EvaluateTest | nextest-filtering/src/expression.rs:265-281 | the stack machine gives the value of the recursive evaluation |
| FiltersetEval.EvaluateBinary | nextest-filtering/src/expression.rs:225-238 | the same for the three-valued evaluation |
| FiltersetEval.FindGroupMatchers | nextest-filtering/src/expression.rs:283-291 | the flag is set exactly if some leaf is a group |
| FiltersetEval.PanicsExactly | nextest-filtering/src/expression.rs:240-281 | where evaluation ends, it panics exactly if the expression has a `group()` and there is no lookup, or if it has a `default()` and the default filter has a `group()` |
| FiltersetEval.EvaluationEnds | nextest-filtering/src/expression.rs:306-328 | where no panic is possible, evaluation ends exactly if the expression or the default filter has no `default()`, and then one level is enough |
| FiltersetEval.BinaryAnswerSound | nextest-filtering/src/expression.rs:225-345 | a certain answer for a binary is the answer for each of its tests under every group lookup, through `default()` too |
| FiltersetEval.BinaryAnswerExact | nextest-filtering/src/expression.rs:698-737 | with every unknown leaf free to be either, the three-valued answer is certain exactly if all outcomes agree |
| Filterset.NormalizeKeepsMeaning | nextest-filtering/src/proptest_helpers.rs:56-104 | the parentheses added do not change which tests are meant |
| Filterset.CompilePreserves | nextest-filtering/src/compile.rs:279-301 | evaluating the compiled expression is set membership in the parsed one, with `-` as difference and parentheses transparent |
| Filterset.BansHold | nextest-filtering/src/compile.rs:18-113 | what compiles has no banned and no empty leaf; the group validation panics exactly for a test filter that uses `group()` while group names are unavailable |
| Filterset.EvaluationIsTotal | nextest-filtering/src/expression.rs:306-328 | with a compiled default filter every compiled expression has a value, the meaning of its source; a group-free one never panics without a lookup |
| Filterset.ComplaintsInOrder | nextest-filtering/src/compile.rs:46-113 | errors about leaves are in source order, at most one per leaf |
| Filterset.ParseAndCompile | nextest-filtering/src/expression.rs:558-605 | the object-level parse and compile give the outcome of the functions |
| Filterset.ParseFiltersetSound | nextest-filtering/src/expression.rs:558-605 | for every input: a refusal names an error and never the internal one, compile errors are in source order, and what is accepted was read to its end, is in normal form and meets its bans |
| Filterset.EmptyArgumentsDisagree | nextest-filtering/src/parsing.rs:133-143 | a printable tree is read back by the tree parser even with an empty argument, which the filterset parser refuses |
| QuotedNames.QuotedNameReads | nextest-filtering/src/parsing/unicode_string.rs:71-128 | a quote as the name of a test is read with no error, to the end of input |
| QuotedNames.QuotesDoNotRoundTrip | nextest-filtering/src/parsing/unicode_string.rs:25-69 | the tree that such a text parses to is in normal form, and reading its printed form does not give it back |
| LineLayout.TrimEnd | nextest-runner/src/help_render.rs:731-749 | the prefix of a blank line is what is left when all whitespace at its end is dropped |
| LineWriting.LineWriter.WriteStyleDiff | nextest-runner/src/help_render.rs:788-808 | nothing, the extra styles, or a reset and all of them |
| LineWriting.LineWriter.SyncLink | nextest-runner/src/help_render.rs:814-825 | the old link is closed and the new one opened exactly if they differ |
| LineWriting.LineWriter.AddSegment | nextest-runner/src/help_render.rs:577-583 | the segment joins the buffered word with the attributes of the moment, and the width is kept |
| LineWriting.LineWriter.AddSpace | nextest-runner/src/help_render.rs:585-592 | the word is flushed and one space becomes pending |
| LineWriting.LineWriter.FlushWord | nextest-runner/src/help_render.rs:592-613 | the word goes on this line after the pending space if both fit, else on the next |
| LineWriting.LineWriter.EmitWord | nextest-runner/src/help_render.rs:615-632 | writing the word span by span is writing it character by character |
| LineWriting.LineWriter.WriteOpen | nextest-runner/src/help_render.rs:640-654 | one sync and one write for a run of text come to one of each for every character |
| LineWriting.LineWriter.WriteVerbatim | nextest-runner/src/help_render.rs:659-712 | writing code line by line is writing it character by character, blank lines and all |
| LineWriting.LineWriter.SetItemMarker | nextest-runner/src/help_render.rs:450-491 | the prefix of the next line is set to the prefixes in force and then the marker; `LineStarts.LinesCarryPrefix` states that it serves one line |
| HeldText.TrimmedShows | nextest-runner/src/help_render.rs:751-770 | what trimming drops from the output is the last blanks of the line up to where they begin to be shown differently, prefix and breakable space included |
| LineStarts.LineOpens | nextest-runner/src/help_render.rs:731-749 | a line opens with the marker set for it, if there is one, and else with all prefixes in force, and the marker is used up; exactly if a block ended before and something is written, a line with the trimmed prefix of that block comes first |
| LineStarts.BlocksParted | nextest-runner/src/help_render.rs:731-777 | after a block that ends, the next line to open is parted from it by a line with the prefix in force at its end, trimmed, whatever prefixes are in force by then |
| LineStarts.LinesCarryPrefix | nextest-runner/src/help_render.rs:450-491 | over every operation: an open line keeps its prefix, every line that opens has the prefix of the next line, and a marker serves only the first line opened after it was set |
| LineStarts.BreaksOnlyWhenFull | nextest-runner/src/help_render.rs:592-613 | a word with a space pending before it starts a new line exactly if it does not fit on this one after that space |
| LineWriting.LineWriter.OpenLine | nextest-runner/src/help_render.rs:731-749 | a blank line after a block, then the prefix, and the column is its width |
| LineWriting.LineWriter.EndLine | nextest-runner/src/help_render.rs:751-770 | blanks are trimmed, link and styles closed, then the newline |
| LineWriting.LineWriter.EndBlock | nextest-runner/src/help_render.rs:772-777 | the line ends and the next one is separated by a blank one |
| LineWriting.LineWriter.Finish | nextest-runner/src/help_render.rs:779-785 | everything buffered is written and the last line ended |
| LineWriting.PutRun | nextest-runner/src/help_render.rs:640-654 | a run of text with one style takes one change of style |
| LineWriting.VerbatimLine | nextest-runner/src/help_render.rs:689-712 | a line of code is the same in one write or many |
| Terminal.SyncShown | nextest-runner/src/help_render.rs:344-355 | after syncing, a terminal shows exactly the desired styles and link, as far as they are enabled, and no visible text has been written |
| StyleChanges.StyleChangeIsMinimal | nextest-runner/src/help_render.rs:788-808 | whatever else would bring a terminal from the styles it shows to the wanted ones is at least as long as the change written |
| HeldText.FlushStep | nextest-runner/src/help_render.rs:594-632 | flushing keeps the invariant (column is visible width, emitted is shown, spaces are tidy, lines fit) and shows the word, all its blanks included, after the space before it with the styles and link it was asked with, or after a line end and the prefix of the next line in its place |
| HeldText.SpaceStep | nextest-runner/src/help_render.rs:512-592 | the word before a space is placed, and of several spaces asked for before a word the last one counts, with the styles and link of its moment |
| HeldText.VerbatimStep | nextest-runner/src/help_render.rs:656-712 | a character of code, a blank too, is shown where it stands, on a line with its prefix; a newline ends a line, an empty one too |
| HeldText.StepSound | nextest-runner/src/help_render.rs:545-786 | every operation keeps the invariant, and a writer that held what was asked for holds it afterwards with exactly what the operation adds: prefixes, characters, spaces and line ends, none missing but, where a line ends, its last blanks that are shown alike |
| HeldText.RunSound | nextest-runner/src/help_render.rs:545-786 | the same over every run of operations that sets markers between lines, as the renderer does |
| HeldText.FinishSound | nextest-runner/src/help_render.rs:779-785 | the finished output shows the whole text asked for, ends plain, and every line fits or has no place to break |
| HelpRenderer.EventSound | nextest-runner/src/help_render.rs:901-1073 | every event keeps the invariant that an open line outside code has a space pending, and asks only for what the writer is ready for |
| HelpRenderer.EventMarksStart | nextest-runner/src/help_render.rs:901-1073 | the marker of an item is set once the line before it has ended, and no other event sets one |
| HelpRenderer.EventTracked | nextest-runner/src/help_render.rs:901-1073 | each event of a well-nested stream is accepted, and leaves the renderer with exactly the styles, link, prefixes, list counters and block of the tags then open |
| HelpRenderer.StreamTracked | nextest-runner/src/help_render.rs:840-866 | a well-nested stream never panics, restores what its closed tags changed, and has had the text its events want written or buffered |
| HelpRenderer.RenderedSound | nextest-runner/src/help_render.rs:840-866 | for every well-nested stream with its code blocks closed: the output shows the text that the events, by themselves, want, line by line: the prefix of the tags around or the marker of the item, every character and breakable space with the styles and link of the tags around it, every line of code with its indentation, empty ones too, and the line that parts two blocks; only may a line be broken at a breakable space and go on behind its prefix, and each line is without its last blanks, as far as they are shown alike; no style or link across a line end, prefixes plain, and every line fits the width or has no breakable space |
| Documents.DocumentShown | nextest-runner/src/help_render.rs:840-866 | every document, as a tree of blocks and of text and markup in them, without a link in a link, gives a well-nested stream that closes all it opens, and its output shows what its events want |
| KeptInk.RenderedKeepsInk | nextest-runner/src/help_render.rs:840-866 | the characters of the output that are no blanks and no prefix are those of the events, each once, in order, with the styles and link of the tags around it, and there are no others |
| KeptInk.CodeLineWanted | nextest-runner/src/help_render.rs:656-712 | what is wanted of a line of code is its prefix, its characters and a line end, of an empty one too |
| NumberedItems.ListsCounted | nextest-runner/src/help_render.rs:943-975 | in every well-nested stream the next number of each open list is its first number plus the items it has had |
| NumberedItems.NextItemMarked | nextest-runner/src/help_render.rs:960-975 | where an item may start, its marker is a hyphen and a blank in a plain list, and in a numbered one the first number plus the number of items before, in decimal without needless zeros, a period and a blank |
| NumberedItems.ItemIndented | nextest-runner/src/help_render.rs:976-978 | inside an item the prefix is that of the blocks around it and as many blanks as its marker takes columns |
| NumberedItems.PrefixGrows | nextest-runner/src/help_render.rs:308-310 | a quote adds a bar and a blank to the prefix, code and a definition add four blanks, an item its indent, and nothing else adds anything, each behind the blocks around it |
| NumberedItems.ShowsPlaced | nextest-runner/src/help_render.rs:545-786 | neither wrapping nor trimming moves the start of a wanted line or the ink right behind it |
| NumberedItems.MarkerShown | nextest-runner/src/help_render.rs:840-982 | for every well-nested stream and every item in it that is followed by text, in a paragraph, a style or a link or not, the output has a line that starts with the prefix of the blocks around, the item's marker (the hyphen, or the first number plus the items before), and the text's first character with its styles and link |
| BlockSeparation.BlockApart | nextest-runner/src/help_render.rs:901-1073 | for every block that starts and every first character of it: a heading or title writes the end of the line and other blocks nothing, the character comes right after the buffered word if there is one, and it is kept apart from the text before exactly if no word was buffered or one ending in a blank |
| BlockSeparation.BlocksRunTogether | nextest-runner/src/help_render.rs:901-1073 | with text buffered, the first word of the block continues the last word before it |
| BlockSeparation.TightQuoteRunsOn | nextest-runner/src/help_render.rs:901-1073 | the well-nested stream of a list item `a` with a quote of `b` leaves the one word `ab` buffered |
| HelpRenderer.ChunkingDoesNotMatter | nextest-runner/src/help_render.rs:1077-1107 | however a text is cut into events, inside words, blanks or code, the state afterwards is the same |
| HelpRendering.Renderer.PushText | nextest-runner/src/help_render.rs:1077-1107 | the loop over runs of blanks and of other characters does what the characters do one by one |
| HelpRendering.Renderer.Handle | nextest-runner/src/help_render.rs:901-1073 | the renderer object handles each event as the function does |
| HelpRendering.Render | nextest-runner/src/help_render.rs:840-866 | the loop over all events gives the rendered output and the dropped events |
| TrailingBlanks.EndLineExact | nextest-runner/src/help_render.rs:751-770 | a line ends without blanks exactly if the blanks it would end in are all shown alike |
| TrailingBlanks.StepExact | nextest-runner/src/help_render.rs:545-786 | an operation leaves all lines without blanks at their ends exactly if they were so and any line it ends has its last blanks shown alike |
| TrailingBlanks.RunExact | nextest-runner/src/help_render.rs:545-786 | the same over every run of operations |
| CleanLines.CodeLineExact | nextest-runner/src/help_render.rs:659-712 | a line of code, any text behind any prefix, ends without blanks exactly if it has ink, or no style is on, or its prefix does not end in a blank |
| CleanLines.WordLineExact | nextest-runner/src/help_render.rs:592-632 | a line that ends after a word ends without blanks exactly if the blanks at the end of the word, and of what comes before it on the line, are shown alike |
| CleanLines.BlankWordExact | nextest-runner/src/help_render.rs:592-632 | a word of blanks after a space leaves no blank at the line end exactly if it is shown as that space is |
| CleanLines.RenderedExact | nextest-runner/src/help_render.rs:840-866 | for every well-nested stream with its code blocks closed, no line of the output ends in a blank exactly if at each line end the blanks are shown alike |
| CleanLines.PlainOutputIsClean | nextest-runner/src/help_render.rs:751-770 | without color and hyperlinks no line of any document ends in a blank |
| CleanLines.LinkedBlankKeepsSpace | nextest-runner/src/help_render.rs:751-770 | with hyperlinks and no color, `a` and a link around a blank code span give a line that ends in a blank |
| CleanStreams.InkyOutputIsClean | nextest-runner/src/help_render.rs:751-770 | with any settings, if code spans end in ink and each line of code, however it is cut into events, is empty or has ink, no line of the output ends in a blank |
| CleanStreams.ColoredBlankKeepsPrefix | nextest-runner/src/help_render.rs:656-770 | with color, a code block whose first line is one blank gives a line that ends in a blank |
| Truncation.TruncateAnsiAware | nextest-runner/src/helpers.rs:349-376 | the single pass with its early exits keeps exactly the characters between the two columns, and none of a stretch that begins at or past the end column |
| Truncation.TruncatedWindow | nextest-runner/src/helpers.rs:349-376 | the characters kept are one contiguous window that starts at the first character at or past the start column and cannot be extended |
| Truncation.TruncatedKeepsCodes | nextest-runner/src/helpers.rs:349-376 | every escape sequence is kept, in order |
| Truncation.TruncatedFits | nextest-runner/src/helpers.rs:349-376 | what is kept is no wider than the columns it is cut to |
| Truncation.ResolveWidths | nextest-runner/src/helpers.rs:246-284 | each component gets the room that the ones before it leave, and together they take the smaller of their width and the maximum |
| Truncation.DisplayTestInstance | nextest-runner/src/helpers.rs:215-333 | resolving widths one after the other and truncating gives each component cut to its room, which leaves the parts that `DisplayedParts.DisplayedInParts` gives |
| Truncation.CutComponent | nextest-runner/src/helpers.rs:286-315 | a component fits its room, keeps its escapes, is unchanged if it fits, and otherwise keeps a stretch from its start, or to its end but for characters of no width |
| Truncation.DisplayFits | nextest-runner/src/helpers.rs:215-333 | the printed test instance is never wider than the maximum and loses no escape sequence |
| Truncation.DisplayUnchanged | nextest-runner/src/helpers.rs:215-333 | a maximum changes nothing exactly if everything fits in it |
| DisplayedParts.CutKeepsMost | nextest-runner/src/helpers.rs:286-315 | a component cut to its room keeps as much as fits: of its start, where one more character would not fit, or of its end, where one more in front would not |
| DisplayedParts.DisplayedInParts | nextest-runner/src/helpers.rs:215-333 | what is shown within a maximum is a start of the stress index, of the counter and of the binary id, and an end of the test name, each as long as fits in what the full widths of those before it leave |
| DisplayedParts.TruncatedThinned | nextest-runner/src/helpers.rs:349-376 | truncating takes out characters only: every escape sequence stays in its place among what is left |
| DisplayedParts.DisplayedThinned | nextest-runner/src/helpers.rs:215-333 | a maximum takes characters out of what is shown without one, and does nothing else to it |
| Indenter.Indented.WriteStr | nextest-runner/src/indenter.rs:54-80 | the loop over lines writes what the characters write one by one |
| Indenter.CuttingDoesNotMatter | nextest-runner/src/indenter.rs:54-80 | any way of cutting a text into writes gives the same output and state |
| Indenter.WritesIndentedLines | nextest-runner/src/indenter.rs:54-80 | in every state the output is the text with each line that is not empty indented, but for a line already begun |
| Indenter.IndentsEveryLine | nextest-runner/src/indenter.rs:32-80 | from the start, every line that is not empty is indented, except the first after `skip_initial` |
| Indenter.NestingConcatenates | nextest-runner/src/indenter.rs:54-114 | where two indentations add up (no outer one, no newline in the inner one, or newlines only and then a line), an indenter that writes to an indenter is, in output and state, one with both indentations |
| Indenter.NestingExact | nextest-runner/src/indenter.rs:54-114 | the two write the same for every text exactly if the indentations add up |
| DecimalText.ParseUndoesPrint | nextest-runner/src/partition.rs:145-184 | numbers up to 64 bits are read back as printed, larger ones refused |
| PartitionBuilder.ParsePrint | nextest-runner/src/partition.rs:109-184 | a partition is read back as written exactly if its shard is between 1 and the total and the total fits 64 bits, and is refused otherwise |
| PartitionBuilder.ParseAcceptsOnlyValid | nextest-runner/src/partition.rs:145-184 | no text is read as a partition out of range |
| Partition.Partitioner.TestMatches | nextest-runner/src/partition.rs:187-234 | whether the test at its place is in the shard; the counter stays in range without overflow |
| Partition.ApplyPartitionToTest | nextest-runner/src/list/test_list.rs:1172-1198 | a test takes a place exactly if it matches or has passed already, and only a matching one of another shard is dropped |
| Partition.ApplyPartitionerToTests | nextest-runner/src/list/test_list.rs:1159-1170 | the tests of one sort are decided at their places, counting on from where the partitioner is; skipped suites are passed over |
| Partition.BothSorts | nextest-runner/src/list/test_list.rs:943-961 | one pass over the tests that are not ignored and one over those that are count the two apart |
| Partition.ApplyPerBinary | nextest-runner/src/list/test_list.rs:943-961 | each suite is partitioned by itself |
| Partition.ApplyCrossBinary | nextest-runner/src/list/test_list.rs:963-987 | one count goes on over all suites |
| Partition.ApplyPartitioning | nextest-runner/src/list/test_list.rs:920-941 | the test list afterwards is the one partitioned by scope, or unchanged without a partition; what becomes of each test is in `PartitionTurns.KeptExactly` |
| PartitionLaws.ExactlyOneShard | nextest-runner/src/list/test_list.rs:920-987 | over all shards of a partition, each test that matches is kept by exactly one, and every other test is unchanged in all |
| PartitionLaws.CountSharesAreEven | nextest-runner/src/partition.rs:187-211 | counted shards of a suite differ by at most one test |
| PartitionLaws.SliceSharesAreEven | nextest-runner/src/partition.rs:40-52 | slices of the whole list differ by at most one test, however the tests are spread over suites |
| PartitionLaws.TakenAreRun | nextest-runner/src/list/test_list.rs:1172-1198 | when nothing has passed already, the tests a shard takes are those it runs |
| PartitionLaws.RerunKeepsShards | nextest-runner/src/list/test_list.rs:1172-1198 | a rerun finds every outstanding test in the shard it was in |
| PartitionLaws.OnlySelectedMatter | nextest-runner/src/list/test_list.rs:1172-1198 | tests of the other sort and tests dropped by other filters have no influence on the outcome |
| PartitionTurns.KeptExactly | nextest-runner/src/partition.rs:187-234 | what becomes of every test of every suite: a matching one is kept by a shard exactly if its number modulo the total is the shard's, the number being for a count how many tests of its sort match or have passed before it in its suite, for a slice how many in the whole list, and for a hash the hash of its name; nothing else changes |
| PartitionTurns.OtherSuitesDoNotMatter | nextest-runner/src/partition.rs:74-80 | counting or hashing, a suite comes out as it does alone |
| PartitionTurns.SuitesDoNotMatterToSlices | nextest-runner/src/list/test_list.rs:963-987 | slicing, the whole list comes out as one suite of all its tests does |
| PartitionTurns.CountedSuitesAreEven | nextest-runner/src/partition.rs:187-211 | two shards of a count run numbers of tests of each suite that differ by at most one, if nothing has passed already |
| PartitionTurns.SlicedListsAreEven | nextest-runner/src/partition.rs:40-52 | two slices run numbers of tests of the whole list that differ by at most one, if nothing has passed already |

## Left out

- Spans and positions count characters, where the source counts bytes of UTF-8.
- The regex and glob libraries: which patterns are valid, and what they match, are parameters. A bad regex is reported
  at the whole regex text, not at the part the library blames.
- The parser library and the recursion library are modelled from their documented behaviour. Blanks before nested
  `ws` parsers are skipped once, at the outermost one.
- The package graph is a relation over the workspace packages; a failing `depends_on` counts as no dependency.
- Globs are equal when their texts are; the source compares their regexes.
- The text of diagnostics; an error is a kind and a span.
- FiltersetEval.EvaluateTest: recursion through `default()` carries a depth, and running out of it stands for not ending; `EvaluationEnds` says when that happens.
- Pattern sets of `ParseContext`, caching, and `needs_deps`.
- Highlighted TOML in code blocks (`verbatim_toml`), which buffers the text and colors its tokens; the model writes every code block as plain code.
- `preprocess`, shortcodes and URL rewriting: link events carry the rewritten target, or none for an anchor on the same page.
- The contents of the palette: a style is known by the parameters of its SGR sequence.
- The width of a text is the sum of the widths of its characters and a blank takes one column, where the help renderer uses the width of the whole string.
- Each character written carries a note of which call wrote it, which exists in the model only.
- HeldText.RunSound: leaves out markers set within an open line, which would go to the next line the writer happens to break; the renderer sets none (`EventMarksStart`).
- Event streams are well nested as markdown is: nothing but text in code blocks, no block in a definition's title, no link
  in a link. Emphasis, strong and strikethrough end with one event each in the source and with the same one here.
- List ordinals, columns and widths are unbounded, where the source has 64-bit numbers.
- Splitting text into escape sequences and stretches between them is given; the two libraries the source uses for it are taken to agree.
- The four components of a test instance come already formatted and styled.
- Indenter.NestingExact: states nesting on the indenters' state functions, since the writer inside the indenter object is its own output string; errors of the inner writer are left out.
- The hash of test names is any function to natural numbers.
- Test suites hold their tests as a sequence that is rebuilt in order, where the source updates a map in place.
