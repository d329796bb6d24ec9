# Models of the self-contained algorithms in V8 and JSLint that the shell ships

The repository is a small JavaScript shell around V8, with JSLint among its examples. This project
models the algorithms in those sources that stand on their own and proves what they are for. Each
module is one area. Where the source updates state step by step the module has classes and methods
with loops, each tied by its contract to a specification function or predicate; the theorems are
about those.

| module | what it models |
|---|---|
| `RelocInfo` | writing and reading relocation records as a stream of tagged bytes, both ways over one buffer |
| `HandleScopes` | the blocks, the spare block, nested scopes, escape on close and the walk over the roots |
| `PrattParser` | JSLint's expression parser by binding powers, with a printer to set against it |
| `OperatorChains` | which tree that parser makes of chains of operators, by operator classes, and of what stands around them |
| `ExpressionErrors` | what it does with missing delimiters, extra commas and leading decimal points |
| `JsonChecker` | JSLint's recursive JSON checker against the grammar of section 2 of RFC 4627 |
| `StatementNesting` | JSLint's statement parser and the two counters behind its break, continue and function-in-loop warnings |
| `ParsingEnds` | when that statement parser comes to an end |
| `LoopHeads` | what it reports of the parts of a loop's head that run once |
| `LineEnds` | what line ends inside a statement change |
| `StatementSlips` | what it does with missing braces and semicolons and other slips |
| `HtmlChecker` | JSLint's loop over HTML tags and its stack, against rules about the tags alone |
| `HtmlDocuments` | documents as trees, written out as tags, and which of them that loop lets pass |
| `RegExpAnalysis` | match lengths, anchors and capture registers of regexp trees, against the matching of section 15.10.2 of ECMA-262, 5th edition |
| `RegExpTightness` | that those analyses find all there is: greatest lengths are reached, anchors are found, and the order of the matches |
| `ObjectLiterals` | which property stores of a literal are left out, and the object the generated code builds |
| `AtomicOps` | the compare-exchange retry loops, as steps of threads over one cell and as loops with interference |
| `StorageRing` | doubly linked rings and the allocator that moves chunks of one block between two of them |
| `Utf8Writer` | UTF-8 encoding and decoding of a character, and the writer into a buffer of limited capacity |
| `PowerInt` | integer powers by squaring, over the reals |
| `Wrappers` | the type of a value that may be missing |

## Where the code does not do what it says

Each of these is stated by a lemma, and where a theorem depends on it the exact condition is proved.

- A regexp quantifier multiplies, and an alternative adds, least lengths in an `int` without a check.
  `(?:(?:aa){1073741824}|a)(?:(?:aaa){1431655765}|a)` gets the least length 2^31 - 1 and matches two
  characters (`OverflowExampleMin`, `OverflowExampleMatches`). For every tree the bound is true if no
  product and no partial sum on the way lies below -2^31 (`NoUnderflowSound`), in particular if all
  least lengths are ints (`MinFitsSound`). For trees without conditions, back references and
  possessive quantifiers it is true if and only if the computed number is no greater than the exact
  one (`MinMatchSoundIff`).
- A relocation iterator that wants comments but no positions skips short position records without
  adding up their data, so the comments it shows can carry wrong data. For every such mask they are
  right if and only if the skipped deltas cancel out at each comment (`CommentData` over the items,
  `CommentsComeBack` over the records; `CommentOnlyExample` is an input). Program-counter jumps of
  2^32 and more do not come back (`FullMaskRoundTrip`).
- The expression parser drops the arguments of calls: `f(x)` and `f()` give the same tree
  (`ArgumentsLost`; `ExactRoundTrip` says which trees come back).
- The expression parser puts all comparisons and equalities into one class, and `in` and `instanceof`
  with the shifts. Of two operators side by side it divides exactly three kinds of pairs otherwise
  than sections 11.5 to 11.11 of ECMA-262, 5th edition: an equality before a comparison, a comparison
  before `in` or `instanceof`, and one of these before a shift (`StandardTree`). A prefix operator
  ends before `++` and `--`, so `-a++` is the increment of `-a` (`PrefixRead`), with a warning about a
  bad operand that is not modelled. After `.5` no operator is looked at (`LeadingPoint`).
- A literal such as `{a: [g()], a: 1}` keeps the array: a materialized literal that is built at run
  time is stored over the later compile-time value (`BuiltIsMeaning`, `RevivedExample`).
- JSLint's JSON checker compares columns, not lines, for a minus sign and its number. It accepts what
  the grammar accepts if and only if no minus sign is followed by a number on another line
  (`MinusAcrossLines`, `MinusAcrossExample`).
- Lists of statements end at eight kinds of token besides the end of the text; a switch looks for
  three of these. The other ones, `:`, `</`, an operator the syntax does not know such as `++++`, and
  the closing quote of an event handler, make the statement parser look for statements for ever when
  one comes right after the colon of a case label, after any statements, in any switch and with either
  kind of label (`DeadEndHangs`, `ColonHangs`). So `<script>switch (x) { case 1:</script>` has no end.
  The clause the parser stands at gets nowhere if and only if its colon is followed by such a token
  (`ClauseMoves`), and on tokens in which no colon is, the parser always comes to an end
  (`NeverHangs`).
- A function in the first part of a `for`, or in the object of a for-in, is reported as made in a
  loop, though both run once. The report is the deserved one if and only if no function literal
  stands there outside all other loops of its function (`HeadCountsAsLoop`).
- An alternative is reported as anchored at the start only if nothing before its anchor can consume
  anything, so `a?^b`, which matches at index 0 only, is not. In trees where `^` stands only where
  nothing can be consumed before it, and `$` only where nothing can be after it, the report is exact
  (`AnchoredAtStartIff`, `AnchoredAtEndIff`).
- A script or style element may be closed by a tag of any name (`RawNameIgnored`,
  `ScriptEndsWithAnyTag`). A string `"(end)"` ends the HTML check at once, whatever comes after it.
  The lexer puts out a string between tags only before the first of them, so the texts accepted are
  exactly the documents and those in which that string comes before any tag (`AcceptsTexts`), such as
  `<= "(end)"` (`StringEndsChecking`).
- The debug form of the break test in `DeleteExtensions` differs from the release form when a block
  begins exactly at the limit looked for (`DebugBreakTest`). The model takes the release form.

## Model

| member | source | states |
|---|---|---|
| `RelocInfo.ModeNumbers` | v8/src/assembler.h:210-235 | different modes have different numbers: a number gives its mode back |
| `RelocInfo.ModeBits` | v8/src/assembler.h:274 | the bit of a mode in a mask is the power of two of its number |
| `RelocInfo.MaskGroups` | v8/src/assembler.h:363-364 | the position and debug tests on a mask hold exactly when the mask has one of the modes in the group |
| `RelocInfo.ModeOrder` | v8/src/assembler.h:210-246 | the mask 0xF for code targets has exactly the four modes of calls, and the modes numbered up to the property cells are exactly those that concern the garbage collector |
| `RelocInfo.DataBytesRoundTrip` | v8/src/assembler.cc:297-303 | adding a delta read back from its bytes gives the word that adding the delta itself gives, for either word size |
| `RelocInfo.WrapDifference` | v8/src/assembler.cc:209-217 | the difference of two words, added back modulo the word size, gives the second word |
| `RelocInfo.SizeBounds` | v8/src/assembler.h:199-205 | every record takes at least one and at most 8 bytes and a word, so at most kMaxSize; a code target at most kMaxCallSize; a comment at least kMinRelocCommentSize |
| `RelocInfo.ItemsBytes` | v8/src/assembler.cc:219-269 | the bytes that the branches of Write emit are the encoding of the record's items |
| `RelocInfo.RelocInfoWriter.WriteVariableLengthPCJump` | v8/src/assembler.cc:162-179 | emits the jump's 7-bit chunks, the last one marked, in at most five bytes, and returns the six low bits |
| `RelocInfo.RelocInfoWriter.WriteExtraTaggedData` | v8/src/assembler.cc:209-217 | emits the tag byte and the delta as a little-endian word |
| `RelocInfo.RelocInfoWriter.Write` | v8/src/assembler.cc:219-269 | appends, downwards, exactly the record's bytes and moves last pc and last data on |
| `RelocInfo.FirstByte` | v8/src/assembler.cc:272-285 | tag, extra tag and top tag can be read off the first byte of every item |
| `RelocInfo.SmallDataByte` | v8/src/assembler.cc:322-331 | a data delta of seven bits comes back with its sign from its byte, beside the position tag |
| `RelocInfo.RelocIterator.AdvanceReadVariableLengthPCJump` | v8/src/assembler.cc:306-319 | reads the chunks up to the marked one and moves the pc by the jump that was written |
| `RelocInfo.RelocIterator.AdvanceReadData` | v8/src/assembler.cc:297-303 | reads a word of delta and adds it to the data modulo the word size |
| `RelocInfo.RelocIterator.SetMode` | v8/src/assembler.h:467-469 | tells whether the mask has the mode, and sets it exactly then |
| `RelocInfo.RelocIterator.Next` | v8/src/assembler.cc:346-396 | shows the next entry that the mask wants, or is done when there is none; never reads below the end |
| `RelocInfo.RecordRoundTrip` | v8/src/assembler.cc:219-396 | one record read back from its items: mode, pc moved by the delta modulo 2^32, data for the debug modes |
| `RelocInfo.StreamRoundTrip` | v8/src/assembler.cc:219-396 | the same for any list of records, from any pc and data |
| `RelocInfo.PcsComeBack` | v8/src/assembler.cc:224-236 | with ascending pcs, modes and pcs come back if and only if every delta is below 2^32 |
| `RelocInfo.FullMaskRoundTrip` | v8/src/assembler.cc:162-396 | the full mask gives back modes and pcs exactly when the deltas fit, and then the data as shown |
| `RelocInfo.ShownAgrees` | v8/src/assembler.cc:240-262 | every record is shown with its mode and pc, and those of position, statement position and comment are shown whole |
| `RelocInfo.FilteredPlaces` | v8/src/assembler.cc:346-396 | for every mask the modes and pcs are those the mask selects from the full iteration, although bytes are skipped |
| `RelocInfo.FilteredData` | v8/src/assembler.cc:346-396 | for a mask with a position mode the selected entries are the same, data included |
| `RelocInfo.CommentOnlyData` | v8/src/assembler.cc:366-378 | for the comment-only mask, from any cursor and any lag behind the full iteration, the data is right if and only if the skipped position deltas cancel before every comment |
| `RelocInfo.CommentsAlone` | v8/src/assembler.cc:346-396 | with every mask that has comments and no positions, the comments are those of the comment-only mask |
| `RelocInfo.CommentData` | v8/src/assembler.cc:366-378 | for every such mask the comments are right if and only if the skipped deltas cancel before each of them |
| `RelocInfo.CommentsComeBack` | v8/src/assembler.cc:162-396 | over any records written: with such a mask the comments written come back if and only if the position deltas that fit in one byte cancel before each of them |
| `RelocInfo.CommentOnlyExample` | v8/src/assembler.cc:366-378 | a position and a comment for which it is wrong |
| `RelocInfo.NothingWanted` | v8/src/assembler.cc:399-420 | the empty mask shows nothing |
| `RelocInfo.WriteRecords` | v8/src/assembler.cc:219-269 | writing a list of records fills a buffer from its end with exactly their encoding |
| `RelocInfo.ReadRecords` | v8/src/assembler.cc:346-410 | iterating over encoded items gives what the specification reads |
| `RelocInfo.WriteThenRead` | v8/src/assembler.cc:162-396 | through a real buffer: for every mask the wanted modes and pcs come back, for the full mask and for masks with a position mode the data too |
| `HandleScopes.HandleScopeImplementer.GetSpareOrNewBlock` | v8/src/api.h:525-532 | hands out the spare block or a fresh one that no scope holds, and leaves no spare |
| `HandleScopes.HandleScopeImplementer.Extend` | v8/src/handles.cc:58-96 | fails exactly without an open scope; else adds one block, at a moment when all blocks are full |
| `HandleScopes.HandleScopeImplementer.CreateHandle` | v8/src/handles-inl.h:132-148 | puts the value in the next free slot, after all the live ones, and changes no other handle |
| `HandleScopes.HandleScopeImplementer.DeleteExtensions` | v8/src/api.h:534-556 | keeps exactly the blocks of the scope left: the last one ends at prev_limit, or none is left when that is NULL; the last block popped becomes the spare, and each other is freed once |
| `HandleScopes.HandleScopeImplementer.NumberOfHandles` | v8/src/handles.cc:48-55 | the pointer arithmetic gives the number of live handles |
| `HandleScopes.HandleScopeImplementer.IterateThis` | v8/src/api.cc:5649-5665 | the walk visits every live slot exactly once and no other |
| `HandleScopes.SlotsOnce` | v8/src/api.cc:5649-5665 | the slots of full blocks and of the part before next are the live slots, each once |
| `HandleScopes.SlotsDiffer` | v8/src/api.h:525-556 | different handles have different slots |
| `HandleScopes.LastLimit` | v8/src/api.h:534-556 | looking for the last block's limit finds the block in which the scope began, and NULL means no handle |
| `HandleScopes.FillNext` | v8/src/handles-inl.h:132-148 | storing in the next slot adds one value and keeps the others |
| `HandleScopes.KeepFirst` | v8/src/api.cc:526-541 | after the extensions are gone the first handles have their values |
| `HandleScopes.HandleScopeImplementer.FullAtLimit` | v8/src/handles.cc:58-96 | when next reaches limit every block is completely full |
| `HandleScopes.HandleScopeImplementer.LeaveScope` | v8/src/api.cc:526-541 | restores next, limit, level, the block list and every handle value of scope entry |
| `HandleScopes.HandleScopeImplementer.LeaveFacts` | v8/src/api.cc:526-541 | in every valid state, what the innermost scope was entered with is still there: its blocks are the first ones and its values are in place |
| `HandleScopes.HandleScope.RawClose` | v8/src/api.cc:635-658 | puts what the given slot holds, wherever that slot is, in the next slot of the enclosing scope; a second close does nothing; null and a missing enclosing scope are told apart |
| `HandleScopes.HandleScope.Destroy` | v8/src/api.cc:519-524 | the destructor leaves the scope unless it has been closed |
| `HandleScopes.Run` | v8/src/api.cc:506-541 | over any balanced run of allocations, nested scopes and closing scopes the handles of the scope are those the run's meaning gives |
| `HandleScopes.RunScope` | v8/src/api.cc:506-541 | a scope with any balanced run in it, opened in another scope or in none, leaves next, limit, level, blocks and all outer handles as they were |
| `HandleScopes.RunScopeClosing` | v8/src/api.cc:635-658 | a scope that is closed with a value adds exactly that value to the outer handles |
| `HandleScopes.DebugBreakTest` | v8/src/api.h:534-556 | the debug and the release break test agree if and only if no block begins at prev_limit |
| `PrattParser.RoundTrip` | examples/lint.js:2069-2111 | printing any tree with only the parentheses its binding powers need and parsing it gives the tree as recorded, and fails exactly when an assignment target is bad |
| `PrattParser.RightParensNeeded` | examples/lint.js:2069-2111 | without a parenthesis that the printer sets around a right operand, the parser stops short |
| `PrattParser.LeftParensNeeded` | examples/lint.js:2069-2111 | without one that it sets around a left operand, whatever follows, the tree with that left operand is not what is read |
| `PrattParser.LeftLost` | examples/lint.js:2069-2111 | an operator after an unparenthesized tree that is open for it is never put upon that tree, at any binding power and before any tokens |
| `PrattParser.RightTakes` | examples/lint.js:2069-2111 | what follows a printed tree goes to its open right operand first, at that operand's binding power |
| `PrattParser.RecordedIsKept` | examples/lint.js:4228-4241 | recording changes a tree exactly by joining adjacent strings under `+` and dropping call arguments |
| `PrattParser.ExactRoundTrip` | examples/lint.js:2069-2111 | the tree itself comes back if and only if its targets are good and it has neither |
| `PrattParser.ArgumentsLost` | examples/lint.js:4451-4488 | a call with an argument parses to the call without |
| `PrattParser.Precedence` | examples/lint.js:4186-4271 | the classes are, from low to high: or; and; the bitwise or, exclusive or, and; comparisons with equalities; shifts with `in` and `instanceof`; sums; products. The middle one of three operands goes to the operator of the higher class, and within a class to the left one |
| `PrattParser.AssignmentsNest` | examples/lint.js:2350-2407 | two assignments associate to the right |
| `OperatorChains.ChainRead` | examples/lint.js:4186-4271 | any chain of operands and infix operators, an operand being any tree, in parentheses if it is divided by an operator itself, is read to its end as the tree divided at the last operator of its lowest class, and again so in both parts |
| `OperatorChains.AssignmentRead` | examples/lint.js:2350-2392 | an assignment takes any tree to its right whole; to its left it wants a single operand that is a name, a member, an element or an array literal, and after any other chain parsing fails |
| `OperatorChains.ConditionalRead` | examples/lint.js:4178-4184 | a question mark takes the whole chain before it as the condition, and its two parts may be any trees |
| `OperatorChains.PrefixRead` | examples/lint.js:2249-2266 | a prefix operator takes an operand with its members, subscripts and calls and further prefix operators, and ends before `++` and `--` |
| `OperatorChains.StandardTree` | examples/lint.js:4186-4271 | two operators side by side are divided as the language says if and only if they are not one of three kinds of pairs |
| `ExpressionErrors.ParenMissing` | examples/lint.js:4521-4541 | a parenthesized tree without its last parenthesis, or with another token there, is read whole with one warning; with it, without one |
| `ExpressionErrors.SubscriptMissing` | examples/lint.js:4542-4573 | the same for a subscript |
| `ExpressionErrors.ArgumentMissing` | examples/lint.js:4451-4519 | the same for a call with an argument |
| `ExpressionErrors.ElementSlips` | examples/lint.js:4576-4611 | the same for an array literal, with any number of commas before the element, each warned about |
| `ExpressionErrors.TrailingComma` | examples/lint.js:4592-4597 | a comma behind the last element is warned about and dropped, without option.es5 |
| `ExpressionErrors.ColonMissing` | examples/lint.js:4178-4184 | another token in the place of the colon of a conditional is passed with one warning |
| `ExpressionErrors.LeadingPoint` | examples/lint.js:2083-2099 | a number behind a decimal point is the whole expression at any power, whatever follows |
| `ExpressionErrors.WordsAreNames` | examples/lint.js:2466-2478 | the name of a member may be any word, reserved or not, and nothing else |
| `PrattParser.ParseCanonical` | examples/lint.js:2069-2111 | whatever the parser accepts, its tree has good targets and is kept whole |
| `PrattParser.Reparse` | examples/lint.js:2069-2111 | every tree the parser returns, from any tokens and binding power, prints and parses to itself |
| `PrattParser.FoldingKeepsValue` | examples/lint.js:4228-4241 | joining adjacent strings under `+` keeps the value under every meaning of the operators |
| `PrattParser.ParseKeepsValue` | examples/lint.js:2069-2111 | printing and parsing a tree without call arguments keeps its value |
| `PrattParser.Parser.ParseNext` | examples/lint.js:2069-2111 | the loop over shared tokens computes the specification's tree, rest and warnings, or fails exactly when it does |
| `PrattParser.Parser.RunLed` | examples/lint.js:2294-2407 | the same for the left denotations |
| `JsonChecker.ValueSound` | examples/lint.js:5246-5335 | what the checker consumes as a value is a value of the grammar |
| `JsonChecker.ValueComplete` | examples/lint.js:5246-5335 | every value of the grammar is consumed whole, whatever follows |
| `JsonChecker.MembersSound` | examples/lint.js:5248-5284 | the members accepted are those of the grammar with distinct keys, none of them `__proto__` |
| `JsonChecker.MembersComplete` | examples/lint.js:5248-5284 | and all of those are accepted |
| `JsonChecker.ExactGrammar` | examples/lint.js:5246-5335 | the whole text is consumed if and only if it is a value of the grammar in which a minus and its number touch by their columns |
| `JsonChecker.ShortValues` | examples/lint.js:5316-5331 | in grammar and run alike, the values of one token are `true`, `false`, `null`, numbers and strings, and those of two are `{}`, `[]` and a minus sign with a number that begins where it ends |
| `JsonChecker.Checker.JsonValue` | examples/lint.js:5310-5335 | without an error or a warning exactly when the text begins with a value, and then passes just that |
| `JsonChecker.Checker.JsonMembers` | examples/lint.js:5248-5284 | the same for the members of an object, with its table of keys |
| `JsonChecker.Checker.CheckDocument` | examples/lint.js:5441-5446 | no warning and no error if and only if the text is an object or an array |
| `JsonChecker.MinusAcrossLines` | examples/lint.js:5324-5331 | the grammar with columns alone and the grammar with one line agree on a text if and only if no minus sign in it has a number after it on another line |
| `JsonChecker.MinusAcrossExample` | examples/lint.js:5324-5331 | a value where they differ |
| `StatementNesting.EnterConstruct` | examples/lint.js:4661-4686 | a loop opens both contexts, a switch the one of break, a function closes both |
| `StatementNesting.ExprRead` | examples/lint.js:2069-2111 | an expression with any function literals in it is read whole, with the warnings of those functions |
| `StatementNesting.FunctionRead` | examples/lint.js:4661-4686 | a function is read with its body outside every loop and switch around it |
| `StatementNesting.CasesRead` | examples/lint.js:4962-5028 | the clauses of a switch are read with their statement lists |
| `StatementNesting.JumpRead` | examples/lint.js:5153-5196 | break and continue, labelled or not, are read with exactly the warnings that the constructs around them deserve |
| `StatementNesting.BareRead` | examples/lint.js:2504-2580 | every form of statement is read whole with exactly its report |
| `StatementNesting.AllRead` | examples/lint.js:2645-2653 | the same for lists of statements |
| `StatementNesting.ProgramRead` | examples/lint.js:2583-2654 | for every program, its tokens are read to the end and the warnings are the report: a break is unexpected if and only if no loop or switch of its function encloses it, a continue before a semicolon is reported as not in a loop if and only if no loop does, a function expression is reported if and only if one does |
| `ParsingEnds.NeverHangs` | examples/lint.js:2583-2654 | on all tokens in which no colon has a colon, a `</`, an unknown operator or a closing quote right after it, the statement parser comes to an end |
| `ParsingEnds.ClauseMoves` | examples/lint.js:5015-5027 | in a clause whose colon was just passed, the statements leave the tokens as they are if and only if one of those tokens comes, and just then the parser is stuck |
| `ParsingEnds.DeadEndHangs` | examples/lint.js:4945-5035 | any program that begins with any statements and a switch on any expression, whose first case or default has one of those tokens after its colon, keeps the parser for ever |
| `ParsingEnds.ColonHangs` | examples/lint.js:5015-5027 | `switch (x) { case 1:` and one of those tokens does so before any tokens whatever |
| `LineEnds.AheadSees` | examples/lint.js:1982-1992 | a look ahead finds a token behind all line ends before it |
| `LineEnds.AheadElsewhere` | examples/lint.js:1982-1992 | in every other place it finds a line end, or nothing |
| `LineEnds.LabelOnItsLine` | examples/lint.js:2504-2530 | a name and a colon are a label exactly when they are on one line; otherwise the name is a statement without its semicolon and the list ends at the colon |
| `LineEnds.JumpOnItsLine` | examples/lint.js:5153-5196 | break and continue take a name on their line as their label and leave one on the next line alone, with exactly these warnings |
| `StatementSlips.BareBody` | examples/lint.js:2657-2694 | any statement in the place of a block is read as in one, with one more warning |
| `StatementSlips.BareWhile` | examples/lint.js:4922-4942 | breaks, continues and functions in such a body of a loop are in the loop |
| `StatementSlips.StraySemicolon` | examples/lint.js:2645-2652 | a semicolon too many before any list of statements is passed with one warning |
| `StatementSlips.ThrowUnfinished` | examples/lint.js:2538-2558 | a throw of any expression without its semicolon at the end of a block is read with one warning |
| `StatementSlips.ConditionAssigned` | examples/lint.js:4922-4935 | an assignment as a condition is read whole with a warning at its sign |
| `StatementSlips.TryAlone` | examples/lint.js:4886-4920 | a try without catch or finally ends parsing |
| `StatementSlips.FunctionInvoked` | examples/lint.js:4829-4846 | a function statement with a parenthesis behind it on the same line ends parsing |
| `StatementSlips.NameWanted` | examples/lint.js:2452-2478 | where a name is wanted a word of the language passes with a warning, and a sign ends parsing |
| `LoopHeads.HeadCountsAsLoop` | examples/lint.js:5068-5148 | for every program: the parser's warnings are those deserved when the first part of a `for` and the object of a for-in count as before the loop, if and only if no function literal stands in such a part without another loop of its function around it |
| `StatementNesting.Parser.ParseStatements` | examples/lint.js:2583-2654 | on any tokens: same tokens left, warnings and end as the specification; function and both counters are what they were |
| `StatementNesting.Parser.ParseStatement` | examples/lint.js:2504-2580 | the same for one statement, normally finished or not |
| `StatementNesting.Parser.ParseWhile` | examples/lint.js:4922-4941 | the counters are raised for the head and the body and restored |
| `StatementNesting.Parser.ParseDo` | examples/lint.js:5039-5066 | the same for do |
| `StatementNesting.Parser.ParseFor` | examples/lint.js:5068-5150 | the same for both forms of for |
| `StatementNesting.Parser.ParseSwitch` | examples/lint.js:4945-5035 | only the counter of break is raised, and restored at the closing brace |
| `StatementNesting.Parser.ParseBreak` | examples/lint.js:5153-5173 | the warning and the label by the counter and the line |
| `StatementNesting.Parser.ParseContinue` | examples/lint.js:5175-5196 | both warnings, the second only before a semicolon |
| `StatementNesting.Parser.DoFunction` | examples/lint.js:4661-4686 | a function is parsed with fresh counters in an object of its own, and the outer one is in force again after it |
| `StatementNesting.Parser.ParseExpression` | examples/lint.js:2069-2111 | expressions leave the counters alone |
| `HtmlChecker.BalancedIff` | examples/lint.js:3911-3936 | a stack that pushes and pops names comes out empty exactly on the balanced words |
| `HtmlChecker.StackIs` | examples/lint.js:3785-3960 | the stack holds the open elements as long as every tag stood where it may and the first was html |
| `HtmlChecker.HasPlaceIs` | examples/lint.js:3657-3686 | the check on the stack lets an element stand exactly where the tags before it do: at the outside; or, unless it is html, right inside one of its parents, or without listed parents in a fragment or after a `<body>` that is not closed |
| `HtmlChecker.InnermostIs` | examples/lint.js:3670-3675 | the top of the stack is the element after whose opening tag only whole elements have come |
| `HtmlChecker.OpenIs` | examples/lint.js:3676-3685 | a name is on the stack exactly when an element of that name has been opened and not been closed around whole elements |
| `HtmlChecker.ClosesWellIs` | examples/lint.js:3910-3936 | no closing tag fails exactly when each closes the element opened last and not closed |
| `HtmlChecker.AcceptsDocuments` | examples/lint.js:3783-3979 | on any list of tokens the check ends without an error if and only if the tags are balanced with matching names, every element stands in an allowed parent or in the body, and (but for fragments) one html element is all there is; or a round comes upon a token with the text `(end)` and the tags up to there are the beginning of such a document |
| `HtmlChecker.AcceptsTexts` | examples/lint.js:3783-3979 | on what the lexer puts out, with no string at the head of a round behind a tag, it does if and only if the text is a document, or a string `(end)` heads a round; and then no tag was before it |
| `HtmlChecker.EmptyIsNeverClosed` | examples/lint.js:3904-3908 | a text with a closing tag for an element that the table calls empty is not accepted |
| `HtmlChecker.RawNameIgnored` | examples/lint.js:3709-3735 | whatever name the tag that closes a script or style has, the text is accepted or refused alike, for any attributes, content, rest and stack |
| `HtmlChecker.ScriptEndsWithAnyTag` | examples/lint.js:3716-3723 | `<script></b>` is accepted in a fragment |
| `HtmlChecker.StringEndsChecking` | examples/lint.js:3961-3962 | `<= "(end)"` is accepted, with anything after it |
| `HtmlChecker.NamesMatch` | examples/lint.js:3798-3801 | names are the same if they are equal, or with option.cap if they differ in small and capital letters only |
| `HtmlChecker.DeclarationRead` | examples/lint.js:3938-3961 | a declaration is passed up to its closing angle if and only if no token in it holds `--`, `<` or `>` |
| `HtmlDocuments.TreesAccepted` | examples/lint.js:3784-3982 | of all trees written out as tags, with any attributes and texts, exactly those pass whose elements the table knows, each in a parent the table allows or in the body, closed by its own name: a fragment with an element in it, or one html element with no tag outside it |
| `HtmlDocuments.AttributesRead` | examples/lint.js:3817-3907 | any list of attributes with or without values is passed, and the last `src` tells whether there is a source |
| `HtmlChecker.Checker.ParseAttributes` | examples/lint.js:3814-3903 | passes the attributes up to the closing angle, and fails exactly when there is none |
| `HtmlChecker.Checker.OpenTag` | examples/lint.js:3790-3909 | the state after an opening tag, or an error, in the order in which the source checks |
| `HtmlChecker.Checker.CloseTag` | examples/lint.js:3910-3937 | pops the innermost element if the name is its own, else an error |
| `HtmlChecker.Checker.Html` | examples/lint.js:3783-3979 | the loop returns normally exactly when the specification accepts |
| `HtmlChecker.Checker.Check` | examples/lint.js:3783-3979 | the loop and the two theorems together: for the lexer's tokens, normal return if and only if the text is a document, in terms of its tags alone, or is cut off by `(end)` before any tag |
| `RegExpAnalysis.Results` | v8/src/ast.h:1799-2140 | all ways to match a tree, best first; no result lies before the start or past the input |
| `RegExpTightness.QuantifierOrder` | v8/src/ast.h:1998-2041 | repeated text: greedy and non-greedy quantifiers match in the same ways, the one with the longest first and the other last; a possessive one keeps the longest alone |
| `RegExpAnalysis.SatMulIs` | v8/src/ast.h:2007-2011 | the product of a quantifier is exact or, if that is too big, infinity |
| `RegExpAnalysis.MaxMatchRange` | v8/src/ast.cc:1111-1140 | no greatest length is ever above kInfinity or below zero |
| `RegExpAnalysis.MaxMatchSound` | v8/src/ast.cc:1111-1140 | every match of every tree is at most max_match long unless that is kInfinity |
| `RegExpTightness.MaxMatchIsLeast` | v8/src/ast.cc:1111-1140 | for trees without conditions max_match is the least true bound, or there is none below kInfinity |
| `RegExpTightness.LongestMatches` | v8/src/ast.cc:1111-1140 | such a tree does match an input of its greatest length, wherever that stands |
| `RegExpAnalysis.ExactMinSound` | v8/src/ast.cc:1111-1140 | every match is at least as long as the least length computed without overflow |
| `RegExpAnalysis.MinMatchExact` | v8/src/ast.cc:1111-1140 | min_match is that length when nothing on the way overflows |
| `RegExpAnalysis.MinMatchSound` | v8/src/ast.cc:1111-1140 | every match is at least min_match long when that is no greater than the exact length |
| `RegExpAnalysis.ShortestMatches` | v8/src/ast.cc:1111-1140 | a tree without conditions does match an input of its least length, wherever that stands |
| `RegExpAnalysis.MinMatchSoundIff` | v8/src/ast.cc:1111-1140 | for such trees min_match is a true bound if and only if it is no greater than the exact length |
| `RegExpAnalysis.MinMatchNotAbove` | v8/src/ast.cc:1111-1140 | for every tree min_match is no greater than the exact length if no product and no partial sum underflows |
| `RegExpAnalysis.NoUnderflowSound` | v8/src/ast.cc:1111-1140 | then every match is at least min_match long, also with assertions, lookaheads, back references and possessive quantifiers |
| `RegExpAnalysis.MinFitsSound` | v8/src/ast.cc:1111-1140 | in particular when all least lengths are ints |
| `RegExpAnalysis.OverflowExampleMin` | v8/src/ast.cc:1126-1140 | a tree whose least length comes out as 2^31 - 1 |
| `RegExpAnalysis.OverflowExampleMatches` | v8/src/ast.cc:1126-1140 | that tree matches two characters |
| `RegExpAnalysis.AnchoredAtStartSound` | v8/src/ast.cc:873-933 | a tree reported as anchored at the start matches only at index 0, on every input |
| `RegExpAnalysis.AnchoredAtEndSound` | v8/src/ast.cc:878-937 | a tree reported as anchored at the end matches only up to the end |
| `RegExpTightness.AnchoredAtStartWhen` | v8/src/ast.cc:883-920 | an alternative is anchored at the start if and only if some node is and none before it has a max_match above zero; a disjunction if and only if all alternatives are |
| `RegExpTightness.AnchoredAtEndWhen` | v8/src/ast.cc:894-929 | the mirror image |
| `RegExpTightness.AnchoredAtStartIff` | v8/src/ast.cc:873-933 | of trees with `^` and `$` only where nothing can be consumed before or after, exactly those are reported that match nowhere but at index 0 |
| `RegExpTightness.AnchoredAtEndIff` | v8/src/ast.cc:878-937 | and exactly those that match nowhere but up to the end |
| `RegExpAnalysis.CaptureRegistersHull` | v8/src/ast.cc:839-870 | the interval is the smallest that holds both registers of every capture in the tree |
| `RegExpAnalysis.NewDisjunction` | v8/src/ast.cc:1111-1123 | the loop computes the least and the greatest length of the alternatives |
| `RegExpAnalysis.NewAlternative` | v8/src/ast.cc:1126-1140 | the loop computes the wrapping and the saturating sum |
| `RegExpAnalysis.UnionOfRegisters` | v8/src/ast.cc:839-844 | the loop computes the hull of all captures of the children |
| `ObjectLiterals.ArrayIndexOfNumeral` | v8/src/objects.cc:5502-5529 | the numeral of a number is an array index exactly when the number has 32 bits |
| `ObjectLiterals.ComputeArrayIndex` | v8/src/objects.cc:5502-5529 | the loop over digits, within 32 bits, finds the number a string spells, or none |
| `ObjectLiterals.SlotsAreNames` | v8/src/ast.cc:240-279 | two keys are looked up in the same place if and only if they name the same property, numbers and strings alike |
| `ObjectLiterals.Literal.CalculateEmitStore` | v8/src/ast.cc:240-291 | the backward pass clears the flag of exactly the computed properties that a later property of the same name hides |
| `ObjectLiterals.LastStoreWins` | v8/src/x64/full-codegen-x64.cc:1386-1428 | a run of stores leaves in each name the value of the last store made to it |
| `ObjectLiterals.EmittedStoresSuffice` | v8/src/ast.cc:240-291 | running only the emitted stores gives every name the value that running all gives |
| `ObjectLiterals.BuiltIsMeaning` | v8/src/x64/full-codegen-x64.cc:1355-1434 | the boilerplate with the run-time stores is the object the source means if and only if no literal built at run time is followed by a last compile-time value of the same name |
| `ObjectLiterals.RevivedExample` | v8/src/x64/full-codegen-x64.cc:1386-1428 | `{a: [g()], a: 1}` keeps the array |
| `AtomicOps.StepRefines` | v8/src/atomicops_internals_arm_gcc.h:54-96 | each step of a thread is one step of the atomic specification or none |
| `AtomicOps.Linearizable` | v8/src/atomicops_internals_arm_gcc.h:54-96 | every run of any number of threads reads as a run in which each operation happens at once at its effect |
| `AtomicOps.TakesEffectBetween` | v8/src/atomicops.h:74-94 | whatever a call returns, its operation gives when applied at one moment between the call and the return; what that is says `AtomicOps.StepEffect` |
| `AtomicOps.StepEffect` | v8/src/atomicops.h:74-94 | in every run, at the effect of a load, an exchange or a compare-and-swap the result is what the cell held just before; the cell then holds the stored, exchanged or swapped-in value, the last only if the result is the one expected; an increment returns the sum it leaves; no other step changes the cell |
| `AtomicOps.SwapsApart` | v8/src/atomicops.h:74-85 | with swaps of 0 for 1 and stores of 0 alone, between two swaps that return 0 a store takes effect |
| `AtomicOps.OneOwner` | v8/src/atomicops.h:74-85 | mutual exclusion: when only a thread that owns this lock stores 0, no two threads ever own it |
| `AtomicOps.IncrementsAddUp` | v8/src/atomicops_internals_arm_gcc.h:82-96 | when all increments have returned, the cell has moved by their sum modulo 2^32 |
| `AtomicOps.TicketsDiffer` | v8/src/atomicops_internals_arm_gcc.h:82-96 | in every run, two increments by one return the same number if and only if the increments after the first, up to the second, are a multiple of 2^32, and there is at least one |
| `AtomicOps.ExchangesConserve` | v8/src/atomicops_internals_arm_gcc.h:67-75 | among exchanges every value put in is got back exactly once or is still in the cell |
| `AtomicOps.FailuresArePaidFor` | v8/src/atomicops_internals_arm_gcc.h:54-96 | in every run of n threads, failed exchanges are at most n - 1 for each write and one for each compare-and-swap call |
| `AtomicOps.FailuresAtMost` | v8/src/atomicops_internals_arm_gcc.h:67-96 | with one operation a thread, none a compare-and-swap, at most n(n - 1)/2 exchanges fail |
| `AtomicOps.FailuresReached` | v8/src/atomicops_internals_arm_gcc.h:82-96 | for every n a run of n single increments reaches that number |
| `AtomicOps.AloneFinishes` | v8/src/atomicops_internals_arm_gcc.h:54-96 | a thread left alone has its effect within three accesses, wherever it stands |
| `AtomicOps.SharedCell.NoBarrierCompareAndSwap` | v8/src/atomicops_internals_arm_gcc.h:54-65 | the loop, with others interfering before each access, returns the value that the others left, stores the new one if that is the old one expected and else nothing: what the operation gives at one moment |
| `AtomicOps.SharedCell.NoBarrierAtomicExchange` | v8/src/atomicops_internals_arm_gcc.h:67-75 | the same for the exchange: returns what the others left, and stores the new value |
| `AtomicOps.SharedCell.BarrierAtomicIncrement` | v8/src/atomicops_internals_arm_gcc.h:82-96 | the same for the increment: stores and returns what the others left, plus the increment, modulo 2^32 |
| `StorageRing.PreallocatedStorage.constructor` | v8/src/allocation.cc:117-120 | a new header is a ring by itself |
| `StorageRing.PreallocatedStorage.LinkTo` | v8/src/allocation.cc:103-108 | the header comes right after its argument; this and all other rings are rings, and disjoint |
| `StorageRing.PreallocatedStorage.Unlink` | v8/src/allocation.cc:111-114 | the ring without the header is a ring, the others are as before, the header keeps its own links |
| `StorageRing.RingWith` | v8/src/allocation.cc:103-108 | the four link changes make a circular list with next and previous inverse |
| `StorageRing.RingWithout` | v8/src/allocation.cc:111-114 | the two link changes do |
| `StorageRing.Run` | v8/src/allocation.cc:103-114 | over any legal run of links and unlinks on any rings, all stay disjoint rings |
| `StorageRing.NodesConserved` | v8/src/allocation.cc:103-114 | over any run each header is in at most one ring, once, and its own last move says whether it is in one |
| `StorageRing.LinkThenUnlink` | v8/src/allocation.cc:103-114 | unlinking what was linked gives back all rings as they were |
| `StorageRing.UnlinkThenLink` | v8/src/allocation.cc:103-114 | linking a header again behind its old neighbour gives back the ring, up to where it begins |
| `StorageRing.Isolate.constructor` | v8/src/isolate.cc:186-195 | one free chunk that fills the block |
| `StorageRing.Isolate.FindExact` | v8/src/isolate.cc:207-215 | the walk round the ring finds the first chunk of the size, or there is none |
| `StorageRing.Isolate.FindRoom` | v8/src/isolate.cc:217-220 | the walk finds the first chunk with room for another header |
| `StorageRing.Isolate.New` | v8/src/isolate.cc:198-238 | fails exactly when no chunk is of the rounded size or big enough to be cut; else gives the right one at the right size, with the rest of it free, and all other chunks as they were |
| `StorageRing.Isolate.Cut` | v8/src/isolate.cc:222-232 | the rest of a chunk becomes a free chunk right behind it |
| `StorageRing.Isolate.Delete` | v8/src/isolate.cc:241-255 | a chunk goes to the front of the free ring and out of any place it had |
| `StorageRing.TilesInOrder` | v8/src/isolate.cc:198-238 | chunks lie in order without overlap |
| `StorageRing.Isolate.NoOverlap` | v8/src/isolate.cc:198-238 | two chunks in use never overlap and lie in the block |
| `StorageRing.BytesConserved` | v8/src/isolate.cc:198-255 | chunks and headers always add up to the block |
| `StorageRing.Serve` | v8/src/isolate.cc:198-255 | over any sequence of allocations and deletions: the chunks in use are just those handed out and not given back, each has the size asked for, rounded up, and in an aligned block all chunks stay aligned |
| `StorageRing.GrantsApart` | v8/src/isolate.cc:198-255 | any two chunks that a client holds are different, lie apart and inside the block, and are not free |
| `Utf8Writer.CharRoundTrip` | v8/src/unicode.cc:210-277 | decoding an encoded character gives it back with its length, whatever follows |
| `Utf8Writer.OnlyEncodings` | v8/src/unicode.cc:210-277 | decoding accepts nothing but the shortest encoding; anything else is a bad character of one byte |
| `Utf8Writer.EncodedSize` | v8/src/unicode-inl.h:81-113 | one byte below 0x80, and then the character itself; two below 0x800, three below 0x10000, else four |
| `Utf8Writer.SortOrder` | v8/src/unicode-inl.h:81-103 | encodings sort byte by byte as the characters do |
| `Utf8Writer.TextRoundTrip` | v8/src/unicode-inl.h:81-113 | decoding an encoded text gives it back |
| `Utf8Writer.EncodeInto` | v8/src/unicode-inl.h:81-103 | writes exactly the encoding of a character at a place and nothing else |
| `Utf8Writer.WriteFast` | v8/src/api.cc:3309-3318 | the unchecked loop stays within the capacity and the buffer |
| `Utf8Writer.WriteSlowly` | v8/src/api.cc:3319-3337 | the checked loop stops exactly where the next character does not fit |
| `Utf8Writer.WriteUtf8` | v8/src/api.cc:3288-3342 | writes the encoding of the one longest prefix of whole characters that fits, a terminator if and only if the whole text fitted with a byte to spare, and nothing after that |
| `PowerInt.Round` | v8/src/assembler.cc:918-924 | one round takes the two low bits of the exponent and keeps the product |
| `PowerInt.InversePower` | v8/src/assembler.cc:915-916 | a power of the inverse is the inverse of the power |
| `PowerInt.PowerDoubleInt` | v8/src/assembler.cc:914-926 | the y-fold product of x, or of 1/x for negative y, in at most sixteen rounds, for every 32-bit y |

## Left out

- MinMatchSound: one way only for trees with assertions, lookaheads, back references or possessive
  quantifiers, because such a tree may have no match of its least length; `MinMatchSoundIff` is exact
  for all others.
- NoUnderflowSound: one way, because a product or sum below -2^31 may be wrapped back by a later one.
- NeverHangs: one way, because the parser may stop with an error before it comes to such a colon; at
  the clause itself `ClauseMoves` goes both ways.
- FilteredData: masks without a position mode show the right modes and pcs but may show wrong data;
  `CommentData` is exact for those with comments.
- RoundTrip: function and object literals, regexp literals, `new`, `delete`, `~`, the bitwise
  assignments, `+++` and `---` are no part of the expression alphabet, and of the warnings only those
  about a missing delimiter, an extra comma and a leading decimal point are counted.
- TrailingComma: option.es5 is off.
- RunLed: `+++`, `---` and the bitwise assignments have no left denotation here.
- ParseNext: the alphabet is that of RoundTrip; the texts of the warnings, the style warnings and the
  end of checking after `maxerr` warnings are not modelled.
- CheckDocument: assumes that the lexer gives each token an id and a text that go together, as its
  own comment on `WellLexed` says.
- ExprRead: the same runs as in ProgramRead; operators inside them are not told apart.
- ParseExpression: the same; `PrattParser` has the inside of expressions.
- ProgramRead: object literals, `with` and `debugger` are no part of the programs, which have their
  braces and semicolons in place (`StatementSlips` and `LineEnds` have some that do not); expressions
  are runs of operands and function literals; the inside of an expression is the matter of
  `PrattParser`. Labels are passed but not looked up, and warnings about scope, style, reachability
  and empty blocks are left out; so are those about a function statement in a block, an expression
  statement that is no assignment or call, and a case that is reached without a `break`. Every other
  malformed place is one kind of warning.
- ParseStatement: `use strict`, ADsafe and the bookkeeping of names are not modelled.
- ParseAttributes: attributes of all names pass alike; the checks of event handlers, styles and quotes
  and the errors they end with are left out.
- OpenTag: script and style contents are passed up to the next closing tag, not parsed.
- Html: an error inside a script, a style or an attribute value is no part of its outcome; the same
  holds for Check.
- AcceptsDocuments: errors inside scripts, styles, event handlers and attribute values are no part of
  acceptance, here and in AcceptsTexts. The end of the text is no token of the list (`EndIsLast`), as
  in the lexer's output. The table of elements is a parameter; event handler and style attributes are
  passed like other attributes, and script and style texts up to the next closing tag. ADsafe and the
  checks of attribute values are left out.
- TreesAccepted: in the trees written out, an element that the table calls empty has no content and no
  closing tag, any other has both, and scripts and styles are empty in the table, as in the source's.
- MaxMatchIsLeast: for trees without assertions, lookaheads, back references and possessive
  quantifiers, which may have no match of their greatest length; `MaxMatchSound` is for all trees.
- AnchoredAtStartIff: for the trees named there, and so for AnchoredAtEndIff; elsewhere a tree may
  match at one end only because no other match is possible, and is not reported.
- QuantifierOrder: for repeated text; the order of a tree's matches in general is defined by `Results`.
- Linearizable: memory barriers have no effect here, all accesses are in one order, and the kernel's
  compare-exchange fails only when the value differs. A signed sum that overflows wraps around.
- NoBarrierCompareAndSwap: the other threads stop interfering at some point, so that the loop ends;
  `FailuresArePaidFor` is about runs that need not end.
- CreateHandle: without an open scope, after the failure has been reported, the source goes on to set
  next to the slot after the null one and to store the value through the null slot; the model returns
  no handle and changes nothing. Scope barriers, `HandleScope::CloseAndEscape` and the debug zapping
  of slots are left out; addresses are integers and a slot is one address.
- IterateThis: saved contexts, entered contexts and the archived state of other threads are left out.
- DeleteExtensions: the debug break test is only compared, in `DebugBreakTest`.
- LinkTo: requires that the header is in no ring of more than one, as every caller sees to.
- New: sizes near 2^64, where the rounding wraps around, and the state before the block exists are
  left out; a chunk is given by its header.
- Delete: a null pointer, for which nothing happens, is left out.
- WriteUtf8: the flattening hint and the optional character count are left out; characters are given
  as numbers of at most 21 bits.
- PowerDoubleInt: rounding, infinities and NaN are left out: numbers are reals, and zero has no
  negative power.
- CalculateEmitStore: hash codes and collisions of the tables are left out; a table is a set.
- BuiltIsMeaning: for data properties; getters, setters and `__proto__`, and the order in which
  properties are enumerated, are left out.
- WriteRecords: growing a buffer that is too small belongs to the assemblers and is left out; each
  record asks for kMaxSize bytes of room, as there.
- Type feedback, call target computation and inlining in v8/src/ast.cc: they rest on parts that are
  not self-contained.
- JSLint's lexer, style checks and report, and the shell's own modules: input, output and options.
