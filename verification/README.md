# A verified model of CWEB

CWEB is Knuth and Levy's literate-programming system for C. A *web* file interleaves TeX
and C; CTANGLE extracts the C program from it and CWEAVE produces a typeset document. This
project models the parts of the two programs, and of the code they share, that carry hard
invariants, and proves what they are for.

* **CWEAVE's scrap reducer** (`ScrapGrammar`, `ScrapText`, `ScrapRewrite`,
  `ScrapInvariants`, `ScrapContent`, `ScrapLayout`, `ScrapOutdent`, `ScrapLevels`, `Translate`;
  the table against its documentation in `ScrapDocs`; runs followed to their end in `ScrapTrace`
  and, for statements of any size, in `ScrapSeen`, `ScrapInserts`, `ScrapSteps` and
  `ScrapStatements`; what is left at the end in `ScrapMissed` and `ScrapStops`). C text is a sequence of
  *scraps*, each with a category and a token text that begins and ends in or out of TeX's
  math mode. About 110 productions rewrite the sequence. `ScrapGrammar` is the production
  table; `ScrapRewrite` is rewriting on a list; `Translate` is the code as it is written,
  on one array with a gap, proved to be that rewriting. On the list: every run ends, keeps
  TeX's mode balanced, pairs indents with outdents, and keeps the leaves in order; lists of
  statements of any size come out in a layout given by recursion on the statement; and, in texts
  without preprocessor lines and macro arguments, what is left at the end is irreducible unless
  one of eight productions misses another.
* **CWEAVE's output** (`WeaveOutput`, `WeaveWays`, `MathOutput`): nested texts are flattened with an
  explicit stack, and while a section name is printed, C text in it is translated, printed on
  the same stack and thrown away. What is delivered for a translation is as balanced as the
  translation.
* **The name directory** (`NameOrder`, `NameDirectory`, `NameLookup`): identifiers in hash
  chains, abbreviable section names in a binary search tree and their later pieces in
  chunk chains, all threaded through one `link` field over one byte pool.
* **Reading** (`ChangeFile`, `ChangeMerge`, `ChangeInclude`): the web file, a change file that replaces
  stretches of it, and nested include files.
* **CTANGLE** (`TangleTokens`, `TextChains`, `TangleExpand`, `TangleReference`,
  `TangleProgram`): replacement texts are packed into bytes, linked per section, and expanded
  with an explicit stack, into the C file and the named output files.
* **CWEAVE's index and cross-references** (`Xref`, `IndexSort`), **its lines**
  (`LineBreak`) and **its comments** (`Comment`).

Objects that the programs update in place are classes; each of their methods is proved
against a function on values, and the theorems are about those functions. Pointers are
indices, and an `overflow` that ends the program is a Boolean result.

## Findings

Six promises do not hold of the code as it stands. The model keeps the code; each has a
lemma that shows the failure at an input the program can meet, and one that says when it does
not happen.

* **Productions 84 and 85 lose text.** They replace the text of a `<` or `>` scrap by one
  byte. A comment or other insert next to the bracket has by then been squashed into that
  text and is lost: the translation of `x < /* comment */ y` holds everything but the
  comment (`CommentAfterLessIsLost`). The translation has all the leaves if and only if neither
  production consumes a bracket with something squashed into it (`Conservation`,
  `TranslationIsSound`). That never happens if no insert and no preprocessor line stands
  right before or right after an angle bracket in the input (`BracketsApartLossFree`). The
  last condition is sufficient only, since production 29 turns a bracket after a type into
  a langle with all its text.
* **Production 52 may put outdents inside math.** It appends two of them in whatever mode
  its `fn_decl` scrap ends, and after a parameter declaration in the old style that may be
  math: there are two in the translation of `f int *p; {}` (`OldStyleFunction`). In every
  run the final text has exactly two outdents in math for each time this happens, less those
  that productions 84 and 85 throw away (`OutdentsInMath`, `OutdentsOutside`).
* **Eight productions miss another one.** After a production pp moves back by a distance that
  was determined by hand, so that no production is missed (cweb/cweave.w:2113-2128).
  Production 7 does not move back, though a tag may now stand behind a tag: the two labels of
  `default: out:` are left as two scraps, to which production 74 applies (`LabelsLeft`). The
  same is true of production 13 behind a typedef, 44, 45 and 46 behind a new, 45 behind a
  typedef, 64 and 67 inside a do, and 101 behind an expression. In texts without preprocessor
  lines and macro arguments, with no production left of pp before, none is there after a turn of
  the loop if and only if it was not one of these in its place (`StepExact`). If none is missed
  on the way, no production applies to what is left at the end (`NothingLeft`); this is so for
  all such texts without labels, typedef, new, operator and do (`HarmlessIrreducible`).
* **`underline_xref` may break the order of a list.** It does so exactly when the section
  has no entry and the first entry of an earlier section is not underlined
  (`UnderlineExact`, `UnderlineOutOfOrder`).
* **`get_line` may never return.** Once the end of a file has been met, `input_ln` leaves
  `buffer` as it is, and if the last line has no line end its end is met when it is read. If
  that line is an include in the web file, `get_line` finds it in the buffer again after the
  end and goes back to `restart`. It never returns for a web file that is the one line `@i w`
  without a line end and is itself called `w` (`SelfIncludeLoops`), or one that is an include
  that cannot be opened (`UnopenedNeverReturns`). A call returns if and only if it does not
  read the web file to its end with an include line left in the buffer from which the include
  lines left one after another come round (`HaltsExactly`). If the web file ends with a line
  end, every call returns, however the other files include each other and end
  (`IntactHalts`).
* **An output file whose name is never defined.** `phase_two` starts its text at text_info.
  With unnamed code, the file gets the unnamed program (`UndefinedFileText`); without, the
  loop that writes it never ends (`UndefinedFileLoops`), as in a source whose only code is a
  named section that refers to `@(foo.h@>`. The loop can be entered safely if and only if the
  name was defined or there is unnamed code (`FileRootIsCode`), and the file has just the
  texts of its name if it was defined (`DefinedFileText`).

The table of productions is documented in cweb/prod.w, and the code departs from it in four
places. The translation made by production 61 ends in force, where the document says
break_space. Productions 79 and 80 begin with `inserted`, and 80 ends with the last of its
scraps, both of which the document leaves out. Production 99 does not apply to an operator,
unop or binop that a binop follows. And the rules for the end of a macro argument are not applied
behind semi, raw_int, raw_unorbin, raw_rpar and const_like.

Two limits are worth knowing. A reference to name 10239 would have the two bytes of
`output_defs_flag`; every smaller one is read back, so `max_names`, which is 4000, may be
raised that far (`SecRefBound`). And a quoted stretch of a replacement text is read back if
and only if no delimiter byte is inside it (`DelimiterInside`).

## Model

| member | source | states |
|---|---|---|
| `ScrapGrammar.Match` | cweb/cweave.c:2283-2942 | for every window of four categories the chosen production consumes a real run of 1 to 4 scraps, uses each of them once and in order (or is 84 or 85), lowers the rank of its category if it consumes only one scrap, and makes an insert, a preprocessor mark or an angle bracket only out of one; indents and braces it appends are paired, but for the two indents of a heading and the outdents that undo them. What it puts between its scraps is stated by ScrapDocs |
| `ScrapDocs.DocExp` | cweb/prod.w:54-57 | exp: production 1 applies in just the documented case, and makes the documented category and translation |
| `ScrapDocs.DocExpMore1` | cweb/prod.w:58-59 | exp: productions 2 and 3 apply in just the documented cases, and make the documented category and translation |
| `ScrapDocs.DocExpMore3` | cweb/prod.w:60-61 | exp: productions 4 and 5 apply in just the documented cases, and make the documented category and translation |
| `ScrapDocs.DocExpMore2` | cweb/prod.w:62-62 | exp: production 6 applies in just the documented case, and makes the documented category and translation |
| `ScrapDocs.DocExpMore4` | cweb/prod.w:63-68 | exp: productions 7 and 10 apply in just the documented cases, and make the documented category and translation |
| `ScrapDocs.DocExpBase` | cweb/prod.w:64-67 | exp: productions 8 and 9 apply in just the documented cases, and make the documented category and translation |
| `ScrapDocs.DocLpar1` | cweb/prod.w:69-73 | lpar: productions 11, 12, 13 and 14 apply in just the documented cases, and make the documented category and translation |
| `ScrapDocs.DocLpar2` | cweb/prod.w:74-75 | lpar: production 15 applies in just the documented case, and makes the documented category and translation |
| `ScrapDocs.DocQuestion` | cweb/prod.w:76-76 | question: production 16 applies in just the documented case, and makes the documented category and translation |
| `ScrapDocs.DocUnop` | cweb/prod.w:77-78 | unop: production 17 applies in just the documented case, and makes the documented category and translation |
| `ScrapDocs.DocUnorbinop` | cweb/prod.w:79-81 | unorbinop: productions 18 and 19 apply in just the documented cases, and make the documented category and translation |
| `ScrapDocs.DocBinop` | cweb/prod.w:82-83 | binop: production 20 applies in just the documented case, and makes the documented category and translation |
| `ScrapDocs.DocCast` | cweb/prod.w:84-85 | cast: productions 21 and 22 apply in just the documented cases, and make the documented category and translation |
| `ScrapDocs.DocSizeofLike` | cweb/prod.w:86-87 | sizeof_like: productions 23 and 24 apply in just the documented cases, and make the documented category and translation |
| `ScrapDocs.DocIntLike1` | cweb/prod.w:88-95 | int_like: productions 25, 26 and 27 apply in just the documented cases, and make the documented category and translation |
| `ScrapDocs.DocIntLike2` | cweb/prod.w:93-97 | int_like: productions 27, 28 and 29 apply in just the documented cases, and make the documented category and translation |
| `ScrapDocs.DocIntLike3` | cweb/prod.w:98-102 | int_like: productions 30, 31 and 32 apply in just the documented cases, and make the documented category and translation |
| `ScrapDocs.DocDeclHead1` | cweb/prod.w:103-105 | decl_head: productions 33, 34 and 35 apply in just the documented cases, and make the documented category and translation |
| `ScrapDocs.DocDeclHead2` | cweb/prod.w:106-113 | decl_head: productions 36, 37 and 38 apply in just the documented cases, and make the documented category and translation |
| `ScrapDocs.DocDeclHead3` | cweb/prod.w:114-114 | decl_head: production 39 applies in just the documented case, and makes the documented category and translation |
| `ScrapDocs.DocDecl` | cweb/prod.w:115-118 | decl: productions 40 and 41 apply in just the documented cases, and make the documented category and translation |
| `ScrapDocs.DocTypedefLike` | cweb/prod.w:119-123 | typedef_like: productions 42 and 43 apply in just the documented cases, and make the documented category and translation |
| `ScrapDocs.DocStructLike1` | cweb/prod.w:124-131 | struct_like: productions 44, 45, 46 and 47 apply in just the documented cases, and make the documented category and translation |
| `ScrapDocs.DocStructLike2` | cweb/prod.w:132-133 | struct_like: production 48 applies in just the documented case, and makes the documented category and translation |
| `ScrapDocs.DocStructHead` | cweb/prod.w:134-137 | struct_head: productions 49 and 50 apply in just the documented cases, and make the documented category and translation |
| `ScrapDocs.DocFnDecl` | cweb/prod.w:138-141 | fn_decl: productions 51 and 52 apply in just the documented cases, and make the documented category and translation |
| `ScrapDocs.DocFunction` | cweb/prod.w:142-143 | function: production 53 applies in just the documented case, and makes the documented category and translation |
| `ScrapDocs.DocLbrace` | cweb/prod.w:144-150 | lbrace: productions 54, 55 and 56 apply in just the documented cases, and make the documented category and translation |
| `ScrapDocs.DocDoLike` | cweb/prod.w:174-176 | do_like: production 69 applies in just the documented case, and makes the documented category and translation |
| `ScrapDocs.DocIfLike` | cweb/prod.w:151-151 | if_like: production 57 applies in just the documented case, and makes the documented category and translation |
| `ScrapDocs.DocForLike` | cweb/prod.w:152-152 | for_like: production 58 applies in just the documented case, and makes the documented category and translation |
| `ScrapDocs.DocElseLike` | cweb/prod.w:153-155 | else_like: productions 59 and 60 apply in just the documented cases, and make the documented category and translation |
| `ScrapDocs.DocIfClause` | cweb/prod.w:158-165 | if_clause: productions 62, 63, 64 and 65 apply in just the documented cases, and make the documented category and translation |
| `ScrapDocs.DocIfHead` | cweb/prod.w:166-172 | if_head: productions 66, 67 and 68 apply in just the documented cases, and make the documented category and translation |
| `ScrapDocs.DocElseHead` | cweb/prod.w:156-157 | else_head: production 61 applies in just the documented case, and makes the documented category and translation |
| `ScrapDocs.DocCaseLike` | cweb/prod.w:178-181 | case_like: productions 70, 71, 72 and 73 apply in just the documented cases, and make the documented category and translation |
| `ScrapDocs.DocTag` | cweb/prod.w:182-184 | tag: productions 74 and 75 apply in just the documented cases, and make the documented category and translation |
| `ScrapDocs.DocStmt` | cweb/prod.w:185-188 | stmt: production 76 applies in just the documented case, and makes the documented category and translation |
| `ScrapDocs.DocSemi` | cweb/prod.w:189-189 | semi: production 77 applies in just the documented case, and makes the documented category and translation |
| `ScrapDocs.DocLproc` | cweb/prod.w:190-195 | lproc: productions 78, 79 and 80 apply in just the documented cases, and make the documented category and translation |
| `ScrapDocs.DocSectionScrap` | cweb/prod.w:196-198 | section_scrap: productions 81 and 82 apply in just the documented cases, and make the documented category and translation |
| `ScrapDocs.DocInsert` | cweb/prod.w:199-199 | insert: production 83 applies in just the documented case, and makes the documented category and translation |
| `ScrapDocs.DocPrelangle` | cweb/prod.w:200-200 | prelangle: production 84 applies in just the documented case, and makes the documented category and translation |
| `ScrapDocs.DocPrerangle` | cweb/prod.w:201-201 | prerangle: production 85 applies in just the documented case, and makes the documented category and translation |
| `ScrapDocs.DocLangle` | cweb/prod.w:202-207 | langle: productions 86, 87, 88 and 89 apply in just the documented cases, and make the documented category and translation |
| `ScrapDocs.DocPublicLike` | cweb/prod.w:208-209 | public_like: productions 90 and 91 apply in just the documented cases, and make the documented category and translation |
| `ScrapDocs.DocColcol` | cweb/prod.w:210-210 | colcol: production 92 applies in just the documented case, and makes the documented category and translation |
| `ScrapDocs.DocNewLike1` | cweb/prod.w:211-214 | new_like: productions 93, 94 and 95 apply in just the documented cases, and make the documented category and translation |
| `ScrapDocs.DocNewLike2` | cweb/prod.w:215-215 | new_like: production 96 applies in just the documented case, and makes the documented category and translation |
| `ScrapDocs.DocOperatorLike` | cweb/prod.w:216-220 | operator_like: productions 97, 98 and 99 apply in just the documented cases, and make the documented category and translation |
| `ScrapDocs.DocCatchLike` | cweb/prod.w:221-222 | catch_like: production 100 applies in just the documented case, and makes the documented category and translation |
| `ScrapDocs.DocBase` | cweb/prod.w:223-226 | base: productions 101 and 102 apply in just the documented cases, and make the documented category and translation |
| `ScrapDocs.DocRawRpar` | cweb/prod.w:227-229 | raw_rpar: productions 103 and 104 apply in just the documented cases, and make the documented category and translation |
| `ScrapDocs.DocRawUnorbin` | cweb/prod.w:230-232 | raw_unorbin: productions 105 and 106 apply in just the documented cases, and make the documented category and translation |
| `ScrapDocs.DocConstLike` | cweb/prod.w:233-233 | const_like: production 107 applies in just the documented case, and makes the documented category and translation |
| `ScrapDocs.DocRawInt` | cweb/prod.w:234-235 | raw_int: productions 108 and 109 apply in just the documented cases, and make the documented category and translation |
| `ScrapDocs.DocMatch` | cweb/prod.w:51-53 | macro arguments come first, then inserts at distance one to three, which go into the scrap before them; then the switch decides |
| `ScrapDocs.DocCategory` | cweb/cweave.c:2303-2936 | each category has its own productions, and those not in the switch have none |
| `ScrapText.AppendItemMoves` | cweb/cweave.c:2003-2038 | `big_app` and `big_app1` keep the invariant that the text being built takes TeX from init_mathness to cur_mathness, with maybe_math texts at home in both modes |
| `ScrapText.AppendItemContent` | cweb/cweave.c:2003-2038 | an append adds to the flattened text exactly the leaves of the scrap it appends |
| `ScrapText.FlatFrame` | cweb/cweave.c:2150-2152 | flattening a text looks only at lower-numbered texts, so texts added later do not change it |
| `ScrapRewrite.MakeReservedSame` | cweb/cweave.c:2068-2087 | `make_reserved` changes identifiers only into reserved words of the same name, and categories only from exp to raw_int |
| `ScrapRewrite.MakeReservedDoes` | cweb/cweave.c:2068-2087 | the first identifier of the text becomes a reserved word, and so does that at the beginning of every later exp scrap that begins with it; the scrap becomes raw_int, or shares its first token with an earlier one |
| `ScrapRewrite.FirstIdentOf` | cweb/cweave.c:2043-2066 | `find_first_ident` finds an identifier or reserved word at the beginning of a text, goes into a reference there, and stops at an inserted mark |
| `ScrapRewrite.AppliedScraps` | cweb/cweave.c:2143-2191 | a production replaces its run by one scrap with the text and mathness built; every other scrap stays, up to re-tagging |
| `ScrapRewrite.ApplyProgress` | cweb/cweave.c:2269-2942 | any production makes (scraps left, sum of ranks, scraps right of pp) lexicographically smaller |
| `ScrapRewrite.StepProgress` | cweb/cweave.c:2269-2942 | every pass of the loop does so; hence the reduction of every scrap sequence ends |
| `ScrapInvariants.ApplySealed` | cweb/cweave.c:2143-2191 | a production adds one text, which refers to lower-numbered texts only, and leaves the earlier ones alone |
| `ScrapInvariants.ApplyMoves` | cweb/cweave.c:2003-2038 | every production keeps: each scrap takes TeX from its left mode to its right mode |
| `ScrapInvariants.RunMoves` | cweb/cweave.c:2143-2191 | so does every run of productions, in whatever order they fire |
| `ScrapInvariants.FinishMoves` | cweb/cweave.c:2970-2977 | joining the remaining scraps, with dollars where they begin or end in math, gives a text that starts and ends outside math |
| `ScrapInvariants.MathBalance` | cweb/cweave.c:2970-2977 | for all scraps and all runs the final text starts and ends outside math, yes_math leaves and math tokens lie inside a dollar group, and no_math leaves and layout tokens outside |
| `ScrapLayout.FinalMost` | cweb/cweave.c:2970-2977 | joining the final scraps puts no more such tokens in math than the scraps have, and exactly as many if no scrap that fits both modes has any |
| `ScrapLayout.LayoutInMath` | cweb/cweave.c:2003-2018 | for every kind of token that `big_app` keeps out of math, opt and blanks included: no more of them are in math in the final text of any run than productions have appended with `app` |
| `ScrapOutdent.OutdentsInMath` | cweb/cweave.c:2551-2560 | in every run, the outdents in math in the final text plus those thrown away by productions 84 and 85 are two for each time production 52 meets a fn_decl that ends in math |
| `ScrapOutdent.OutdentsOutside` | cweb/cweave.c:2551-2560 | all outdents are outside math if production 52 never does; and if no insert or preprocessor line was typed beside an angle bracket, only then |
| `ScrapOutdent.TableOutdents` | cweb/cweave.c:2551-2560 | under that condition the text that `translate` returns has exactly the outdents in math that the table's own run puts there |
| `ScrapTrace.RedrawnExact` | cweb/cweave.c:2143-2191 | categories, mathness and number of leaves of the scraps after a production follow from those before it |
| `ScrapTrace.OldStyleFunction` | cweb/cweave.c:2553-2559 | the text that `translate` returns for the scraps of `f int *p; {}` has exactly two outdents in math |
| `ScrapLevels.PairedMarks` | cweb/cweave.c:2295-2942 | in every run from typed scraps, no beginning of the final text has more outdents than indents, or more closing braces than opening ones; without macro arguments all braces are closed, and all indents but two for each heading left without its function |
| `ScrapSeen.RedoneExact` | cweb/cweave.c:2143-2191 | the leaves and marks that a scrap shows after a production follow from the categories and what was shown before |
| `ScrapSeen.FinalSpaced` | cweb/cweave.c:2970-2977 | the final text shows what is left of the scraps, in order, with one blank between any two |
| `ScrapStatements.StatementsLaidOut` | cweb/cweave.c:2265-2942 | for every list of statements, however long and nested (expressions, compound statements, if, else, while and for, do), its scraps and the insert behind them are reduced to one stmt, and the final text shows the layout that the recursion on the statements gives |
| `ScrapStatements.Parse` | cweb/cweave.c:2590-2686 | wherever a statement may stand, the reducer makes of its scraps one stmt with its layout and goes on from the scrap before it |
| `ScrapStatements.BlockOfOne` | cweb/cweave.c:2584-2586 | the final text of `{ x; }` and an insert, mark by mark |
| `ScrapStops.FiredQuiet` | cweb/cweave.w:2113-2128 | a production leaves none that applies left of where the reducer goes on if and only if it is not one of the eight in its place |
| `ScrapStops.StepExact` | cweb/cweave.w:2113-2128 | so does a turn of the loop on the real scraps, wherever comments and other inserts stand among them |
| `ScrapStops.NothingLeft` | cweb/cweave.c:2265-2942 | if no turn misses one, no production applies to what the reduction leaves |
| `ScrapStops.HarmlessIrreducible` | cweb/cweave.c:2265-2942 | so for the scraps of every C text without preprocessor lines, macro arguments, labels, typedef, new, operator and do |
| `ScrapStops.LabelsLeft` | cweb/cweave.c:2320-2323 | for `default: out:` the reduction leaves two tags, to which production 74 applies |
| `ScrapContent.ApplyContent` | cweb/cweave.c:2786-2800 | only productions 84 and 85 change the leaf sequence, each putting one bracket for the scrap at pp |
| `ScrapContent.Conservation` | cweb/cweave.c:2143-2239 | a run never adds leaves; it keeps their number if and only if no bracket with something squashed into it is consumed, and then they come out in order, at most brackets replaced |
| `ScrapContent.ApplyUnmixed` | cweb/cweave.c:2298-2302 | every production keeps angle brackets apart from inserts and preprocessor lines, and so the leaves they were typed as |
| `ScrapContent.BracketsApartLossFree` | cweb/cweave.c:2778-2800 | if no insert or preprocessor line stands beside an angle bracket, no run loses a leaf |
| `ScrapContent.LeavesConserved` | cweb/cweave.c:2970-2977 | the same from the typed scraps to the final text |
| `ScrapTrace.CommentAfterLessIsLost` | cweb/cweave.c:2778-2800 | the text that `translate` returns for exp, prelangle, insert, exp and the final insert holds everything but the first insert |
| `ScrapContent.ReducedIsRun` | cweb/cweave.c:2265-2942 | the reduction CWEAVE performs is such a run, following the table at each step, to the end |
| `ScrapContent.TableKeepsAll` | cweb/cweave.c:2265-2942 | whether it loses leaves is decided by the scraps and the table alone |
| `Translate.Weaver.BigApp` | cweb/cweave.c:2003-2018 | the code of `big_app` does to tok_mem and the mathnesses what the specification says |
| `Translate.Weaver.BigApp1` | cweb/cweave.c:2020-2038 | likewise `big_app1` |
| `Translate.Weaver.Gather` | cweb/cweave.c:2269-2279 | moving scraps over the gap leaves the list they denote alone, and pp..pp+3 then show its next four categories, padded with 0 |
| `Translate.Weaver.Reduce` | cweb/cweave.c:2143-2191 | in place, the k scraps at j of the denoted list become the new one |
| `Translate.Weaver.MakeReserved` | cweb/cweave.c:2068-2087 | the loop that walks over the gap is `make_reserved` on the list |
| `Translate.Weaver.Produce` | cweb/cweave.c:2143-2239 | one production in place is one production on the list |
| `Translate.Weaver.Pass` | cweb/cweave.c:2265-2942 | one pass of the loop is one step of the list rewriting, or pp is at its end |
| `Translate.Weaver.ReduceAll` | cweb/cweave.c:2265-2942 | the loop ends with the fully reduced list |
| `Translate.Weaver.Translate` | cweb/cweave.c:2244-2980 | `translate` returns the text that joins the reduced scraps |
| `MathOutput.OutputFlattens` | cweb/cweave.c:3318-3340 | the tokens delivered for a text are its flattening with each leaf replaced by the tokens delivered for the leaf |
| `MathOutput.OutputModes` | cweb/cweave.c:3318-3340 | if the leaves leave the mode as it is, TeX's mode after what is delivered is the mode after the flattened text |
| `MathOutput.TranslationDelivered` | cweb/cweave.c:2970-2977 | so what is delivered for the text returned by `translate` ends outside math, and each part of the text is delivered in the mode in which the balanced flattening has it |
| `Translate.TranslationIsSound` | cweb/cweave.c:2244-2980 | that text is balanced and refers downwards; it has a leaf for each scrap if and only if no bracket swallowed some, and then all in order; and none does if brackets are apart from inserts |
| `WeaveOutput.Output.PushLevel` | cweb/cweave.c:3290-3306 | enters a text, unless the stack is full |
| `WeaveOutput.Output.PopLevel` | cweb/cweave.c:3308-3316 | restores the level below, position and mode |
| `WeaveOutput.Output.GetOutput` | cweb/cweave.c:3318-3340 | delivers the next token of the recursive expansion, in its mode; overflows only if the nesting does not fit the stack; never touches suspended levels |
| `WeaveOutput.Output.Deliver` | cweb/cweave.c:3377-3382 | each turn of the loop gets the next own token, in its mode, until end_translation |
| `WeaveOutput.Output.MakeOutput` | cweb/cweave.c:3363-3382 | with any calls of `output_C` between its tokens, it delivers its own recursive expansion undisturbed, with what each call delivers in place, if and only if the stack is high enough for all of them |
| `WeaveOutput.Resumed` | cweb/cweave.c:3342-3358 | a used-up level on top changes nothing that is pending, nor whether it fits |
| `WeaveOutput.InterleaveNone` | cweb/cweave.c:3363-3382 | without calls exactly the own tokens are delivered |
| `WeaveOutput.Output.OutputC` | cweb/cweave.c:3342-3358 | the added texts are delivered in inner mode, further calls included, and forgotten; the suspended levels are there again under one used-up level, in the mode they had |
| `WeaveWays.DeliveredExactly` | cweb/cweave.c:3290-3340 | a token is delivered if and only if a way of references leads to it; in inner mode if one of them is an inner one, otherwise in the mode of the list, and as many levels up as there are references |
| `WeaveWays.ReferenceInPlace` | cweb/cweave.c:3318-3340 | a reference stands for its text, between what is before and what is behind it |
| `WeaveOutput.ExpandFrame` | cweb/cweave.c:3318-3340 | expansion depends only on the lower-numbered texts, so discarding later ones is safe |
| `NameOrder.CompareMeaning` | cweb/common.c:798-809 | what each of the five results of `web_strcmp` says about the two names; they exclude each other |
| `NameOrder.HitsOneSide` | cweb/common.c:891-915 | in an ordered tree, an incomparable key sends all matches to one side |
| `NameOrder.OrderedIncomparable` | cweb/common.c:814-840 | the keys of an ordered tree are pairwise incomparable |
| `NameOrder.InsertOrdered` | cweb/common.c:814-840 | hanging a name that matches nothing into its slot keeps the tree ordered |
| `NameOrder.ShortenOrdered` | cweb/common.c:920-937 | so does shortening a key in place to a name that matches only it |
| `NameDirectory.WithIdInv` | cweb/common.c:687-736 | adding an identifier keeps hash chains, tree and chunk chains disjoint and intact in the shared directory |
| `NameDirectory.WithSecInv` | cweb/common.c:814-840 | so does adding a section name |
| `NameDirectory.WithChunkInv` | cweb/common.c:845-864 | so does adding a chunk, and it extends the text of that name alone |
| `NameDirectory.WithKeyInv` | cweb/common.c:920-937 | so does shortening a key |
| `NameLookup.Directory.IdLookup` | cweb/common.c:687-736 | returns the entry with this text, a new one if and only if there was none; no stored name changes |
| `NameLookup.IdsStable` | cweb/ctangle.c:478-485 | entries found at different times are the same if and only if their texts are |
| `NameLookup.Directory.Perform` | cweb/common.c:687-937 | any history of lookups of both kinds keeps the directory valid and every identifier its entry; every known section name stays and grows at its end only, and a finished one never changes |
| `NameLookup.Directory.LookupTwice` | cweb/common.c:687-736 | two calls of `id_lookup`, with any lookups between them, return the same entry if and only if they are given the same text |
| `NameLookup.Directory.Search` | cweb/common.c:891-915 | the tree search finds none, one or two matching keys exactly as a scan over all keys would, and the slot for a new name |
| `NameLookup.Directory.SectionNameCmp` | cweb/common.c:962-991 | the walk over the chunks compares the name with everything known of the stored one |
| `NameLookup.Directory.SprintSectionName` | cweb/common.c:762-780 | gives exactly the known text |
| `NameLookup.Directory.AddSectionName` | cweb/common.c:814-840 | enters the name with its header, chunk and dummy entry |
| `NameLookup.Directory.ExtendSectionName` | cweb/common.c:845-864 | appends to an unfinished name and to nothing else |
| `NameLookup.Directory.Settle` | cweb/common.c:920-937 | the final case analysis does to the known name what ResolveExact describes, and if it is fine the section now means this name |
| `NameLookup.ResolveExact` | cweb/common.c:920-937 | each diagnostic exactly: is a prefix if and only if a full name is a proper prefix of what is known; extends if and only if the known name is finished and a proper prefix; incompatible if and only if neither is a prefix of the other; fine for the known text, for abbreviations of it, and for longer names while it is unfinished. Fine leaves the shorter of key and name as the key and the longer text as known; otherwise nothing changes |
| `NameLookup.Directory.SectionLookup` | cweb/common.c:869-937 | a name comparable with no key is entered; with two it is ambiguous and nothing changes; with one, that section is meant and learns what the name adds |
| `NameLookup.Directory.SectionTwice` | cweb/common.c:869-937 | after a fine lookup and any others, the name or a longer one finds the same section and is never entered or ambiguous; the same lookup is fine again; two full names that are fine mean the same section if and only if they are the same |
| `ChangeFile.Input.PrimeTheChangeBuffer` | cweb/common.c:388-438 | skips to the line after the next @x that is not blank |
| `ChangeFile.Input.CheckChange` | cweb/common.c:443-507 | passes over the lines to be matched in both files |
| `ChangeFile.PassDrops` | cweb/common.c:542-605 | every pass of `get_line` comes to the end of the web file or lowers a measure that weighs the lines left at each include depth and in the change file |
| `ChangeFile.ReachDrops` | cweb/common.c:542-667 | so a call gets to a line that is not an include, or to the end of the web file with an include line left; each line delivered lowers the measure, so only finitely many are |
| `ChangeFile.VisitRuns` | cweb/common.c:582-667 | behind the end of the web file, the turns that read an include file to its end, files included by it first, come to what that file leaves in the buffer |
| `ChangeFile.HaltsExactly` | cweb/common.c:542-667 | a call returns if and only if it does not get to the end of the web file with an include line left in the buffer, from which the include lines left one after another come round |
| `ChangeFile.IntactHalts` | cweb/common.c:366-383 | if the web file ends with a line end, every call returns, whatever files include each other and however they end |
| `ChangeFile.SelfIncludeLoops` | cweb/common.c:608-667 | for a web file `@i w` called w, without a line end, the first call comes back to the state it was in and never returns |
| `ChangeFile.UnopenedNeverReturns` | cweb/common.c:608-667 | nor does it for a web file that is one include line that cannot be opened, without a line end |
| `ChangeFile.Input.TakeTurn` | cweb/common.c:542-667 | the code between two restarts is one turn of that function, on every input, include stack of depth 10 and missing files included |
| `ChangeFile.Input.GetLine` | cweb/common.c:542-667 | the calls that return do so in the state those turns lead to, and tell whether the input has ended |
| `ChangeMerge.SwallowMatched` | cweb/common.c:443-507 | the matched part is passed over in both files, or the web file ends first |
| `ChangeMerge.MergeCorrect` | cweb/common.c:542-605 | from any point between changes, the lines delivered are the web file with each block's span replaced, blocks in order; change_buffer is left with the first line of the first unmatched block, or the line at which the web file ended inside a span |
| `ChangeMerge.MergeFromStart` | cweb/common.c:388-682 | the same from the start, on the lines of the files themselves, for every web file without includes and every well-formed change file, with or without a line end after their last lines |
| `ChangeMerge.CodeMeans` | cweb/common.c:395-406 | a line is a change code exactly if it begins with an at sign and the letter, large or small |
| `ChangeMerge.LoweredMeans` | cweb/common.c:562-565 | a line of the change file is delivered as it is, but for the case of the letter behind an at sign at its beginning |
| `ChangeMerge.ReadToEnd` | cweb/common.c:512-682 | the lines read until the input ends are the lines that calls of `get_line` deliver, and then `check_complete` |
| `ChangeMerge.ReadAll` | cweb/common.c:512-682 | on every input on which the calls return, the routines run to the end deliver those lines, and `check_complete` complains if and only if a block was never matched or the web file ended inside a span before a line that is not blank |
| `ChangeInclude.NameMeans` | cweb/common.c:606-631 | the name of an include line is the word behind the code, with or without quotes |
| `ChangeInclude.IncludesExpand` | cweb/common.c:542-667 | with no change matching and all files ending in line ends, what is still to be delivered from any point is the expansion of what is left of the open files |
| `ChangeInclude.IncludesFromStart` | cweb/common.c:512-667 | from the start that is the web file with each include line replaced by the expansion of the file it names, down to depth 10, and by nothing if that cannot be opened |
| `ChangeInclude.ReadIncluded` | cweb/common.c:512-667 | and the routines run to the end deliver just these lines |
| `TangleTokens.TwoByteRoundTrip` | cweb/ctangle.c:558-587 | the lead bytes of identifiers, section names and section numbers do not overlap, and the two bytes are read back |
| `TangleTokens.ItemRoundTrip` | cweb/ctangle.c:1209-1281 | each stored item is read back, whatever follows |
| `TangleTokens.RoundTrip` | cweb/ctangle.c:502-509 | every stored replacement text is split back into its items |
| `TangleTokens.SecRefBound` | cweb/ctangle.c:558-587 | a section reference is read back if and only if its name is below 10239 |
| `TangleTokens.DelimiterInside` | cweb/ctangle.c:803-808 | a quoted stretch is read back if and only if no delimiter is inside |
| `TangleTokens.DecodeText` | cweb/ctangle.c:547-589 | the loop over the bytes computes the decoding |
| `TextChains.Linker.AddMacro` | cweb/ctangle.c:1404-1405 | records a macro text |
| `TextChains.Linker.AddCode` | cweb/ctangle.c:1446-1460 | links a text behind the last one of its name |
| `TextChains.ChainExact` | cweb/ctangle.c:1446-1460 | the chain from a text is that text and the later ones of its name, in order, ending in section_flag |
| `TextChains.ChainsExact` | cweb/ctangle.c:682-717 | after any history every name's chain lists exactly its texts with strictly increasing indices and ends in section_flag, and link 0 marks exactly the macros |
| `TextChains.ChainsDisjoint` | cweb/ctangle.c:1446-1460 | chains of different names share no text |
| `TangleExpand.Expander.PushLevel` | cweb/ctangle.c:514-528 | enters a section, unless the stack is full |
| `TangleExpand.Expander.PopLevel` | cweb/ctangle.c:531-544 | goes on to the next text of the name, or back |
| `TangleExpand.Expander.GetOutput` | cweb/ctangle.c:547-589 | what is written and what is still to come stay the same together |
| `TangleExpand.Expander.ExpandAll` | cweb/ctangle.c:609-670 | the loop adds to the output the recursive expansion of the root, complete or up to the overflow; it halts for every reference graph |
| `TangleExpand.OverflowExactly` | cweb/ctangle.c:514-528 | the stack overflows if and only if references nest deeper than there is room |
| `TangleExpand.RoomIrrelevant` | cweb/ctangle.c:514-528 | a complete expansion does not depend on the room |
| `TangleExpand.AcyclicFits` | cweb/ctangle.c:514-528 | without cycles a stack as high as the nesting is enough |
| `TangleExpand.SelfReferenceOverflows` | cweb/ctangle.c:514-528 | a section that refers to itself overflows every stack |
| `TangleExpand.WellNested` | cweb/ctangle.c:531-544 | opening and closing section marks are well nested in every complete expansion |
| `TangleExpand.ExpandIsSubstitution` | cweb/ctangle.c:547-589 | for acyclic references that fit the stack, expansion is substitution |
| `TangleReference.OneReference` | cweb/ctangle.c:531-589 | a reference to a name with two texts gives the tokens of both in its place, each between its marks |
| `TangleProgram.MacrosInFront` | cweb/ctangle.c:609-640 | without @h the macros are first and the code follows; with @h they are not in front |
| `TangleProgram.LinkedTablesValid` | cweb/ctangle.c:1446-1460 | after any history of sections the tables of phase one are fit for expansion |
| `TangleProgram.StoredTextOk` | cweb/ctangle.c:1209-1281 | the bytes of a text are read back as the tokens that were stored, and are fit for expansion |
| `TangleProgram.FileRootIsCode` | cweb/ctangle.c:654-668 | an output file starts with a text that can be expanded if and only if its name was defined or there is unnamed code |
| `TangleProgram.UndefinedFileLoops` | cweb/ctangle.c:654-668 | otherwise the loop that writes it stays in the empty text 0 for ever |
| `TangleProgram.UndefinedFileText` | cweb/ctangle.c:654-668 | a file that was not defined gets the unnamed code, if there is some |
| `TangleProgram.DefinedFileText` | cweb/ctangle.c:654-668 | a file that was defined gets just its own texts, whatever was written before |
| `TangleProgram.WriteProgram` | cweb/ctangle.c:609-670 | so, given the bytes of the texts after any history of sections, the C file is the macros, unless @h was seen, and the recursive expansion of the unnamed code; and each output file is the expansion of its own text, in order, up to an overflow if there is one |
| `IndexSort.SameFolded` | cweb/cweave.c:886-911 | equal collating ranks mean equal names up to case |
| `IndexSort.LessMeans` | cweb/cweave.c:886-911 | a name is before another exactly if at the first byte where they differ after folding it has ended, or the byte is in an earlier class (blank, control codes, other signs, underscore, letters, digits, bytes above 127), or of the same class and smaller |
| `IndexSort.SortedMeans` | cweb/cweave.c:886-911 | a sorted index has its names in that order |
| `IndexSort.LettersInOrder` | cweb/cweave.c:886-911 | for names of letters that is the lexicographic order of the folded names |
| `IndexSort.GroupsContiguous` | cweb/cweave.c:4139-4154 | in the sorted index, names that are equal up to case form one group |
| `IndexSort.SpreadInOrder` | cweb/cweave.c:4085-4099 | spreading the top entry over the buckets keeps everything in order |
| `IndexSort.Sorter.PutIn` | cweb/cweave.c:4096-4096 | linking a name into its bucket keeps all lists apart |
| `IndexSort.Sorter.Unbucket` | cweb/cweave.c:4139-4154 | turns the buckets into stack entries, in order, each a group at its depth |
| `IndexSort.Sorter.FirstPass` | cweb/cweave.c:3980-3994 | every name with references is in the bucket of its first byte |
| `IndexSort.Sorter.WriteTop` | cweb/cweave.c:4008-4078 | the names of the top entry are written and are the same up to case |
| `IndexSort.Sorter.SpreadTop` | cweb/cweave.c:4085-4099 | the names of the top entry go to the buckets of their next byte |
| `IndexSort.Sorter.Sort` | cweb/cweave.c:3980-4104 | the sort ends; each name with references is written exactly once and no other; of any two the first is the earlier in the order of LessMeans, or they are the same up to case |
| `Xref.AddRefForm` | cweb/cweave.c:1009-1026 | after `new_xref` the list has one entry for the section, underlined if either reference is, before the unchanged earlier ones |
| `Xref.AddRefDescending` | cweb/cweave.c:1009-1026 | identifier lists stay strictly decreasing with one entry per section |
| `Xref.AddSectionRefShaped` | cweb/cweave.c:1031-1045 | section lists stay file flag, definitions, citations, uses, each group strictly increasing |
| `Xref.AddSectionRefHas` | cweb/cweave.c:1031-1045 | the new entry is there, with the old ones and no others |
| `Xref.AddFileFlagShaped` | cweb/cweave.c:1050-1060 | `set_file_flag` keeps that shape |
| `Xref.AddFileFlagHas` | cweb/cweave.c:1050-1060 | the flag is in front, with the old entries and no others |
| `Xref.UnderlineExact` | cweb/cweave.c:2107-2138 | `underline_xref` is ordered insertion, and keeps the list in order, if and only if the section has an entry or the first earlier entry, if any, is underlined |
| `Xref.UnderlineFits` | cweb/cweave.c:2107-2138 | in particular if the section is present or all entries are underlined |
| `Xref.UnderlineOutOfOrder` | cweb/cweave.c:2107-2138 | a list on which it puts section 5 behind section 3 |
| `Xref.UnderlinedDescending` | cweb/cweave.c:1554-1560 | dropping the entries that are not underlined keeps exactly the others, in order |
| `Xref.Memory.NewXref` | cweb/cweave.c:1009-1026 | `new_xref` on the shared memory does that to one list and leaves all others alone |
| `Xref.Memory.NewSectionXref` | cweb/cweave.c:1031-1045 | likewise |
| `Xref.Memory.SetFileFlag` | cweb/cweave.c:1050-1060 | likewise |
| `Xref.Memory.InsertShifting` | cweb/cweave.c:2129-2133 | a new front entry and shifted numbers amount to insertion at the place found |
| `Xref.Memory.UnderlineXref` | cweb/cweave.c:2107-2138 | `underline_xref` on the shared memory |
| `Xref.Memory.DropPlain` | cweb/cweave.c:1554-1560 | only the underlined entries of an unindexed identifier stay |
| `Xref.Memory.CheckSection` | cweb/cweave.c:1676-1693 | reports never defined if and only if there is no definition, never used if and only if there is neither use nor file flag |
| `LineBreak.Output.FlushBuffer` | cweb/cweave.c:1701-1719 | writes one line and keeps the rest of the buffer |
| `LineBreak.Output.BreakOut` | cweb/cweave.c:1749-1775 | a full buffer is broken behind its last blank or in front of its last backslash that is not behind another, and only without one before its last character; no control word is split, the line is at most 80 characters long, and TeX reads the same |
| `LineBreak.Output.Out` | cweb/cweave.c:183-183 | the lines read back, and the buffer, are what was sent, up to runs of blanks |
| `LineBreak.Output.FinishLine` | cweb/cweave.c:1724-1734 | the same for line ends that are asked for |
| `LineBreak.NoWordSplit` | cweb/cweave.c:1749-1775 | a break at such a place splits no control word |
| `LineBreak.BreakAtBlank` | cweb/cweave.c:1707-1711 | blanks dropped at a line end count as the blank the line end stands for |
| `Comment.CopyReads` | cweb/cweave.c:1858-1931 | the input read is a sequence of doubled at signs, escaped and plain characters, and the tokens are just these, less unmatched closing braces, and then the braces that close; the copy stops at the first end of the comment, or bar, that is not escaped |
| `Comment.UnitsAreRead` | cweb/cweave.c:1858-1931 | conversely, of an input written as such a sequence just the sequence is read |
| `Comment.CopyBalanced` | cweb/cweave.c:1858-1931 | whatever the input, `copy_comment` keeps braces balanced at the level it returns, error exits included |
| `Comment.CommentBalanced` | cweb/cweave.c:3253-3282 | the braces of a comment with its opening form exactly one group, if and only if its C texts end with a bar |
| `Comment.Copier.CopyComment` | cweb/cweave.c:1858-1931 | the code is that function; phases one and two read the same characters and return the same level |
| `Comment.Copier.WholeComment` | cweb/cweave.c:3253-3282 | the comment part of `outer_parse` writes that text |

## Left out

- Lexing (both `get_next`, limbo and TeX copying), file opening, options, messages and statistics: the model starts from scraps, items, events and lines.
- Array capacities other than the output stacks, the include stack and the number of sections; reading one token past the end of tok_mem counts as no match.
- The 16-bit packing of token codes and mathness is unpacked into datatypes; leaf texts are opaque.
- The calls of `make_underlined` inside productions, which touch only cross-reference lists, and the `ilk` that `make_reserved` changes.
- CWEAVE's variant of `names_match`, which also compares kinds.
- The layout that `make_output` chooses for indent, force and cancel codes.
- How the bytes of CTANGLE's output are spaced and broken into lines (`out_char`), and marking of changed sections.
- Whether a section reference counts as a use or a citation: the switch is not reset when an entry is already there.
- The reversal of identifier lists while the index is written.
- ScrapLayout.LayoutInMath: gives an upper bound; whether an opt in a maybe_math scrap ends up in math depends on where the scrap is used later.
- ScrapStops.StepExact: for lists without preprocessor lines and ends of macro arguments; that an insert may be taken up by the scrap before it is not counted as a production that applies, but none is left at the end.
- ScrapStops.HarmlessIrreducible: sufficient only; StepExact says turn by turn when a production is missed.
- ScrapStatements.StatementsLaidOut: statements of operands, binary operators, parenthesised conditions, braces, if, else, while, for and do; not declarations, labels, calls and casts. It shows leaves and marks, less the dollars and empty braces with which math begins and ends, which MathBalance is about.
- ScrapInvariants.MathBalance: layout tokens are big_cancel, cancel, indent, backup, break_space, force and big_force; outdents are counted by OutdentsInMath, and LayoutInMath bounds opt and blanks, which several productions append inside math on purpose.
- NameLookup.Directory.SectionLookup: covers abbreviations that are not empty and full names that do not end in a blank, as the scanner gives them, and names shorter than 65536 bytes; bytes compare as unsigned.
- ChangeMerge.MergeCorrect: covers web files without includes; a line of the change file that starts with an at sign is delivered with its code letter in lower case, as the code does.
- ChangeMerge.ReadAll: requires that the calls return; `IntactAllHalt` gives that for every web file that ends with a line end.
- ChangeFile.Input.GetLine: stated for calls that return; `HaltsExactly` says which do, and TakeTurn covers the others.
- ScrapTrace.RedrawnExact: leaves out productions 42, 45 and 46, which call `make_reserved`: which other scraps that relabels depends on their texts, which an outline does not hold.
- TangleExpand.Expander.ExpandAll: the macros that `output_defs` prints are one block.
- TangleProgram.WriteProgram: the names of the output files are given in the order in which they were first mentioned, and whether @h was seen; requires that each was defined or there is unnamed code, without which the source loops (`UndefinedFileLoops`); the line end after each file is left out.
- IndexSort.Sorter.Sort: names in the index have 1 to 254 bytes without NUL and DEL; the identifiers are given in the order of the hash lists, each once; the stack is high enough.
- WeaveOutput.Output.MakeOutput: which calls of `output_C` are made, and the texts they add, are given; the characters written for a token are not modelled.
- LineBreak.Output.Out: text without per cent signs, so the carrying over of a comment to the next line does not arise; what the reading ignores is how many blanks stand together.
- Xref.Memory.UnderlineXref: claims the order of its result only through UnderlineExact.
- Comment.Copier.WholeComment: the C text between bars is one opaque token, and each call of `copy_comment` is given the input it finds.
