# sysload: a model of its decision procedures, with proofs

sysload is a second-stage boot loader for Linux on System z. It parses a
configuration file, starts user interface processes, waits for one of them to
choose a boot entry (or for a timeout), fetches kernel, initrd and parameter
file, and calls kexec. This project models the parts of it that decide
something, and proves what they guarantee.

* **Boot maps** (`BlockPointer`, `SegmentChain`, `SegmentWalk`, `BootMapBoot`):
  packed disk pointers, the null test on the unpacked union, cylinder/head/sector
  addresses, the read loop with its short reads, and the walk through a chain of
  segment tables. `CopyComponentToMemory` is an imperative walk over arrays; it is
  proved against a description of a component that knows nothing about slots and
  loops: flatten the chain of tables, cut at the first pointer that tests as null.
* **The configuration language** (`ConfigLanguage`, `ConfigGrammar`, `ConfigParser`,
  `ConfigText`, `IncludeScanner`): the grammar from tokens to a tree with nested
  sections; the semantic actions with their two counters, as a class that updates its
  fields, against an evaluator that walks the tree, and that against deleting all
  sections whose condition is false; the include stack against recursive inlining.
* **Boot entries as text** (`BootEntryScanner`, `BootEntryText`, `BootEntryRoundTrip`,
  `BootEntryClosure`, `BootEntryCut`, `BootEntrySplit`, `BootEntryIncludes`): the modal
  longest-match scanner with its complete list of rules and its include files, and the
  printer. Printing and parsing again is the identity up to stated fields; every entry of
  every configuration text satisfies the hypotheses; and it is stated exactly for which
  entries the beginning of a printed entry can be taken for another entry.
* **From one text to the next** (`ScannerState`, `ScannerCarry`, `BootEntryNext`): what a
  text leaves in the scanner, which nothing resets, and when that costs the next entry.
* **The environment hand-over** (`Decimal`, `Environment`): flattening a
  configuration into numbered variables and reading it back.
* **The controller of the user interfaces** (`UiControl`, `UiRuns`, `UiAnswers`,
  `UiChances`, `UiChancePlan`, `UiChanceSteps`, `UiChanceRuns`, `UiChanceTexts`,
  `UiTexts`): a state machine with an adversarial environment (clients that write and
  exit, signals, the alarm), a class that performs its steps, theorems over all runs, and
  the exact conditions under which a SIGUSR1 stops the clock, under which a given client
  can still give the answer, under which sysload waits forever, and under which an answer
  is all that was written.
* **The whole way of a boot entry** (`MenuChoice`): from the text of the configuration to
  the menu of a user interface, and from what it prints to what the loader gets.
* **The ramdisk** (`RamdiskClosure`): the two work lists that grow while they are
  processed compute least closed sets, over any cyclic dependency graph.
* **URIs** (`Uri`, `CText`, `CompLoad`): scheme recognition and splitting against
  RFC 3986 (section 3.1, section 5.3 and Appendix B), and draining a loader
  module's output.

Results worth knowing, in the terms of the program:

* On ECKD disks a pointer to the first track tests as null although it is valid,
  on FBA disks a pointer to block 0 (`BlockPointer.AcceptedNull`).
* An initrd length of -1 is not noticed as an error; the initrd file stays empty
  (`BootMapBoot.ReadInitrdComponent`).
* The result of `identify_boot_objects` is dropped, and yet no boot follows a
  failure (`BootMapBoot.BootBootmapDisk`).
* The 32-bit address arithmetic is safe exactly for geometries of at most
  2147483647 blocks (`BlockPointer.ChsOverflow`).
* The component table is read beyond its block; the memory there decides nothing exactly
  if the table has an executable entry (`BootMapBoot.BehindIrrelevant`).
* A timeout statement in a section whose condition is false is not ignored: it
  resets the timeout (`ConfigLanguage.LastTimeoutDecides`,
  `ConfigLanguage.PruningIsExact`).
* 998 is the number of nested active sections the counters can tell apart
  (`ConfigLanguage.BeyondTheCap`).
* Lists of uuid tests never match: the uuid of the machine is not looked up, the
  test yields its own argument (`ConfigLanguage.UuidNeverMatches`). The design
  document promises such a test.
* `lock` and `pause` do not survive the choice of a boot entry, the action is
  recomputed, and `PrintParseExact` states when nothing is lost.
* The design document says that the timeout is disabled as soon as SIGUSR1 is received.
  That is so exactly if no timeout is left (there is none any more, or the call has
  failed already), or if no alarm is pending and either the main loop is about to look at
  the signal, or it waits for nobody (`UiRuns.Usr1StopsClock` states it for every state in
  which the signal can arrive). While the alarm is pending it can still fire before the
  main loop looks, and the default entry is booted. Once the main loop has handled a
  SIGUSR1, the clock is off for good (`UiControl.NoTimeoutAfterUsr1`).
* An alarm that fires between alarm() and select() is lost: although there is a timeout,
  only input or a signal ends the wait then (`UiRuns.AlarmIsLost`).
* Whether a client can still give the answer depends on the parser, on what was collected
  from it, on its pipe being looked at in this round, and on what the texts of the others
  leave in the scanner. `UiChances.CanAnswer` says how: after the pipes of this round the
  clients end by a schedule, ordered by rounds and descriptors, in which all texts but the
  last are rejected. `UiChanceRuns.AnswersExactly` proves it exact for every parser, every
  state of the main loop and every client. sysload waits forever exactly if no timeout can
  happen and no client can answer (`UiChanceRuns.WaitsForeverExactly`). It gets there if
  all user interfaces end with a problem (`UiAnswers.ProblemsDesert`), if one of them
  wrote a valid entry and ended with success while another one was served
  (`UiAnswers.AnswerOverlooked`), and if the only one is still running but began with a
  closing brace (`MenuChoice.BraceWaitsForever`).
* An answer is the parse of some beginning of what a client wrote, and every beginning
  can be the one. So it is the parse of the whole text in every run if and only if all
  beginnings that parse at all parse to the same (`UiTexts.AnswerIsComplete`).
* For a printed boot entry this is the case if and only if no bracket of a URI contains,
  behind a line end, what ends an entry that is another one
  (`BootEntrySplit.NoOtherEntryExactly`). The scanner accepts such values
  (`BootEntryIncludes.LineEndMatters`); an include statement in a bracket counts like the
  rest of its lines, whether it is ignored (`BootEntryIncludes.IgnoredIncludeMatters`) or
  brings in a file (`BootEntryIncludes.IncludeMatters`). Values without a line end are
  harmless, and so are values without a closing brace if no file has one
  (`BootEntrySplit.HarmlessValue`).
* The start condition of the scanner and its stack of include files are not reset before
  the next text. A printed entry is lost if and only if the text before it left another
  condition than INITIAL, such as one that ends in a title; a wrong entry is never booted
  in its place (`BootEntryNext.NextEntryExactly`, `BootEntryNext.HalfTitleLosesNext`,
  `BootEntryNext.OtherModeRejects`). A file that is still suspended after a syntax error
  is read as the end of the next text, and then the wrong entry can be booted
  (`BootEntryNext.SuspendedFileIsRead`).
* `parse_sysload_boot_entry` does not set the arguments of its context: a text with a
  timeout, setup, network or exec statement, or an active userinterface statement, makes
  sysload crash (`ConfigText.ParseBootEntry`).
* `prefix_root` is idempotent exactly for roots that have a scheme
  (`Uri.IdempotentIffScheme`); the shell template loses the difference between an
  empty and an undefined URI component (`Uri.RejoinExact`).

`dafny verify dfyconfig.toml` checks the whole project.

## Model

| member | source | states |
|---|---|---|
| BlockPointer.UnpackPack | core/bootmap_common.c:331-367 | decoding the packed form of a pointer gives the pointer back, for every disk type and all field values of the packed widths |
| BlockPointer.PackUnpack | core/bootmap_common.c:331-367 | decoding loses nothing but the four reserved SCSI bytes: every raw slot is the packed form of what it decodes to |
| BlockPointer.UnionPrefixZero | core/bootmap_common.c:306-322 | the byte loop over the first 8 or 16 bytes of the union decides, in terms of fields, cylinder and head on ECKD, the block on FBA, and everything on SCSI |
| BlockPointer.BlockPtrIsNull | core/bootmap_common.c:306-322 | the null test decides exactly that field condition |
| BlockPointer.TestMemory | core/bootmap_common.c:312-321 | the loop returns whether all bytes of the prefix are zero |
| BlockPointer.AcceptedNull | core/bootmap_common.c:306-322 | the pointers that pass the validity check and yet test as null are exactly those to the first track (ECKD) or to block 0 (FBA) |
| BlockPointer.ZeroRejected | core/bootmap_common.c:415-446 | the zeroed pointer never passes the validity check and tests as null |
| BlockPointer.ChsInRange | core/bootmap_common.c:427-438 | every accepted cylinder/head/sector pointer addresses a block below cylinders * heads * sectors |
| BlockPointer.ChsOrder | core/bootmap_common.c:610-616 | the address formula preserves and reflects the order cylinder, head, sector |
| BlockPointer.ChsOnto | core/bootmap_common.c:610-616 | every block number below the capacity is the address of an accepted pointer; with the order this makes the formula an order isomorphism |
| BlockPointer.ChsOverflow | core/bootmap_common.c:612-614 | no partial result of the int arithmetic overflows for any accepted pointer if and only if the capacity is at most 2147483647 |
| BlockPointer.FirstBlockOnDevice | core/bootmap_common.c:516-517 | the first block of an accepted pointer lies on the device, because the size is rounded down to whole physical blocks |
| SegmentChain.CycleNeverEnds | core/bootmap_common.c:829-869 | a chain that comes back to one of its tables is never finished, with any number of links |
| SegmentChain.RankEnds | core/bootmap_common.c:829-869 | any rank that decreases along the links bounds the walk |
| SegmentChain.EndsMore | core/bootmap_common.c:829-869 | the content of a component does not depend on the bound chosen for its chain |
| SegmentChain.WalkLoadsComponent | core/bootmap_common.c:804-874 | going from slot to slot and from table to table loads exactly the code pointers of the flattened chain up to the first that tests as null, and fails exactly if something before that cannot be read |
| SegmentWalk.ReadFully | core/bootmap_common.c:625-641 | for every sequence of short reads the buffer ends up with exactly the addressed device bytes and nothing else is touched |
| SegmentWalk.ReadPhyBlocks | core/bootmap_common.c:586-644 | a rejected pointer changes nothing; a completed read has put exactly the extent at its place in the buffer |
| SegmentWalk.CopyComponentToMemory | core/bootmap_common.c:804-874 | unless the device fails, the component is loaded if and only if everything on its chain is readable, and then the buffer is the concatenation of its extents in chain order |
| SegmentWalk.LoadSegments | core/bootmap_common.c:812-873 | the loop over slots and tables with its growing buffer computes the result of the walk |
| SegmentWalk.AppendSegment | core/bootmap_common.c:830-843 | the enlarged buffer is the old content followed by the extent of the code pointer |
| SegmentWalk.NextPointer | core/bootmap_common.c:844-868 | the slot index stays inside the current table and the pair of remaining links and remaining slots decreases |
| BootMapBoot.GetProgramTable | core/bootmap_common.c:672-713 | success means a readable single block with the magic number, and all entries are the decoded slots behind it |
| BootMapBoot.GetComponentTable | core/bootmap_common.c:743-792 | success means such a block, with the header byte and all entries it holds decoded; the entries that the code reads beyond the block are whatever lies there |
| BootMapBoot.BehindIrrelevant | core/bootmap_common.c:724-792 | what lies beyond the block has no influence on what is booted, if and only if the table has an executable entry |
| BootMapBoot.IdentifyBootObjects | core/bootmap_common.c:891-956 | success yields the first components at the three addresses of the stage 3 parameters; failure leaves all pointers zero |
| BootMapBoot.ObjectsEnd | core/bootmap_common.c:903-906 | zeroed objects have a kernel that cannot be loaded |
| BootMapBoot.ReadKernelComponent | core/bootmap_common.c:967-1015 | the kernel file is a 65536 byte header of zeros followed by the component |
| BootMapBoot.ReadInitrdComponent | core/bootmap_common.c:1028-1076 | the initrd file is the component cut to the stated length; -1 passes as a length and gives an empty file |
| BootMapBoot.ReadParmfileComponent | core/bootmap_common.c:1089-1105 | the command line is the component up to its first NUL, its last byte being overwritten |
| BootMapBoot.BootBootmapDisk | core/bootmap_common.c:1157-1234 | apart from I/O errors kexec is called if and only if program table and component table are valid and the boot objects are identified and loadable, with exactly their content and command line, although the error of the identification is dropped |
| ConfigLanguage.ValueIsTruth | core/sysload.conf.y:832-883 | comparing strings along a list of identifiers computes disjunction, and `not` negation |
| ConfigLanguage.UuidNeverMatches | core/sysload.conf.y:885-890 | a list of uuid tests holds on no machine |
| ConfigLanguage.LastDecides | core/sysload.conf.y:340-368 | settings overwritten one after the other end up as the last statement about them says, for any kind of setting |
| ConfigLanguage.LastOptionWins | core/sysload.conf.y:599-796 | a boot entry has the given title and label, each text from the last option of its kind, the action of the last option that names one, and is locked if some option says so |
| ConfigLanguage.LastParameterWins | core/sysload.conf.y:340-513 | modules and networks are set up with the last parameter of every kind |
| ConfigLanguage.EvaluatePruned | core/sysload.conf.y:238-332 | evaluating the nested configuration equals evaluating what is left after deleting every section with a false condition: same toplevel, same ordered log of effects, up to the timeout |
| ConfigLanguage.LastTimeoutDecides | core/sysload.conf.y:273-289 | the timeout is that of the last timeout statement of the whole text if that one is active, and 0 if it is not |
| ConfigLanguage.PrunedTimeout | core/sysload.conf.y:273-289 | after deleting the false sections the timeout is that of the last remaining timeout statement |
| ConfigLanguage.PruningIsExact | core/sysload.conf.y:273-289 | deleting the false sections changes nothing at all if and only if the last timeout statement is active or the remaining ones leave the timeout at 0 |
| ConfigLanguage.NestingIrrelevant | core/parser.h:26 | up to the cap the nesting depth has no influence |
| ConfigLanguage.BeyondTheCap | core/parser_sysload.c:115-173 | a statement in n active sections takes effect if and only if n is at most the cap: the bound is exact |
| ConfigLanguage.UiOnlyNonInterference | core/sysload.conf.y:264-332 | a ui-only run sees the same entries, default label and password, logs no effect, starts only its own user interface and has no timeout |
| ConfigParser.ParserContext.ActiveSystem | core/parser_sysload.c:115-124 | comparing the two counters decides whether every open section was entered as active and there are at most 998 of them |
| ConfigParser.ParserContext.EnterSystem | core/parser_sysload.c:131-148 | entering a section pushes its activity on the stack that the counters stand for |
| ConfigParser.ParserContext.ExitSystem | core/parser_sysload.c:155-173 | leaving a section pops it |
| ConfigParser.ParserContext.Perform | core/sysload.conf.y:264-796 | one semantic action on the shared context, gated on the counters, does what the statement does when all open sections are active |
| ConfigParser.ParserContext.OpenSection | core/sysload.conf.y:832-846 | a section is entered as active exactly if its condition holds |
| ConfigParser.ParserContext.ParseBootEntry | core/sysload.conf.y:599-796 | the shared boot entry record collects title, label and the active options, and is clean again for the next entry |
| ConfigParser.ParserContext.ParseDefinitions | core/sysload.conf.y:238-262 | running the actions over any nested configuration gives the state of the evaluator on the tree |
| ConfigParser.ResolveDefault | core/parser_sysload.c:340-364 | the default entry is the number if the label is a number in range, else the first entry with that label, else an error |
| ConfigParser.ParseSysload | core/parser_sysload.c:313-373 | for a tree of definitions the configuration and the log of effects are those of the evaluator, and the default index is in range |
| ConfigParser.UiOnlyMenu | core/sysload.conf.y:264-332 | the process behind an ssh connection gets the same menu with the same default as the main process, and touches nothing |
| ConfigText.ReadConfiguration | core/parser_sysload.c:313-373 | scanner, grammar and semantic actions together yield for every text, with the files it includes, the configuration of the evaluator, or none if the text is not accepted or has no valid default |
| ConfigText.ParseBootEntry | core/parser_sysload.c:386-420 | scanner, grammar and semantic actions together yield the first entry of the text, whatever other definitions, sections and include files it has, unless one of the definitions needs the arguments that are not set |
| IncludeScanner.Scan | core/sysload.conf.l:64-131 | the scanner with its explicit stack delivers the tokens of recursive inlining, capped at depth 20 and skipped in inactive sections, and ends for all files including cyclic ones |
| IncludeScanner.TokenLines | core/sysload.conf.l:86-131 | saving and restoring the line number gives every token the line of its own file |
| IncludeScanner.LimitIrrelevant | core/sysload.conf.l:76-80 | for files nested no deeper than the limit the limit has no influence |
| IncludeScanner.SelfInclude | core/sysload.conf.l:76-80 | a file that includes itself is read once for every free place on the stack |
| BootEntryScanner.Scanner.Lex | core/sysload.conf.l:53-410 | one call delivers the next token of the text, of a file it includes or of a file an earlier text left suspended, under all start conditions, and always ends; at the end nothing is suspended |
| BootEntryScanner.Scanner.Include | core/sysload.conf.l:64-113 | a file is delivered exactly if there is room on the stack, the URI has a scheme, and the file can be opened at this place |
| BootEntryScanner.Scanner.EndOfFile | core/sysload.conf.l:115-131 | the file below goes on in the same condition: nothing of what is still to come changes |
| BootEntryScanner.Scanner.Enter | core/sysload.conf.l:86-113 | entering a file keeps what is still to come |
| BootEntryScanner.PickWordRule | core/sysload.conf.l:199-366 | of all rules of the INITIAL condition the one for the keyword at hand wins by longest match over identifiers, prefixes, hexadecimal rules and its own variants |
| BootEntryScanner.MatchWithUri | core/sysload.conf.l:303-366 | a keyword followed by a scheme is taken as a keyword with a URI, and only the keyword is consumed |
| BootEntryScanner.MatchWithBlank | core/sysload.conf.l:285-342 | a keyword followed by a text without a scheme is taken as a keyword with a string |
| BootEntryScanner.MatchBare | core/sysload.conf.l:233-265 | a keyword that takes no value is recognized before a line end or a brace |
| BootEntryText.UriLine | core/sysload.conf.l:133-152 | a line with a URI becomes the keyword, the scheme, the bracket if there is one, and the rest |
| BootEntryText.StringLine | core/sysload.conf.l:55-62 | a line with a string becomes the keyword and the string |
| BootEntryText.ScanLines | core/sysload.conf.l:133-152 | the printed lines of an entry are scanned as the tokens of their fields, whatever follows |
| BootEntryRoundTrip.ScanPrinted | core/config.c:501-530 | the printed text of an entry is scanned as the tokens of its fields between the braces |
| BootEntryRoundTrip.ParseUriTokens | core/sysload.conf.y:798-824 | the pieces of a URI are rejoined unchanged |
| BootEntryRoundTrip.ParseLines | core/sysload.conf.y:641-796 | the option lines are parsed as the options they were printed from |
| BootEntryRoundTrip.ParseFirst | core/parser_sysload.c:403-406 | of a text that starts with a boot entry that entry is taken, provided the rest of the text is accepted |
| BootEntryRoundTrip.PrintParse | core/config.c:501-530 | in the INITIAL condition, parsing a printed entry succeeds if and only if it has a title and an option line and what is left of suspended files can follow it, and then yields the entry without lock and pause and with the action of the last of kernel, insfile and bootmap |
| BootEntryRoundTrip.PrintParseExact | core/config.c:501-530 | the entry arrives unchanged if and only if it is unlocked, has no pause, a title, an option line and that action, or consists of title, label and a bare action |
| BootEntryRoundTrip.SecondRoundTrip | core/config.c:501-530 | printing and parsing once more changes nothing further |
| BootEntryRoundTrip.PrintEntry | core/config.c:481-530 | the sequence of printf calls writes a text whose parse is the entry as it arrives |
| BootEntryClosure.TokensSound | core/sysload.conf.l:53-410 | for every text with its include files, whatever earlier texts left, strings, URI starts and brackets stand where the grammar expects them and have the shape their rules say |
| BootEntryClosure.DefinitionsScanned | core/sysload.conf.y:223-250 | the boot entry statements of every text and of the files it includes, in whatever section, have titles, labels and option values of these shapes |
| BootEntryClosure.EntriesScanned | core/parser_sysload.c:313-373 | all entries of the configuration a text describes, on whatever machine, have values the printer can print |
| BootEntryClosure.ParsedIsScanned | core/parser_sysload.c:386-420 | whatever the text, the entry that is read from it has values the printer can print |
| BootEntryClosure.ParsePrintParse | core/config.c:501-530 | the round trip for every entry of every configuration text, without hypotheses on its values, printed on one machine and parsed on any other |
| BootEntryCut.NoNewlineNoString | core/sysload.conf.l:55-62 | without a line end the scanner delivers no string and no rest of a URI, at most a bracket |
| BootEntryCut.ScanUnclosed | core/sysload.conf.l:141-152 | a bracket that is not closed is skipped, and its first complete line is taken for the rest of the URI |
| BootEntryCut.CutLines | core/ui_control.c:176-196 | of printed lines of which only a beginning was read either no closing brace is left for the scanner, or the cut is in a bracket behind a line end |
| BootEntryCut.FirstLineRejected | core/parser_sysload.c:386-420 | less than the first line of an entry is never accepted |
| BootEntrySplit.PartIsCut | core/ui_control.c:176-258 | a part of a printed entry that is accepted was cut in a bracket behind what ends an entry |
| BootEntrySplit.ParseCutText | core/sysload.conf.y:798-824 | such a part is accepted, and the entry that is read has the options in front of the cut, the first line of the bracket, and what the lines behind it say |
| BootEntrySplit.AnotherEntry | core/sysload.conf.y:798-824 | without include files the value that was cut is shorter in the entry that is read than in the one that was printed |
| BootEntrySplit.PartsRejectedExactly | core/ui_control.c:232-258 | of all beginnings of a printed entry only those that miss at most the last line end are accepted, and they give the whole entry: if and only if no bracket contains the end of an entry behind a line end, include files counted in |
| BootEntrySplit.NoOtherEntryExactly | core/ui_control.c:232-258 | no beginning of a printed entry is taken for another entry, if and only if no such end gives another entry |
| BootEntrySplit.MisreadWithoutFiles | core/ui_control.c:232-258 | if no file can be opened, every such end gives another entry |
| BootEntrySplit.HarmlessValue | core/sysload.conf.l:141-145 | values without a line end meet the condition, and values without a closing brace if no file that can be opened has one |
| BootEntryIncludes.IncludeIgnored | core/sysload.conf.l:103-113 | an include statement whose file is not opened gives no token, and scanning goes on behind its line |
| BootEntryIncludes.IncludeOpened | core/sysload.conf.l:86-131 | one whose file is opened gives the tokens of the file, and scanning goes on behind its line in the condition the file ended in |
| BootEntryIncludes.LineEndMatters | core/sysload.conf.l:141-145 | a concrete entry that the scanner accepts and that is misread |
| BootEntryIncludes.IgnoredIncludeMatters | core/sysload.conf.l:103-113 | an entry with an ignored include statement in its bracket is misread |
| BootEntryIncludes.IncludeMatters | core/sysload.conf.l:86-131 | an entry without any closing brace is misread if an included file has one, and not otherwise |
| ScannerCarry.FlexStaysGood | core/sysload.conf.l:86-131 | whatever texts come one after the other, with or without syntax errors, at most 20 files are suspended, and each goes on at a line end |
| ScannerCarry.ViableIsRead | core/parser_sysload.c:386-420 | a text that is accepted, or that is the beginning of one, is read to its end and leaves no suspended file |
| BootEntryNext.OtherModeRejects | core/parser_sysload.c:386-420 | in any start condition but INITIAL no beginning of a printed entry is accepted |
| BootEntryNext.NextEntryExactly | core/parser_sysload.c:386-420 | without a suspended file a printed entry arrives if and only if the scanner is in the INITIAL condition |
| BootEntryNext.EntryLeavesNothing | core/parser_sysload.c:386-420 | a printed entry that is accepted leaves the scanner as it was at the start |
| BootEntryNext.HalfTitleLeaves | core/sysload.conf.l:55-62 | a text that ends in a title leaves the condition for strings |
| BootEntryNext.HalfTitleLosesNext | core/parser_sysload.c:386-420 | after such a text the next printed entry is rejected, whatever it is |
| BootEntryNext.ErrorInFile | core/sysload.conf.l:86-131 | after a syntax error in an included file the rest of the text stays suspended |
| BootEntryNext.SuspendedFileIsRead | core/sysload.conf.l:115-131 | what stayed suspended completes the beginning of a printed entry to any other entry with the same title and label |
| Decimal.ScanPrint | core/config.c:583-616 | reading a printed int gives the same int |
| Decimal.PrintInjective | core/config.c:627-652 | different numbers are printed differently |
| Environment.KeyInjective | core/config.c:540-690 | different settings are kept in different variables, for all indices and names |
| Environment.NotIndexed | core/config.h:47-63 | no global variable of the hand-over has the name of a numbered one, not even BENTRY_COUNT |
| Environment.PutEnvName | core/config.c:540-553 | the text handed to putenv is split where it was joined, even if the value contains an equals sign |
| Environment.HandOverRead | core/config.c:701-763 | reading back rebuilds default, timeout, password and the entire list of entries in any environment with stale variables; only the list of user interfaces is not handed over |
| Environment.OthersKept | core/config.c:701-727 | variables without the prefix survive the hand-over, and so do SYSLOAD_STARTUP_MESSAGE and SYSLOAD_PATH, which are set and read around it |
| Environment.Environ.SetEnv | core/config.c:701-727 | the calls of putenv leave exactly the hand-over of the configuration |
| Environment.Environ.GetEnv | core/config.c:736-763 | the loop over the numbered variables reads the configuration the environment describes, and keeps fields whose variable is missing or no number |
| UiControl.GoodStep | core/ui_control.c:67-439 | every action of the controller or of its environment keeps the invariant: collected text is a beginning of written text, the status is that of the process, the controller waits for exactly the clients that were not reaped, an answer is justified, the clock runs exactly while there is a timeout |
| UiControl.AnswerIsJustified | core/ui_control.c:232-419 | in every run an answer is the parse of what was collected from a client that exited cleanly, a beginning of what it wrote, or the default entry with its index in range |
| UiControl.StatusIsFinal | core/ui_control.c:89-112 | a client that is not running any more keeps its status for the rest of the call |
| UiControl.NoTimeoutAfterUsr1 | core/ui_control.c:375-404 | once the main loop handled a SIGUSR1, no later iteration and no later call takes the timeout branch |
| UiRuns.Usr1StopsClock | core/ui_control.c:375-404 | a SIGUSR1 prevents every later timeout, in this call and all later ones, if and only if in the state in which it arrives there is no timeout any more, or the call has failed, or no alarm is pending and the main loop is about to look at the signal or waits for no client |
| UiRuns.UnsafeTimesOut | core/ui_control.c:378-419 | from every other state a run in which no system call fails takes the timeout branch |
| UiRuns.AlarmIsLost | core/ui_control.c:130-138 | an alarm that fires between alarm() and select() wakes nobody: only input, the end of a client or a signal does, although there is a timeout |
| UiAnswers.DesertedForever | core/ui_control.c:378-419 | once no timeout can happen and every client was reaped unseen or failed, no run gives an answer any more unless select fails, whatever counts as an entry |
| UiAnswers.ProblemsDesert | core/ui_control.c:89-112 | in every state of the main loop in which all user interfaces ended with a problem and no timeout can happen, no continuation ends the call unless select fails |
| UiAnswers.AnswerOverlooked | core/ui_control.c:67-112 | the same comes to pass although a user interface wrote any given text and ended with success, if that happens while another one is served |
| UiChanceSteps.ChanceBack | core/ui_control.c:67-439 | no step of the controller or of its environment makes an answer of a client possible that was not possible before |
| UiChances.RoundIsFree | core/ui_control.c:405-418 | clients that end in a round in which all were running, or in later rounds, end by one schedule |
| UiChancePlan.PlanGoes | core/ui_control.c:378-418 | every schedule can be carried out: after what the clients do first, the next round judges exactly those that end in it, in the order of their descriptors, and leaves the rest of the schedule |
| UiChanceRuns.RunAnswer | core/ui_control.c:273-419 | a client that can answer does so in some run in which no system call fails |
| UiChanceRuns.AnswersExactly | core/ui_control.c:176-258 | for every parser that keeps a state, every state of the main loop and every client: some run without failing calls ends this call with the answer of the client, if and only if it can still give one |
| UiChanceRuns.WaitsForeverExactly | core/ui_control.c:378-419 | for every parser and every state of the main loop: no run without failing calls ends the call, if and only if no timeout can happen and no client can give an answer |
| UiChanceTexts.CanGiveExactly | core/ui_control.c:176-204 | in n rounds a running client can give exactly what was collected, followed by the next n times 512 characters if so many are unread, or else by all that is unread and anything more that fits (as long as no NUL is unread) |
| UiChanceTexts.ScheduleExactly | core/ui_control.c:378-419 | before select, if nobody ended unseen: a client can answer if and only if there is a schedule of running clients, itself the last, whose texts are rejected up to its own |
| UiChanceTexts.OnlyClientAnswers | core/ui_control.c:232-258 | a single running client can answer if and only if some text that it can give is accepted in the present state of the scanner |
| UiTexts.AnswerFromPrefix | core/ui_control.c:176-258 | every beginning that parses, of whatever length, can be what counts, whatever is written after it |
| UiTexts.AnswerIsComplete | core/ui_control.c:232-258 | in every run, whatever was left in the scanner, the answer of a client is the parse of all that it wrote, if and only if every beginning that parses at all parses to the same |
| UiControl.Controller.BuildWait | core/ui_control.c:67-79 | the loop collects exactly the pipes of the clients that were not reaped |
| UiControl.Controller.SearchForClient | core/ui_control.c:205-218 | the loop finds the client of a descriptor |
| UiControl.Controller.MarkTerminated | core/ui_control.c:89-112 | exactly the client with the returned pid changes, to the status its exit code says |
| UiControl.Controller.Start | core/ui_control.c:273-376 | a call starts with one fresh running client for every user interface, or fails if there is neither a user interface nor a timeout |
| UiControl.Controller.Perform | core/ui_control.c:67-439 | the imperative steps are the transitions of the state machine |
| UiControl.Controller.Execute | core/ui_control.c:273-439 | running any sequence of actions keeps the invariant |
| MenuChoice.PrintedEntryIsBooted | core/ui_control.c:232-258 | in every run, whatever the configuration left in the scanner and however much of a printed entry was written or read, an answer that comes from it is that entry as it arrives (no file being suspended), if and only if it cannot be misread |
| MenuChoice.BraceWaitsForever | core/ui_control.c:378-419 | a single running client that wrote a closing brace first makes sysload wait forever, if no timeout can happen |
| MenuChoice.ChosenIndexIsBooted | core/config.c:701-763 | for every configuration text, with its include files, and every index: the user interface finds that entry of the configuration in its menu, whatever the environment held, and printing it boots it in every run if it cannot be misread, and only then unless the text left another condition than INITIAL |
| RamdiskClosure.AddModules | admin/sysload_admin:465-482 | the growing list ends for all lines; every line that a requested or needed name matches is copied, everything copied belongs to every set closed under such matches (a line with several colons can be copied once for each of them), and if each line has one colon it is the least closed set, each line once |
| RamdiskClosure.ScanLines | admin/sysload_admin:467-481 | one pass takes every line the name matches and marks it by deleting its first colon in place |
| RamdiskClosure.NextProgress | admin/sysload_admin:599-672 | every round decreases existing files not yet done, entries still to be globbed, or the rest of the list |
| RamdiskClosure.AddLibraries | admin/sysload_admin:590-674 | the growing list ends and tries to copy exactly the existing paths reachable through globbing and ldd of executable files, each source once |
| RamdiskClosure.AddExecutables | admin/sysload_admin:506-588 | the programs are the least set closed under globbing, and the libraries are extended by the leftovers of globbing and then by what ldd prints for every executable program |
| RamdiskClosure.FillRamdisk | admin/sysload_admin:506-674 | programs first, then libraries: exactly the existing files of the least set that contains the requested libraries and what ldd names for a program, directly or transitively, are copied, each source once |
| Uri.VerifyUriScheme | core/comp_load.c:33-55 | accepts exactly the texts that start with a scheme of RFC 3986 section 3.1 and its colon |
| Uri.PrefixRoot | core/loader.c:44-83 | quoted names and texts without a scheme get the root in front, others are left alone |
| Uri.UnchangedIffScheme | core/loader.c:44-83 | an unquoted URI is unchanged if and only if it has a scheme or the root is empty |
| Uri.IdempotentIffScheme | core/loader.c:44-83 | prefixing twice equals prefixing once for every URI if and only if the root has a scheme |
| Uri.GetUriPath | core/insfile.c:34-49 | the backward loop yields everything up to the last slash, or all of the URI if there is none |
| Uri.PathAndRest | core/insfile.c:186-216 | the path of a URI as root and the rest of it give the URI back if and only if the rest is a plain relative name |
| Uri.SplitUri | comploader/cl_shell_template:52-60 | the successive steps leave the components of the reference in the five variables |
| Uri.SplitRecompose | comploader/cl_shell_template:52-60 | the matched pieces concatenate to the input, and what is left before the last step is empty or starts with `#` |
| Uri.SplitWellFormed | comploader/cl_shell_template:52-60 | the pieces avoid the delimiters of RFC 3986 and none could have been taken for an earlier one |
| Uri.RecomposeSplit | comploader/cl_shell_template:52-60 | splitting what is recomposed from well-formed components gives the components back |
| Uri.RejoinExact | comploader/cl_shell_template:52-60 | the five variables determine the reference if and only if no component is defined and empty |
| CompLoad.ReadToString | core/comp_load.c:67-81 | one read of at most 511 bytes is appended |
| CompLoad.Drain | core/comp_load.c:145-168 | whatever select and read answer, the loop ends with the complete output of both pipes, or up to a read error with a beginning of it |
| CompLoad.CompLoad | core/comp_load.c:97-187 | without a scheme no module runs and the error is reported; else the module is that of the scheme |

## Left out

- Foreign calls of the boot map reader: ioctl, sysfs, mknod and matching of device URIs in core/bootmap_dasd.c and core/bootmap_fcp.c; the model starts from an initialised disk record.
- The size arithmetic of get_component_table: it counts entries with the size of a packed pointer, so it goes beyond the block that was read; what it finds there is a parameter (`behind`), and what it overwrites beyond its own table is not modelled.
- BootMapBoot.BootBootmapDisk: prepare_config_command_line is a parameter (`extra`), file creation and close are part of the I/O errors.
- SegmentWalk.CopyComponentToMemory: requires a bound on the chain of tables, because the code has no cycle check (CycleNeverEnds); a read at the end of the device stands for a loop that never ends.
- int overflow of buffer_size and read_total in core/bootmap_common.c; extents are unbounded integers here, and memory is taken as big endian.
- ConfigParser.ParserContext.ParseDefinitions: the LALR tables; a recursive grammar builds the tree and the actions are driven from it, so the effects of statements in front of a syntax error are not covered. The tests (MAC, vmguest, lpar) have fixed answers.
- ConfigParser.ParseSysload: starts from the tree; ConfigText.ReadConfiguration starts from a text.
- ConfigText.ParseBootEntry: no entry stands for a text that is rejected, has no entry, or makes sysload crash; after a crash the controller goes on in the model as after a rejected text.
- ScannerCarry.ViableIsRead: where the LALR parser stops is described by what can still be accepted, not computed from its tables; a default reduction that saves reading a token is not modelled.
- kset and knet kernel arguments beyond their grammar, argument parsing and the help texts.
- The kernelversion of a module is collected but has no effect on the call of modprobe, as in the code.
- IncludeScanner.Scan: whether the parser is active at an include statement is an arbitrary function of the tokens delivered so far, which covers every look-ahead; file access and temporary names are a finite map.
- BootEntryScanner.Scanner.Include: whether a section is active and what a file holds is an arbitrary function of the tokens so far and the URI; the line numbers are those of IncludeScanner, which works on pieces of files.
- UiChanceRuns.AnswersExactly: runs in which read or select fails are not counted; a read that fails would leave a text shorter.
- MenuChoice.PrintedEntryIsBooted: says nothing about answers that were read while a file was suspended; SuspendedFileIsRead shows that they can differ.
- Decimal.Scan: a number beyond int is saturated to 64 bits and narrowed, one of the behaviours C allows.
- Environment.ToAction: an action number outside the enumeration reads as KernelBoot; the code stores the number.
- NUL characters in strings, except where text is read from pipes.
- UiControl.GoodStep: pipe and fork succeed, the signal handlers are installed before a signal arrives, pids are not reused, and select is interrupted only by the two signals; it reports what can be read at one instant.
- Killing the clients at the end of userinterface: they may exit at any time anyway.
- RamdiskClosure.AddModules: the regular expression is a relation; a match needs a colon. Copying the module files, and the report of modules that were not found.
- RamdiskClosure.AddLibraries: the file system, ldd, globbing and path translation are fixed relations; globbing and ldd yield plain paths. Missing directories and failing copies.
- Uri.SplitUri: line ends in URIs, on which awk would work separately; echo with an option-like argument.
- CompLoad.CompLoad: fork, exec and the search path of the modules.
- cfg_copy, which does not copy default, timeout and password.
- User interface dialogs, network setup, halt, remote copies, init scripts, memory management and debug output.
- The voting of identify_file in core/insfile.c, and reading the lines of an insfile.
