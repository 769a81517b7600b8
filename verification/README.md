# AppOpt verified

AppOpt binds Android threads to CPU cores. Its rules live in a text file that a
daemon loads, a web page edits line by line, and an eBPF program helps to apply. This
project models the parts of it in which one piece of code must agree with another one,
and proves that they do, or says exactly when they do not:

* **The editor against the loader.** `load_config` and `target_scan` read the same block
  grammar with two different loops. The editor changes lines by index and the loader reads
  the result. The theorems have the form "edit the text, then load it" equals "load it,
  then change the rules". Raw lines are classified once (`Syntax`), the two readers are
  state machines over classified lines (`Loader`, `Scanner`), every edit is a splice whose
  effect on the loaded rules is known (`Loader.Splice`, `Edits`), and the printed and
  rewritten lines are shown to classify as meant (`Printing`, `Swapping`, `Renaming`).
  `RuleFile` is the editor in its own form, a class that changes its lines in place; its
  methods are proved equal to the functions that the theorems are about. `EditAndLoad`
  states the results for the loader as it runs.
* **The tracking protocol.** Kernel handlers keep a table of tracked threads and queue
  events; a monitor handles the queue later and keeps a cache. Thread ids are used again
  while old events still wait. `EbpfProtocol` is the step system, in which a scan and a
  check can be interrupted after every thread; `EbpfMonitor` has the handlers as methods,
  and `EbpfReuse` dates every event and every life of an id.
* **The refresh-rate machine.** Timer, debounce, throttle, per-app rates and reload, over
  every run (`RefreshMachine`, `RefreshStates`).
* **CPU sets and their texts.** Range printer, range parser, tier names, clamp suffix,
  tier detection (`CpuSets`, `CpuSpecs`, `CoreTiers`).
* **Derived state.** Reference counts, uid tables kept up to date, row numbers that must
  not depend on hash order, the kernel's name filter, directory names, in-place
  substitution and its undo.

Reading order for the first part: `Loader`, `Grammar`, `Scanner`, `RuleEdits`, then
`Upserting`, `SafeEdits`, `DeletingPkg`, `RenameRounds`, `RenamingPkg`, then `EditAndLoad`.
`Answers`, `Written`, `RoughRounds`, `RoughNormalizing`, `RoughEdits` and `RoughRenames`
are about files the loader does not take without failure. A verdict `ok(pkg, thread, cpus)` stands for what `add_rule`
accepts; `Guards` supplies the real one. `Clean` means the loader counts no failure, `Sound`
that its only failures are package lines left without a brace, `NoStray` that it meets no
bare brace outside every block without a package line waiting for it.

Where the code does less than its comments promise, the code is what is modelled:

* A brace appended to a package line with a trailing comment becomes part of the comment.
  The edits that open a block fail on exactly those files: `BraceInComment` is the
  condition, `NormalizedMeaning` and `UpsertReadsBack` have it as "if and only if", and
  `CommentedRule` gives the smallest such files. Every edit normalizes first, so deleting
  and renaming have the same condition (`NormalizingBreaks`), and no number of rounds
  repairs the file (`PurgedDamaged`, `RoundsDamaged`).
* A rule moved from a line of its own into a block keeps its name only if the name can be
  printed. `NormalizedMeaning` has this as "if and only if" for every clean file, and
  `UpsertIff`, `UpsertRuleIff`, `DeleteThreadIff`, `DeleteRuleIff` and `RenameIff` for the
  edits. A name that starts with a comment mark, like `p{#t}=1`, is commented out without a
  failure (`MarkedNameLost`); only the deletion of a package does no harm then
  (`MarkedNameDeleted`).
* `spec_swap` looks for the last `=`, the readers of a closing line for the first `}`
  behind a rule. On a line with a `=` behind that brace the rule keeps its old CPUs
  (`UntidySwap`); on every other closing line it gets the new ones (`SwapClosedEntry`).
  `CpusStay` is that condition for a whole upsert.
* A lone `=` is a package line to the scanner and nothing to the loader (`LoneEquals`);
  `Lockstep` says that this is the only way the two can part. Normalizing can bring the two
  lines together that do it (`OrphanMade`).
* On a file that is damaged already an edit can do further harm. A stray opening brace is
  taken up by a waiting package line when the lines between them go, and what follows it
  changes its package (`BraceTaken`, `RuleTaken`). A closing brace in the CPU text of a
  package rule stays behind the new CPUs (`BraceKept`). Without these the edits are right on every file, however broken
  (`UpsertThreadRough`, `UpsertRuleRough`, `DeleteThreadRough`, `DeleteRuleRough`,
  `DeletePkgRough`, `RenameRough`).
* `rule_delete_pkg` can leave a package line behind without its block (`StrandedLine`);
  `DeletePkg` counts such lines exactly.
* Some names turn a header into something else: `NameTrap` is the exact condition for one
  line and one round (`RenamedHeader`), `Fits` for a header after all rounds, and a rename
  relabels a clean file if and only if the new name fits every header (`RenameRelabels`).
  `NameBecomesRule` makes a header the rule of another package.
* The rounds of a rename need not end. On any file they end within its weight or never
  (`StopsIff`), and `EndsIff` says which lines and names keep them going: a single-line rule
  of the old package under a name that starts with the old one and a brace
  (`RenameNeverEnds`), and a commented bare header under a name that reads as a single-line
  rule of the old package. The latter happens on clean files (`ClearNeverEnds`, with the
  name `x{b}=c` of `EndlessName`). A third way is a block that falls apart, so that a thread
  line of it becomes a single-line rule (`SpillNeverEnds`).
* When both file descriptors of the refresh loop are ready and the wake-up is served first,
  the timer is not looked at again, and the machine can go idle in the instant of an input
  (`BothFdsIdleEarly`). `IdleTooEarly` says that no other batch goes idle too early;
  counted from the inputs of the batches before, the bound always holds (`IdleBound`).
* "Paused implies idle rate" is kept by every batch but one whose reload finds the machine
  paused and has two rates for the package (`ReloadKeepsPaused`, `PausedIsIdle`);
  `PausedActive` is a run from the start that breaks it.
* A late exit event takes the table entry of the thread that now has the id: exactly when
  it was queued before that thread was forked (`LateExit`). `ReusedIdIsLost` is a run from
  the start after which a living thread's rename goes unseen.
* The monitor trims a thread name before looking it up and the kernel filter does not.
  `FilterPasses` says which of the names the monitor would resolve get through.
* The rules of a property file are undone in the order in which they were made, so two
  rules that chain are not undone (`ChainedPair`); rules that are apart are (`RulesUndo`).

## Model

| member | source | states |
|---|---|---|
| Shapes.ReadShape | AppOpt/src/config.rs:65-78 | A line of the shape white space, core, comment is read by its core alone. |
| Shapes.ShapeOf | AppOpt/src/config.rs:65-78 | Every line that is not skipped has that shape, and the core is what comment stripping leaves. |
| Syntax.MarkFacts | AppOpt/src/config.rs:65-74 | The comment mark that is found is the first one; without a result there is none. |
| Comments.TwoMarks | AppOpt/src/config.rs:65-78 | `#` and `//` begin a comment at the start of a line and behind white space. |
| Comments.NoOtherMark | AppOpt/src/config.rs:65-78 | Nothing else does. |
| Loader.Splice | AppOpt/src/config.rs:210-308 | Replacing lines by others that leave the loader in the same state changes rules and failures in that one place only. |
| Grammar.CleanIsGrammar | AppOpt/src/config.rs:210-308 | The loader takes a file without failure if and only if its lines fall into rules on lines of their own and whole blocks, every rule of which is accepted; the rules loaded are those of the items, in order. |
| Grammar.FailuresAreFaults | AppOpt/src/config.rs:210-332 | On every file each failure is counted once: the lines without meaning or with a rule turned down, the package lines that got another line than their brace, and an open end. |
| ConfigFiles.ConfigLoader.AddRule | AppOpt/src/config.rs:149-189 | A rule is kept exactly when name lengths, characters, CPU shape and the CPUs present allow it; one kept rule is appended, with its CPU set and directory. |
| ConfigFiles.WrittenTaken | AppOpt/src/config.rs:149-189 | A rule with a well-written CPU text is taken if and only if the package name has 1 to 127 characters, the thread name at most 31, neither a control character, and some part of the text means a CPU there is. |
| ConfigFiles.ConfigLoader.LoadLine | AppOpt/src/config.rs:216-304 | One line takes the loader from state to state, adds the rule it asks for, and counts its failures. |
| ConfigFiles.ConfigLoader.LoadConfig | AppOpt/src/config.rs:191-332 | The loop ends with the rules and the failure count of the specification, an unclosed block or waiting line at the end included. |
| TargetScanner.TargetScan | AppOpt/src/rule_edit.rs:41-174 | The scanner's loop returns the first header, the first block with both ends, and all thread places of the package. |
| Scanner.Lockstep | AppOpt/src/rule_edit.rs:65-172 | Scanner and loader agree on being in a block at every line if and only if no bare brace follows a nameless package line. |
| Scanner.SoundHasNoOrphans | AppOpt/src/config.rs:276-288 | A file without hard failures has no such brace. |
| Scanner.HitsAreLoaderLines | AppOpt/src/rule_edit.rs:65-172 | In lockstep, a line is recorded for a package if and only if the loader attributes a thread rule of that package to it, under the same name; the scanner is in the package's block exactly when the loader is. |
| Scanner.FirstBlock | AppOpt/src/rule_edit.rs:53-120 | The recorded block is the first of the package, from its opening line to its closing line. |
| Scanner.FirstHeader | AppOpt/src/rule_edit.rs:121-160 | The recorded header is the first line that names the package. |
| Scanner.HitsInOrder | AppOpt/src/rule_edit.rs:77-120 | The recorded places are in increasing line order, one a line. |
| Taking.TableIsRules | AppOpt/src/rule_edit.rs:65-172 | On a clean file the places recorded under a thread name are exactly the lines of the loader's rules for it, in order. |
| Printing.EntryCore | AppOpt/src/rule_edit.rs:327-328 | A printed thread line reads back as that thread and that CPU text. |
| Printing.HeaderCore | AppOpt/src/rule_edit.rs:300-319 | A printed package rule, with or without a brace, reads back as that rule. |
| Printing.BareOpenCore | AppOpt/src/rule_edit.rs:235-237 | A printed bare header reads back as the opening of that package. |
| Swapping.SwapEntry | AppOpt/src/rule_edit.rs:246-260 | In a thread line the swap changes the CPUs and nothing else the readers see. |
| Swapping.SwapStandalone | AppOpt/src/rule_edit.rs:246-260 | The same in a package rule that opens no block. |
| Swapping.SwapOpenInline | AppOpt/src/rule_edit.rs:246-260 | The same in a package rule that opens a block: the brace stays. |
| Swapping.SwapClosedEntry | AppOpt/src/rule_edit.rs:246-260 | The same in a thread line that closes its block, if no `=` stands behind the brace. |
| Swapping.UntidySwap | AppOpt/src/rule_edit.rs:246-260 | If one does, the rule keeps its old CPUs, whatever the line. |
| Swapping.SwapAnyEntry | AppOpt/src/rule_edit.rs:246-260 | So on every thread line the result is known: the new CPUs, or the old ones on exactly the untidy closing lines. |
| SwappedSingles.SwapClosedSingle | AppOpt/src/rule_edit.rs:246-260 | In a single-line rule the swap changes the CPUs and nothing else the readers see. |
| SwappedSingles.SwapOpenSingle | AppOpt/src/rule_edit.rs:246-260 | The same in one that opens a block: the brace stays. |
| Comments.SwapKeepsRemark | AppOpt/src/rule_edit.rs:246-260 | The swap leaves the comment of any line as it is. |
| Comments.MovedKeepsRemark | AppOpt/src/rule_edit.rs:239-244 | A printed thread line, header, bare header or closing brace takes over the comment of the line it stands for. |
| Comments.RenameKeepsRemark | AppOpt/src/rule_edit.rs:447-459 | A line of the package under a new name keeps its comment. |
| Edits.RemoveHit | AppOpt/src/rule_edit.rs:262-270 | What `line_remove` leaves in place of a recorded line takes exactly that line's rule out and keeps the file clean. |
| Edits.InsertEntries | AppOpt/src/rule_edit.rs:213-217 | Thread lines put into the package's block add exactly their rules. |
| Edits.OpenStandalone | AppOpt/src/rule_edit.rs:218-224 | The package's own line turned into the opening of a block keeps its rule and adds the block's. |
| Edits.InsertBlock | AppOpt/src/rule_edit.rs:225-232 | A fresh block put outside every block adds exactly its rules. |
| SinglesMoved.StrayMade | AppOpt/src/rule_edit.rs:218-224 | With the brace lost in a comment, the lines of the block stand outside and its closing brace closes nothing. |
| Headers.GiveRuleToPending | AppOpt/src/rule_edit.rs:304-311 | A rule given to a package line whose brace stands on a later line adds exactly that rule. |
| SinglesMoved.NormalizedMeaning | AppOpt/src/rule_edit.rs:185-233 | On every clean file: normalizing gives a clean file with the same multiset of rules, the same sequence of other packages' rules, and no single-line rule of the package, if and only if the thread names of its single-line rules can be printed on lines of their own and it does not have to open a block on a commented line. |
| EntryNames.EntryNameSafe | AppOpt/src/config.rs:80-96 | Every thread name read inside a block can be printed and read back. |
| MarkedNames.MarkedNameLost | AppOpt/src/rule_edit.rs:185-233 | On a file of one single-line rule whose thread name starts with a comment mark, the rule is lost and no failure is counted. |
| MarkedNames.MarkedNameDeleted | AppOpt/src/rule_edit.rs:374-419 | Deleting the package of such a file is right all the same. |
| BrokenOpens.NormalizedBreaks | AppOpt/src/rule_edit.rs:218-224 | On a file where it has to, with names that can be printed, it writes a brace into a comment, at a place that is named. |
| BrokenOpens.BrokenThread | AppOpt/src/rule_edit.rs:289-341 | A thread rule put into such a file does not repair it. |
| BrokenOpens.BrokenRule | AppOpt/src/rule_edit.rs:289-341 | Neither does a package rule. |
| SafeEdits.UpsertIff | AppOpt/src/rule_edit.rs:289-341 | On every clean file: the new rule is the only one of its thread, every other rule keeps its count, other packages keep their order, and no rule of the package stands on a line of its own, if and only if the names of its single-line rules can be printed, no brace goes into a comment, and the thread's last place is not an untidy closing line with other CPUs. |
| Upserting.UpsertReadsBack | AppOpt/src/rule_edit.rs:289-341 | Where the names can be printed, the answer is "ok", the file is clean if and only if no brace goes into a comment, and then the thread has exactly one rule, with the new CPUs or those of an untidy line. |
| SafeEdits.UpsertRuleIff | AppOpt/src/rule_edit.rs:289-341 | On every clean file: the package's own rule replaces the one on the first line that names the package, and nothing else changes, if and only if the names of its single-line rules can be printed and normalizing does not break the file. |
| Upserting.OnlyRuleLeft | AppOpt/src/rule_edit.rs:289-341 | The rule written is then the only package rule if and only if the file is not damaged and its first line held all package rules. |
| Answers.UpsertMalformed | AppOpt/src/rule_edit.rs:289-341 | On every file without orphan braces once normalized: the answer is "malformed", and nothing is written, if and only if the loader ends inside a block and sees no place for the rule: no line that names the package; for a thread, no rule of it, no closed block, and no package rule standing alone as the first line of the package. |
| MadeOrphans.OrphanMade | AppOpt/src/rule_edit.rs:185-233 | A file without orphan braces that gets one by normalizing; the answer is then "ok" although the loader sees no line that names the package and ends inside a block. |
| RoughNormalizing.NormalizedAgrees | AppOpt/src/rule_edit.rs:185-233 | A file on which the loader meets no stray opening brace has no orphan brace once normalized, if its single-line rules can be moved. |
| Written.UpsertWritten | AppOpt/src/rule_edit.rs:289-341 | On every file without orphan braces once normalized, whatever else is wrong with it: "ok" means the rule that was given is among those loaded, if the line to be rewritten has no brace in its CPU text and is not an untidy closing line, no brace goes into a comment, and single-line rules are left only on a file without stray opening braces. |
| RoughEdits.UpsertThreadRough | AppOpt/src/rule_edit.rs:289-341 | On every file without stray opening braces, under the same conditions: a thread upsert that answers "ok" puts the rule in place of all rules of the thread, and every other rule is loaded as often as before, those of other packages in their order. |
| RoughEdits.UpsertRuleRough | AppOpt/src/rule_edit.rs:289-341 | The same for the package's own rule, which takes the place of the one on the first line that names the package, if that line holds one. |
| TakenBraces.BraceKept | AppOpt/src/rule_edit.rs:246-260 | With a brace behind the old CPUs the answer is "ok" and no rule is loaded. |
| TakenBraces.RuleTaken | AppOpt/src/rule_edit.rs:289-341 | A file with a stray opening brace on which a thread upsert answers "ok" and the rule lands in the block of another package. |
| SafeEdits.DeleteThreadIff | AppOpt/src/rule_edit.rs:343-372 | On every clean file, for a thread with rules: exactly those rules are gone if and only if the names of the package's single-line rules can be printed and normalizing does not break the file. |
| Deleting.DeleteThread | AppOpt/src/rule_edit.rs:343-372 | Where the names can be printed: "not found" if and only if the loader has no rule of the thread, and then nothing is written; what is written is clean if and only if normalizing does not break the file. |
| Answers.DeleteFinds | AppOpt/src/rule_edit.rs:343-372 | On every file without orphan braces once normalized: "not found", and nothing written, if and only if the loader meets no rule of the thread; for the package's own rule, none on the first line that names it. |
| RoughEdits.DeleteThreadRough | AppOpt/src/rule_edit.rs:343-372 | On every file without stray opening braces whose single-line rules can be moved, whatever else is wrong with it: after the deletion exactly the rules of the thread are gone. |
| RoughEdits.DeleteRuleRough | AppOpt/src/rule_edit.rs:343-372 | The same for the package's own rule: exactly the one on the first line that names the package is gone, if there is one. |
| SafeEdits.DeleteRuleIff | AppOpt/src/rule_edit.rs:343-372 | The same for the rule on the package's first line, if it has one. |
| Deleting.DeleteDamages | AppOpt/src/rule_edit.rs:343-372 | Where normalizing breaks the file and the names can be printed, "ok" always means the damage is written. |
| Purging.PendIrrelevant | AppOpt/src/config.rs:210-308 | A package line left waiting in front of sound lines changes none of their rules and costs one failure. |
| Purging.RoundMeaning | AppOpt/src/rule_edit.rs:374-419 | One round keeps every other package's rules in order, stays inside the file, and removes the first header, with the first block if that header stands alone. |
| Purging.StrandedIsUnpaired | AppOpt/src/rule_edit.rs:374-419 | The number of package lines the rounds leave behind equals a one-pass count over the package's headers. |
| RuleFiles.RoundShrinks | AppOpt/src/rule_edit.rs:384-413 | Every round on any file removes at least one line, so the rounds end. |
| DeletingPkg.PurgedMeaning | AppOpt/src/rule_edit.rs:374-419 | The rounds end with the other packages' rules, as a sequence, and one failure for each stranded line. |
| RoughRounds.PurgedRough | AppOpt/src/rule_edit.rs:384-413 | The rounds on a file with any failures but stray opening braces, with no single-line rule of the package or no closed block of it: no rule of the package is left, and all others stay, in order. |
| RoughNormalizing.NormalizedRough | AppOpt/src/rule_edit.rs:185-233 | On every file without stray opening braces, whatever else is wrong with it, whose single-line rules can be moved: normalizing keeps the multiset of rules and the sequence of the other packages' rules, and brings the file into that form. |
| RoughNormalizing.DeletePkgRough | AppOpt/src/rule_edit.rs:374-419 | On every such file, a block of the package left open at the end included: after the deletion the loaded rules are exactly those of the other packages, as a sequence. |
| TakenBraces.BraceTaken | AppOpt/src/rule_edit.rs:374-419 | With a stray opening brace, on a file without orphan braces that ends inside a block of the package: the deletion makes a waiting line in front take the brace, and the rule of another package becomes one of a third. |
| DamagedRounds.PurgedDamaged | AppOpt/src/rule_edit.rs:374-419 | On a damaged file the stray brace outlives every round of a deletion. |
| DamagedRounds.RoundsDamaged | AppOpt/src/rule_edit.rs:421-463 | It outlives any number of rounds of a rename. |
| DeletingPkg.DeletePkg | AppOpt/src/rule_edit.rs:374-419 | On every clean file: what is written has no hard failure if and only if normalizing does not damage the file; then "not found" if and only if nothing names the package, what loads are the others' rules in their order, and the failures are exactly the unpaired package lines. |
| Answers.DeletePkgFinds | AppOpt/src/rule_edit.rs:374-419 | On every file without orphan braces once normalized: "not found", and nothing written, if and only if no line names the package and no single-line rule is of it. |
| Renaming.RenamedHeader | AppOpt/src/rule_edit.rs:421-463 | A header line rewritten once for the new name is the same kind of header, under that name, if and only if the name is no trap for the line. |
| RenamedLines.SingleAfter | AppOpt/src/rule_edit.rs:447-459 | A single-line rule rewritten for a new name is one of the old package again if and only if the new name has just the old one in front of a brace. |
| RenamedLines.SingleRenamed | AppOpt/src/rule_edit.rs:447-459 | Under a name without a brace it is the same rule of the new package. |
| RenamedLines.SameAgain | AppOpt/src/rule_edit.rs:447-459 | A trapped header is the same header again, and so gets the right name in the next round, if and only if the new name is the old one with a `=` behind it. |
| RenameRounds.StopsIff | AppOpt/src/rule_edit.rs:437-460 | On any file the rounds end if and only if they end within its weight, which counts each line that names the old package once or twice. |
| RenameRounds.EndsIff | AppOpt/src/rule_edit.rs:437-460 | On any file the rounds end if and only if no line keeps them going: no single-line rule of the old package if the new name has the old one in front of a brace, and no bare header with a comment if the new name is the text of a single-line rule of the old package. |
| RenameRounds.OtherNamesStop | AppOpt/src/rule_edit.rs:437-460 | Under a name without the old one in front of a brace they end on every file. |
| Misfits.CountRounds | AppOpt/src/rule_edit.rs:437-460 | On a file that loads, whatever rules are taken: the rounds end with a file that does not load, or that asks for no fewer rules and names the two packages no more often; if a header does not fit, for more rules, or naming them less often. |
| RenameSteps.RenamedAllMeaning | AppOpt/src/rule_edit.rs:421-463 | Where the new name fits every header, the rounds end with a clean file in which nothing names the old package; the loaded sequence is relabelled. |
| RenamingPkg.RenameRelabels | AppOpt/src/rule_edit.rs:421-463 | Where the edit returns: "not found" and "conflict" exactly when they should; otherwise the loaded sequence is relabelled and every line that named the old package names the new one, if and only if the new name fits every header. On a file that normalizing breaks no number of rounds gives a clean one. |
| RenamingPkg.RenameIff | AppOpt/src/rule_edit.rs:421-463 | The same on every clean file: relabelled if and only if the names of the single-line rules can be printed, normalizing does not break the file, and the new name fits every header. |
| Answers.RenameFinds | AppOpt/src/rule_edit.rs:421-463 | On every file without orphan braces once normalized, where the edit returns: "not found" if and only if the loader does not know the old name, "conflict" if and only if it knows both; nothing is written then. |
| RoughRenames.RenameRough | AppOpt/src/rule_edit.rs:421-463 | On every such file, under a name without a brace that fits its lines and is taken where the old one is: the edit returns; "ok" means that the loaded sequence of the normalized file is relabelled, and "not found" that no rule of the old name is loaded. |
| RenamingPkg.RenameReturns | AppOpt/src/rule_edit.rs:421-463 | On a clean file that normalizing does not break, the edit fails to return if and only if there is something to rename, the new name is the text of a single-line rule of the old package, and a bare header has a comment. |
| RenamingPkg.RenameThereAndBack | AppOpt/src/rule_edit.rs:421-463 | Where the new name fits, both edits return, and renaming back answers "ok" and restores the rules, whenever `add_rule` takes the old name as it takes the new one. |
| RuleFiles.RuleFile.LineRemove | AppOpt/src/rule_edit.rs:262-270 | In place: the line goes, or the brace it closes or opens stays. |
| RuleFiles.RuleFile.NormalizeSingles | AppOpt/src/rule_edit.rs:185-233 | In place: the lines become the normalized file of the theorems. |
| RuleFiles.RuleFile.RuleUpsert | AppOpt/src/rule_edit.rs:289-341 | Answer and file are those of the theorems, on every file. |
| RuleFiles.RuleFile.RuleDelete | AppOpt/src/rule_edit.rs:343-372 | Answer and file are those of the theorems, on every file. |
| RuleFiles.RuleFile.RuleDeletePkg | AppOpt/src/rule_edit.rs:374-419 | Answer and file are those of the theorems, and the loop ends, on every file. |
| RuleFiles.RuleFile.RuleRename | AppOpt/src/rule_edit.rs:421-463 | Answer and file are those of the theorems, and the loop ends, on every file on which the rounds end at all. |
| Guards.EntryReadsBack | AppOpt/src/config.rs:80-96 | A printed thread line reads back as its rule if and only if the name is safe. |
| Guards.WebNames | AppOpt/src/web.rs:309-320 | A package name that passes the web checks can be printed as a header if and only if it does not start like a closing brace. |
| Guards.WebNamesTaken | AppOpt/src/web.rs:309-320 | Names the web checks let through are names `add_rule` takes. |
| Guards.AcceptsSpecs | AppOpt/src/config.rs:42-63 | Every CPU text `add_rule` takes can stand behind a `=`. |
| Guards.LoaderVerdict | AppOpt/src/config.rs:149-189 | The loader of the theorems and the one that runs load the same rules and count the same failures. |
| Guards.CompatibleNames | AppOpt/src/config.rs:149-189 | A name `add_rule` takes can replace any other. |
| EditAndLoad.UpsertLoads | AppOpt/src/rule_edit.rs:289-341 | Upsert, then load, with the checks of `add_rule`, on every file that loads: the rule is there once and all others are unchanged, if and only if the names can be printed, no brace goes into a comment, and the CPUs do not stay. |
| EditAndLoad.UpsertGives | AppOpt/src/rule_match.rs:15-72 | Upsert, then load, then look a thread up: the package's threads get what the old rules with the new one in place would give, those of other packages what they got before. |
| EditAndLoad.DeletePkgLoads | AppOpt/src/rule_edit.rs:374-419 | Delete a package, then load: no failure if and only if normalizing does no damage and no line is stranded; without damage the others' rules, in order, and an exact failure count. |
| EditAndLoad.RenameLoads | AppOpt/src/rule_edit.rs:421-463 | Rename a package, then load, on every file that loads and where the edit returns: the same rules under the new name, if and only if the names can be printed, normalizing does no damage, and the new name fits every header. |
| Findings.CommentedRule | AppOpt/src/rule_edit.rs:329-331 | Files with one commented package rule, to which no thread rule can be added. |
| Findings.LoneEquals | AppOpt/src/rule_edit.rs:163-165 | Two lines on which the readers part. |
| Findings.StrandedLine | AppOpt/src/rule_edit.rs:374-419 | Clean files whose package cannot be deleted without a failure. |
| Findings.NameBecomesRule | AppOpt/src/rule_edit.rs:421-463 | Headers that a rename turns into a rule of another package. |
| EndlessRenames.RenameNeverEnds | AppOpt/src/rule_edit.rs:437-460 | On a single-line rule that opens a block, a name that has the old one in front of a brace is put on for ever: after every number of rounds the line still names the old package. |
| EndlessRenames.ClearNeverEnds | AppOpt/src/rule_edit.rs:437-460 | Clean files of one block under a commented bare header, on which the edit does not return. |
| EndlessRenames.EndlessName | AppOpt/src/web.rs:309-320 | A name that can be printed and makes it so. |
| EndlessRenames.SpillNeverEnds | AppOpt/src/rule_edit.rs:437-460 | A clean file on which the edit does not return although the new name is not the text of a single-line rule. |
| CpuSets.RunsAreMaximal | AppOpt/src/cpuset.rs:72-106 | The ranges of a set are sorted, disjoint, not adjacent, and cover exactly the set. |
| CpuSets.SeparatedIsUnique | AppOpt/src/cpuset.rs:72-106 | There is only one such list of ranges. |
| CpuSets.CpuSet.Set | AppOpt/src/cpuset.rs:52-56 | Adds the CPU if it is below 1024 and nothing otherwise. |
| CpuSets.CpuSet.Or | AppOpt/src/cpuset.rs:66-70 | The union, word by word. |
| CpuSets.CpuSet.Count | AppOpt/src/cpuset.rs:62-64 | The number of CPUs, summed over the words. |
| CpuSets.CpuSet.ToRangeString | AppOpt/src/cpuset.rs:72-106 | The loop over words and bits prints exactly those ranges, across word boundaries and empty words. |
| CpuSpecs.ParseCpuRanges | AppOpt/src/cpuset.rs:154-191 | The parser's loop builds the set a text stands for: swapped bounds, unreadable numbers, clamping and the present CPUs included. |
| CpuSpecs.PrintedParses | AppOpt/src/cpuset.rs:72-191 | Printing a set and parsing the text gives the set back, or its present part, for every set of CPUs below 1024. |
| CpuSpecs.DashMeansRun | AppOpt/src/cpuset.rs:72-106 | The printed text has a dash if and only if two neighbouring CPUs are in the set. |
| CpuSpecs.ParseCpuSpec | AppOpt/src/cpuset.rs:194-218 | Names and ranges mixed parse to the union of their CPUs. |
| CpuTexts.SpecMeans | AppOpt/src/cpuset.rs:194-218 | A text made of tier names, numbers and spans in either direction, with white space and empty parts, means a CPU if and only if one of its parts does: a number above 1023 none, a span the present CPUs between its ends. |
| CpuTexts.WrittenIsSpec | AppOpt/src/config.rs:42-63 | Such a text has the shape the loader asks for if and only if one part is not empty. |
| CpuTexts.UnreadNumbers | AppOpt/src/cpuset.rs:154-191 | A first number that cannot be read voids its part; in place of a last one stands the first. |
| CpuSpecs.PlusParses | AppOpt/src/cpuset.rs:154-191 | A number reads the same behind a plus sign; one that does not fit 64 bits does not read. |
| CpuSpecs.SpecNameParses | web.rs:257-273 | The text shown for a rule parses back to its CPUs if and only if they are a core tier or all present. |
| CpuSpecs.SpecNameIs | web.rs:257-273 | The name shown is that of the slowest tier that is the set, else "all-core" for all present CPUs, else the ranges. |
| CpuSpecs.ParseRuleSpec | config.rs:591-615 | The parser splits a spec into its CPU text and a clamp pair, or leaves it whole. |
| CpuSpecs.ClampPairParses | config.rs:591-615 | A clamp pair put behind any text is read back, with the text. |
| CpuSpecs.SpecsKeepWhole | config.rs:591-615 | A CPU text without a pair is never taken apart, whatever names and ranges it lists. |
| CpuSpecs.BigPairStays | config.rs:591-615 | Numbers above 1024 are no clamp pair. |
| CpuSpecs.ShownSpecParses | web.rs:376-384 | The whole text shown for a rule gives its clamps back, a missing side filled in, and its CPUs if and only if they are a tier or all present. |
| CoreTiers.DetectCoreTypes | AppOpt/src/cpuset.rs:271-323 | The grouping loop, the sort and the last loop leave exactly the CPUs of the slowest frequency, of the fastest other one, and of those between. |
| CoreTiers.TiersPartition | AppOpt/src/cpuset.rs:271-323 | When every CPU has one frequency the tiers are disjoint, lose no CPU, and are ordered by speed. |
| CoreTiers.ListingOrder | AppOpt/src/cpuset.rs:271-323 | The order of the directory listing does not matter. |
| RuleMatch.ThreadAffinity | AppOpt/src/rule_match.rs:15-72 | The loops return the union of the matching thread rules, else of the package rules, else all present CPUs if the package has thread rules, else nothing. |
| RuleMatch.AffinityByRules | AppOpt/src/rule_match.rs:15-72 | What a thread gets, over the rules alone: the CPUs of all thread rules that fit a nonempty name shorter than 32, and of no package rule, if one fits; otherwise those of the package rules; if these hold none, all present CPUs if the package has thread rules, else nothing. |
| RuleMatch.DirByRules | AppOpt/src/rule_match.rs:15-72 | The directory: named after the CPUs for thread rules, that of the package rule if there is one only, none for several. |
| RuleMatch.OwnRule | AppOpt/src/rule_match.rs:15-72 | A package with one rule of its own, loaded: its CPUs, and the directory named after them if it can be created. |
| RuleMatch.OrderDoesNotMatter | AppOpt/src/rule_match.rs:15-72 | The result depends only on which rules the package has, not on their order nor on other packages. |
| RuleMatch.DirIsCpus | AppOpt/src/rule_match.rs:15-72 | With the rules of any file, loaded, a directory that is handed out is the range text of exactly the CPUs handed out. |
| RuleMatch.OtherPackagesUnmoved | AppOpt/src/rule_match.rs:15-72 | An edit of one package never changes what a thread of another gets. |
| RuleMatch.UpsertedAffinity | AppOpt/src/rule_match.rs:15-72 | After an upsert a thread gets what the old rules with the new one in place would give it. |
| KernelFilter.CommKeysBuild | AppOpt/src/ebpf_mode.rs:138-161 | The keys built are exactly the key windows of the package names. |
| KernelFilter.KeysAre | AppOpt/src/ebpf_mode.rs:138-161 | The keys of a name are its first eight characters, filled up with NUL, and, if it is longer, its last eight. |
| KernelFilter.WhitelistMatched | AppOpt-ebpf/src/main.rs:90-98 | True if and only if one of the nine windows is a key. |
| KernelFilter.ResolvesIff | AppOpt/src/rule_match.rs:85-102 | A name resolves if and only if it is a package, or has at least 15 characters and is the start or the end of one; the very name wins over all others, and a start over an end. |
| KernelFilter.NoFalseNegatives | AppOpt-ebpf/src/main.rs:90-98 | Every trimmed name the monitor resolves, for any order of the packages, passes the kernel's filter. |
| KernelFilter.FilterPasses | AppOpt-ebpf/src/main.rs:90-98 | Of the names the monitor resolves after trimming, the kernel passes exactly those with eight characters left, or with no blank at the end and at most eight in front. |
| EbpfProtocol.RunKeeps | AppOpt-ebpf/src/main.rs:141-236 | In every reachable state every tracked thread is alive, and every cached thread has its exit queued or is alive with the table's word equal to its first cached word; scans and checks may be interrupted anywhere. |
| EbpfProtocol.QuiescentNested | AppOpt/src/ebpf_mode.rs:519-596 | With an empty queue, cache, table and living threads are nested and the words agree, with ids used again and in the middle of a scan or check. |
| EbpfProtocol.CachedIsWatched | AppOpt-ebpf/src/main.rs:141-236 | The next exec, rename or exit of a cached thread whose exit is not queued is queued, whatever its name. |
| EbpfProtocol.ThreadRuleStays | AppOpt/src/cache.rs:42-81 | No step turns a thread-rule entry into a package entry. |
| EbpfProtocol.AppliedByRules | AppOpt/src/cache.rs:42-81 | Over the rules themselves: a living thread with a fitting thread rule that holds a CPU gets a thread-rule entry with exactly the CPUs of the fitting rules, and their first word in the table; without one an entry of a thread rule stays, and any other thread gets the package's CPUs; a dead thread is dropped. |
| EbpfProtocol.EventByRules | AppOpt/src/ebpf_mode.rs:519-569 | An exec or rename whose package is found, by its name or by its process, is decided by those rules under its own name; an exec that sets nothing drops the thread. |
| EbpfProtocol.EventUnknown | AppOpt/src/ebpf_mode.rs:519-569 | Without a package an exec drops the thread and a rename changes nothing. |
| EbpfProtocol.ResolvedIsReported | AppOpt-ebpf/src/main.rs:110-214 | A fork, exec or rename under a trimmed name that the monitor resolves is queued, whoever the thread is. |
| EbpfProtocol.TrackedIsReported | AppOpt-ebpf/src/main.rs:110-236 | A thread in the table is reported under any name, its child enters the table, and its exit takes it out and is queued. |
| EbpfProtocol.OthersAreQuiet | AppOpt-ebpf/src/main.rs:110-236 | A thread outside the table under a name without a key passes unseen, and so does every rename of thread 0. |
| EbpfReuse.LateExit | AppOpt/src/ebpf_mode.rs:524-528 | Over every run: handling an exit takes the entry of a living tracked thread if and only if the event has its id and was queued before the thread was forked. |
| EbpfReuse.ReusedIdIsLost | AppOpt/src/ebpf_mode.rs:524-528 | A run from the start (scan, fork, exit, the id used again, then the queue) after which a living thread is in no table and its rename changes nothing. |
| EbpfMonitor.Monitor.SchedProcessFork | AppOpt-ebpf/src/main.rs:110-178 | In place: the fork step of the protocol. |
| EbpfMonitor.Monitor.ReportNamed | AppOpt-ebpf/src/main.rs:141-214 | In place: the exec and rename steps. |
| EbpfMonitor.Monitor.SchedProcessExit | AppOpt-ebpf/src/main.rs:218-236 | In place: the exit step. |
| EbpfMonitor.Monitor.ApplyTask | AppOpt/src/cache.rs:42-81 | In place: cache and table after `task_apply`, and its answer. |
| EbpfMonitor.Monitor.EventDispatch | AppOpt/src/ebpf_mode.rs:519-569 | In place: the protocol's handling of the oldest event. |
| EbpfMonitor.Monitor.AffinityCheck | AppOpt/src/ebpf_mode.rs:572-577 | In place: every thread found dead leaves cache and table. |
| EbpfMonitor.Monitor.FullScan | AppOpt/src/ebpf_mode.rs:580-596 | In place: both are emptied and filled again from the threads found. |
| EbpfMonitor.CheckedIs | AppOpt/src/ebpf_mode.rs:572-577 | After a check the cache holds exactly the living of its threads, unchanged, and so does the table for cached ones. |
| EbpfMonitor.ScannedFinds | AppOpt/src/ebpf_mode.rs:580-596 | After a scan every thread found has what the rules give it, and nothing else is in the cache or the table. |
| EbpfMonitor.CheckIsRun | AppOpt/src/ebpf_mode.rs:572-577 | A check that nothing interrupts is a run of the protocol's small steps. |
| EbpfMonitor.ScanIsRun | AppOpt/src/ebpf_mode.rs:580-596 | So is a scan, whatever threads it finds. |
| RefreshMachine.BatchKeeps | refresh.rs:99-234 | After every wake-up: the timer is in use exactly when the two rates differ, it is armed for the last reset plus the timeout exactly when there was a reset, and then the machine is not paused and shows the active rate; the rate shown is one of the two; every timeout is at least one second. |
| RefreshMachine.RunKeeps | refresh.rs:258-366 | The same over every run from every configuration, with the distances in time that the bound needs. |
| RefreshMachine.IdleBound | refresh.rs:153-221 | For every timer batch, in either order: the machine never goes idle earlier than the smaller of timeout and ten seconds after a handled input of the batches before, nor within one second less of any of their inputs, throttled ones included; the deadline is never further off than the timeout. |
| RefreshMachine.IdleTooEarly | refresh.rs:330-353 | Counted from every input seen when the timer is looked at, the bound fails if and only if the wake-up is served first and holds an input. |
| RefreshMachine.GraceIsTight | refresh.rs:153-176 | The bound cannot be better: an input just inside the debounce leaves ten seconds and one tick. |
| RefreshMachine.BothFdsIdleEarly | refresh.rs:330-353 | With both descriptors ready the machine goes idle in the instant of an input. |
| RefreshMachine.ReloadKeepsPaused | refresh.rs:223-234 | After a reload "paused implies idle rate" holds if and only if the machine was awake or the new configuration has one rate for its package. |
| RefreshMachine.PausedIsIdle | refresh.rs:330-353 | A batch keeps it if and only if it has no reload, or the timer is served behind it, or the reload finds the machine awake or has one rate for the package. |
| RefreshMachine.PausedActive | refresh.rs:223-234 | A run from the start of any two configurations with two rates that ends paused at the active rate. |
| RefreshMachine.RatesAreLast | refresh.rs:116-135 | Over every run: the rates in use are those of the last app switched to, under the last configuration loaded: its entry if it has one and is not the launcher, otherwise the global rates. |
| RefreshMachine.SwitchShows | refresh.rs:190-199 | A switch shows the app's own active rate and arms its own timeout if its two rates differ. |
| RefreshMachine.InputShows | refresh.rs:203-221 | An input within a second of the last one does nothing; a later one shows the active rate with the whole timeout, unless the timer was set within the debounce. |
| RefreshMachine.ReloadShows | refresh.rs:223-234 | A reload shows the app's active rate under the new configuration and starts the timer again only if it ran. |
| RefreshMachine.TimerShows | refresh.rs:178-186 | The timer shows the idle rate and stops, if there are two rates. |
| RefreshMachine.StartShows | refresh.rs:258-298 | The machine starts awake at the global active rate. |
| RefreshStates.RefreshState.ResetTimerAt | refresh.rs:153-176 | In place: the debounced timer step of the machine. |
| RefreshStates.RefreshState.InputAt | refresh.rs:203-221 | In place: the input step, with its throttle. |
| RefreshStates.RefreshState.ReloadAt | refresh.rs:223-234 | In place: the reload step. |
| RefreshStates.RefreshState.Turn | refresh.rs:330-353 | In place: one batch of ready descriptors, in the order given. |
| RefreshStates.RefreshFields.ParseRefreshConfigLine | config.rs:696-722 | Which lines are global fields, what each sets, and that the timeout stays positive. |
| RefreshStates.RefreshFields.RoutePkgValLine | config.rs:726-747 | Which values set a package's rates, what they set, and that the timeout is at least one. |
| RefreshTexts.ModeReads | config.rs:1095-1110 | 120, 90 and 60 are the modes 0, 2 and 1, with any white space around; every other text is that of 60. |
| RefreshTexts.AppRatesRead | config.rs:726-747 | The written rates of an app read back, the active one before the idle one; a timeout of zero counts as one second, a missing one as thirty. |
| RefreshTexts.GlobalsRead | config.rs:696-722 | The three global lines read back. |
| RefreshTexts.NegativeReads | config.rs:696-722 | Negative numbers are read, down to the smallest 32-bit one. |
| Substitution.SubstInPlace | ebpf_mode.rs:434-443 | The loop over the buffer is the left-to-right substitution without overlaps. |
| Substitution.SubstUndo | ebpf_mode.rs:434-443 | Substituting back restores the buffer if the first new byte of the replacement does not occur in it. |
| Substitution.SubstRestores | ebpf_mode.rs:373-386 | The same for any byte of the replacement that does not occur. |
| Substitution.OnlyMatchesChange | ebpf_mode.rs:434-443 | A byte changes only inside an occurrence of the pattern. |
| Substitution.FirstReplaced | ebpf_mode.rs:434-443 | The first occurrence is replaced and the work goes on behind it; without one nothing changes. |
| PropRules.RulesUndo | ebpf_mode.rs:354-386 | A rule list put on and taken off again restores every buffer, if each replacement has a byte that is new to the buffer and shares none with the other rules. |
| PropRules.ChainedPair | ebpf_mode.rs:354-386 | Two chained rules leave the first one done, so the buffer is restored if and only if the first pattern does not occur. |
| PropRules.ChainedRulesStay | ebpf_mode.rs:434-443 | For every chained pair there is a buffer that is not restored. |
| ProcCaches.EntryReplaced | cache.rs:79-131 | Replacing an entry takes one reference from its old key and gives one to its new key, which may be the same. |
| ProcCaches.EntryGone | cache.rs:35-64 | Dropping an entry's reference never goes below zero and leaves no zero count. |
| ProcCaches.ProcCache.TaskApply | cache.rs:79-131 | In place: the new table, the answer, and both counters in step; a thread-rule entry is never replaced by a package-level one. |
| ProcCaches.ProcCache.AffinitySync | cache.rs:133-151 | In place: exactly the dead threads go, with their references. |
| UidTables.BuildUidTables | main.rs:64-82 | The tables built hold exactly the installed packages with rules, for any order of the package list. |
| UidTables.TablesSay | main.rs:64-82 | Both tables hold exactly the listed packages with CPU or refresh rules, and the flags say which. |
| UidTables.UidState.RebuildUidIfNeeded | main.rs:327-370 | The tables brought up to date entry by entry are those of the new sets over the whole package list; without a change they stay as they were. The new sets are taken when the flag is set whenever the CPU packages differ. |
| UidTables.KeptIsRebuilt | main.rs:64-116 | They equal the tables built anew if and only if no wanted package has a uid outside the current user's range. |
| RuleRows.BuildRuleRows | main.rs:117-164 | The two lists are the stable sort of the rows in walking order. |
| RuleRows.StableSortIsStable | main.rs:117-164 | Sorted, the same rows, and rows with equal keys in their old order. |
| RuleRows.SortedIsUnique | main.rs:117-164 | A sorted list is determined by its classes of equal keys. |
| RuleRows.NumberingIsStable | main.rs:117-164 | For any two enumerations of the uid table the numbered rows are the same. |
| RuleRows.RowsAreRules | main.rs:117-164 | A row is in the first list if and only if it stands for a red rule, with its target, or for a path rule, with a dash, and in the second if and only if for a source rule, each of an installed package, with the rule's own two texts in their order. |
| RuleRows.RowsInOrder | main.rs:117-164 | Rows go by uid; under one uid red rules come before path rules, and source rules in byte order. |
| RuleRows.RowsKeepOrder | main.rs:117-164 | Rows of one uid with equal keys stand in the order of their rules. |

## Left out

- File reading and writing, inotify, epoll, sockets, binder, mmap, supercalls and `/proc`: lines, events, batches, package lists and policy lists are inputs; read and write errors, and the lock around a write, are not part of this model.
- HTTP, JSON, labels, the screen-off and double-tap threads, `process_observer.rs`, `AppOpt/build.rs`: plumbing and foreign calls.
- `AppOpt/src/refresh.rs`: an older form of `refresh.rs`, which is the one modelled.
- Text outside ASCII, and `\r` at line ends: one character is one byte, and a file is a sequence of lines.
- `fnmatch` is any predicate of pattern and name, creating a cpuset directory any predicate of its name, setting an affinity fails exactly when the thread is not alive; the masks the kernel really uses are not modelled.
- The ring drops no event and the kernel's table evicts no entry.
- The words of a CPU set are sets of bit numbers below 64.
- The sorted list of filter keys without duplicates is a set.
- A handler of the refresh machine reads the clock once.
- The value rules of `prop_file_apply` (`name=old` to `name=new`, of equal or of different length): they write at fixed distances in the memory layout of Android's property area.
- Upserting.UpsertRuleReadsBack: with several headers of one package only the first is edited; `OnlyRuleLeft` says when the written rule is the only one.
- DeletingPkg.DeletePkg: asks that the thread names of the package's single-line rules can be printed. Unlike the other edits it can be right without (`MarkedNameDeleted`), but which rules a closing brace in a name drags along is not followed. `DeletePkgLoads` asks the same.
- Upserting.UpsertReadsBack: speaks of names that can be printed, and so do `DeleteThread`, `DeleteDamages`, `OnlyRuleLeft`, `NormalizedBreaks`, `RenameRelabels`, `RenameReturns`, `RenameThereAndBack` and `UpsertGives`; for the others, `UpsertIff`, `UpsertRuleIff`, `DeleteThreadIff`, `DeleteRuleIff` and `RenameIff` say that the edit does not keep the rules.
- RoughNormalizing.DeletePkgRough: one direction, like `RoughEdits` and `RoughRenames`. With a stray opening brace the deletion can be right or wrong (`BraceTaken`), and which it is depends on what the lines behind the brace are in a block and outside of one, down to the next closing brace; this is not followed. Files whose single-line rules of the package cannot be moved as they are (names or CPU texts that do not print, a brace that goes into a comment) are left aside as well.
- RoughRenames.RenameRough: leaves names with a brace to the results on clean files.
- Written.UpsertWritten: one direction; each part of `WriteReady` names a way to lose the rule (`BraceKept`, `UntidySwap`, `BraceInComment`, `RuleTaken`) that need not lose it on every file.
- Answers.UpsertMalformed: speaks of files without orphan braces once they are normalized, like the other three lemmas of `Answers`; where there are some the scanner's answer is about blocks the loader does not see (`OrphanMade`).
- RenameRounds.EndsIff: leaves aside names that have the old one in front of a brace without being a single-line rule, on files where such a name is put on a header that waits for its brace and is read as something else there (`Spills`, `TrapsWaiting`): the block may fall apart, and then `StopsIff` decides. `RenameReturns` leaves the same aside.
- RuleFiles.RuleFile.RuleRename: asks that the edit returns (`RenameEnds`); where it does not, the source's loop does not end either.
- EbpfMonitor.Monitor.FullScan: is the scan that nothing interrupts, like `AffinityCheck`; `EbpfProtocol` has both with kernel steps in between.
- UidTables.UidState.RebuildUidIfNeeded: how the changed-flag gets from one thread to another is not modelled; the flag is an input.
