# Verified model of the G502 X onboard-memory tool

The tool compiles a configuration into onboard-memory pages of a mouse, writes them over a
lossy transport without ever leaving the device in an unsafe state, and lets a terminal
interface drive that. This project models the logic that has to be right for that and proves
it. One module covers one component; `Bytes`, `Models`, `Actions` and `Text` hold what they
share. `dafny verify dfyconfig.toml` checks everything.

- **Compiler, linker and walker** (`Macro`, `Store`, `Packing`, `Layout`, `Allocator`,
  `Linking`, `Vm`, `Compile`, `Config`, `Frontend`, `Emission`, `HostSide`, `Meaning`). Action
  trees become bytecode, bytecode is packed into eight pages and split at instruction boundaries
  with JUMPs, and an independent walker reads it back. `HostSide` is a host that knows nothing of
  the compiler: it notices key presses, controls, pauses and scrolling in a run of instructions.
  What it notices of a compiled action is what the action's text asks for. The writer and the
  reader are proved to agree, a walk succeeds exactly if a run to END exists, and allocation
  fails exactly if the placement rules leave no store for the macros.
- **Plans and the validator** (`Profile`, `Directory`, `Dedup`, `Plan`, `Validator`,
  `PlanValid`). The validator is proved against a declarative statement of a clean image, a
  compiled plan is shown to pass it exactly when the baseline bytes it keeps allow that, and a
  plan is determined by its configuration and baseline to the last byte.
- **Device and transaction** (`Device`, `Transaction`, `Persist`, `Backend`, `Lifecycle`).
  The mouse is a class that may drop, garble or silently commit writes, lose answers and
  raise from any call; ghost records hold the memory before and after every write call, every
  attempt at a sector, and the number of failed calls that nobody catches. What a run keeps is
  stated for every prefix of it, and what ends it by what failed. `Persist.AppliedPlanValidates`
  joins this to the compiler: a normal return means a device image that validates.
- **Registry** (`Ids`, `Registry`, `Issuance`). Each region under the registry lock is a
  method proved equal to a function on values, and those functions are the atomic steps of a
  machine in which threads, evictions and dying owners interleave freely.
- **Terminal interface** (`Tui`, `TuiRuns`, `View`, `Runner`). The transition function, the
  view and the effect runner, with invariants over all event sequences. Requests are assumed
  to carry fresh issuance numbers, and a persistent kind only with a preparation.
- **Baseline directories** (`Files`, `CrashSafe`, `Recovery`). The file system is a map from
  names to directories with atomic rename and file-by-file deletion. Which calls raise, and
  which files a deletion takes before it raises, is a fault schedule given beforehand; every
  intermediate state is a crash point.
- **Checksums and escapes** (`CrcBits`, `Crc`, `Sector`, `Escape`).

## Where the code and its promises part

- An action is accepted in any letter case, but the direct forms compare the name as written.
  `Frontend.BindingFails` says exactly which accepted actions then fail to compile, and
  `Frontend.UpperCaseMouseIsRefused` is one of them.
- Replacing a baseline is meant to be recoverable after any interruption. A crash inside the
  rollback's own deletion can leave a directory in place that no longer loads; the next start
  then refuses although the old copy is intact. `Recovery.ReplaceBaseline` says for every
  fault schedule whether some crash of that replacement does so, `Recovery.CrashLeavesOldOrNew`
  says which states those are, and `Recovery.InterruptedRollback` runs a replacement into one.
- The rollback of a replacement does not cover an exception raised after the first rename and
  before the second: the old directory then stays set aside until the next start puts it
  back. `CrashSafe.PrivateReplaceDir` says which failing calls restore the old directory and
  which do not, and `Recovery.InterruptedSwap` runs into this end.
- A plan validates only if the baseline bytes it keeps are ones the validator knows and no
  configured macro is a bare END, which the validator refuses. `PlanValid.PlanValidates` states
  the condition in both directions, `Frontend.BareEndSaysNothing` says which specifications
  compile to a bare END, and `Frontend.EmptyTextIsAccepted` is one of them: an empty text.
- The backend sets its post-validation flag before it looks at the report, so a failed
  post-validation is reported as completed. `Backend.PostValidate` and `Backend.ExecuteReal`
  follow the code. `Backend.ApplyCompiled` gives the exact outcome on an undisturbed device: a
  plan over a baseline that does not suit it is written, reconciled and then reported as failed
  with both flags set. `Backend.EmptyTextSuitsNothing` is such an input.

- While a plan is being applied, profile 2 stays enabled. If its planned page was on the device
  before the run and a macro sector was not, the page may point into a macro that is being
  rewritten. `Transaction.ProfileDanglesOnlyIfThere` says that this is the only case.

## Model

| member | source | states |
|---|---|---|
| Crc.BitSerial | g502x_onboard/codec.py:51-59 | the shift register run eight times a byte computes the same register value as the byte-parallel form, on every byte string |
| Crc.ByteParallel | libs/utils.py:66-76 | the two-register form without an inner loop computes that same value, so the two implementations agree everywhere |
| Crc.RegisterConcat | g502x_onboard/codec.py:51-59 | the register of a concatenation is the register of the second part started from that of the first |
| Crc.DetectsShortBursts | g502x_onboard/codec.py:51-59 | two different strings of equal length that differ only within one byte or two adjacent bytes never share a checksum |
| Sector.WithCrc | g502x_onboard/codec.py:62-67 | the payload is kept and the result passes the checksum test |
| Sector.PayloadLimit | g502x_onboard/codec.py:110-119 | a page of the wrong size has no limit; a page with a valid checksum that is not erased has 253 bytes of payload, and every other page 255 |
| Sector.CorruptionIsDetected | g502x_onboard/codec.py:70-74 | a valid page corrupted within one payload byte or two adjacent ones always fails the checksum test |
| Macro.TokenizeMacro | g502x_onboard/codec.py:484-513 | the offset loop returns the token list, or the error, of the recursive definition |
| Macro.TokenizeMeans | g502x_onboard/codec.py:484-513 | bytecode tokenizes to a list if and only if the list flattens to it, every element is a whole instruction and the last is END |
| Macro.SplitConcat | g502x_onboard/codec.py:484-513 | cutting at an instruction boundary cuts the token list in the same place |
| Macro.SplitOfFlatten | g502x_onboard/codec.py:484-513 | a flattened list of whole instructions splits back into that list |
| Vm.Decode | g502x_onboard/codec.py:934-1005 | a decoded instruction lies inside the payload limit of its page, has its opcode's size, and carries a target exactly for JUMP |
| Vm.WalkMeans | g502x_onboard/codec.py:1008-1038 | on any pages a walk succeeds if and only if a run exists: at most 4096 distinct addresses from the start to the first END, each a whole instruction inside its page's payload, each followed by the big-endian target of its JUMP or by the next instruction of its page; the walk visits exactly that run |
| Vm.WalkMacro | g502x_onboard/codec.py:1008-1038 | the walking loop with its seen set and 4096 limit succeeds exactly if such a run exists and returns it |
| PageBuffers.WriteBytes | g502x_onboard/codec.py:538-663 | a slice assignment into one of eight distinct buffers changes exactly those bytes of that page |
| Allocator.FitTokens | g502x_onboard/codec.py:585-594 | the loop takes as many instructions as fit beside a JUMP: the next one does not fit, and what is taken and what is left make up the whole |
| Allocator.WriteLastFragment | g502x_onboard/codec.py:571-583 | the last fragment holds the rest of the macro, leaves all earlier bytes and fragments alone and keeps the byte accounts |
| Allocator.WriteJumpingFragment | g502x_onboard/codec.py:608-629 | a jumping fragment names the next page at offset 0 and is written with its JUMP; it fails exactly on the last page |
| Allocator.PlaceMacro | g502x_onboard/codec.py:549-638 | one macro is laid out as linked fragments from the place the rules give it; abandoned pages carry at least 246 source bytes; the missing-JUMP-space branch cannot be reached; a refusal comes with the part of the macro that was laid out and a rest that does not fit on the last page |
| Allocator.PlaceNext | g502x_onboard/codec.py:548-638 | one turn of the loop over macros keeps everything placed before and adds the next macro, or fails for the tokenizer's reason or because there is no room behind the macros placed |
| Allocator.AllocateUniqueMacros | g502x_onboard/codec.py:538-663 | it succeeds if and only if some store holds the macros as the placement rules demand; on success every macro is placed in place, fragments are disjoint and in order, cut only where they must be, pages carry valid checksums and nothing outside the fragments; a refusal is the first macro the tokenizer refuses, or comes with the macros placed so far and the one that finds no room; every list of at most 1970 bytes of one- to three-byte instructions is allocated |
| Packing.LayoutIsUnique | g502x_onboard/codec.py:570-634 | from a given position a macro has at most one layout, whatever else is on the pages |
| Packing.StuckIsFinal | g502x_onboard/codec.py:596-615 | a macro that gets stuck on the last page has no layout from that position at all |
| Allocator.RefusalIsFinal | g502x_onboard/codec.py:548-638 | macros that ran out of room once fit no store |
| Allocator.StoreIsUnique | g502x_onboard/codec.py:538-663 | the macros determine the store to the last byte |
| Allocator.FinishStore | g502x_onboard/codec.py:640-663 | the checksums go in without touching a payload byte, and the five figures are the ones of the fragments: JUMP overhead is five times the number of JUMPs, waste is what lies between the fragments, and the usable rest starts where the last fragment ends |
| Linking.WithinBudget | g502x_onboard/codec.py:1008-1038 | a placed macro executes well below the 4096-instruction limit |
| Linking.LinkedMacroRuns | g502x_onboard/codec.py:538-663 | from a macro's start the walker runs to END and executes exactly the source instructions, JUMPs left out, with no cycle, fall-off, truncation or limit |
| PlanValid.AllocatedMacroRuns | g502x_onboard/codec.py:538-663 | the same for every macro of every list the allocator accepts, on the finished pages |
| Frontend.ActionFails | g502x_onboard/codec.py:383-414 | which accepted action trees the recursive compiler refuses, exactly |
| Frontend.BindingFails | g502x_onboard/codec.py:455-481 | an accepted specification fails to compile if and only if it contains text without a key or is a mouse action not written in lower case |
| Frontend.UpperCaseMouseIsRefused | g502x_onboard/codec.py:445-452 | a concrete accepted action, spelled `Mouse`, that the compiler refuses: acceptance ignores case, the direct form does not |
| Frontend.WheelSlotIsDirect | g502x_onboard/config.py:162-197 | a consumer action accepted for a wheel slot compiles, and to a direct binding exactly when its name is written in lower case |
| Frontend.DirectExactly | g502x_onboard/codec.py:455-481 | an accepted specification is bound directly if and only if it is an alias, or is named in lower case and is a mouse or consumer action or a chord without the Windows key |
| Frontend.AcceptedExactly | g502x_onboard/config.py:34-120 | an action without steps is accepted if and only if it has only fields its kind knows and compiles; a text needs a known layout and a mouse action a known button instead |
| Frontend.BareEndSaysNothing | g502x_onboard/codec.py:455-481 | an accepted specification compiles to a bare END if and only if every leaf of it is an empty text, through any nesting of sequences |
| Frontend.EmptyTextIsAccepted | g502x_onboard/codec.py:312-326 | a text with an empty value is accepted and compiles to a bare END |
| Emission.CompileHotkey | g502x_onboard/codec.py:266-284 | modifiers are pressed in order and released in reverse around the key |
| Emission.EmitAround | g502x_onboard/codec.py:266-284 | the two emission loops produce the bracketed sequence |
| Emission.CompileText | g502x_onboard/codec.py:312-326 | characters are emitted one after the other with their modifiers held around them, or the first one without a key is refused |
| Emission.MacroIsClean | g502x_onboard/codec.py:383-414 | compiled bytecode tokenizes, has one- and three-byte instructions only, END last and nowhere else, no JUMP, and every key and consumer press released |
| HostSide.HostConcat | g502x_onboard/codec.py:383-414 | what the host notices of two runs of instructions is what it notices of one after the other |
| Meaning.CharsMean | g502x_onboard/codec.py:287-326 | text round-trips: read back through a US keyboard, what a compiled text types is the text |
| Meaning.StepsMean | g502x_onboard/codec.py:408-413 | the code of a sequence is cut into consecutive pieces, each of which does what its own step asks for |
| Meaning.MacroPerforms | g502x_onboard/codec.py:383-481 | a compiled macro makes the host notice exactly what its specification asks for, in its order: key names with everything held, characters, milliseconds, signed scrolling by axis, controls; nothing stays held |
| Meaning.BindingMeans | g502x_onboard/codec.py:417-452 | a direct binding names the keys and modifiers, the control or the button its specification names |
| Meaning.AliasesMean | g502x_onboard/constants.py:134-142 | each alias, in any letter case, is bound to its four bytes |
| Profile.OneSlot | g502x_onboard/codec.py:122-131 | a binding slot is written without touching any other slot |
| Profile.NeutralizeMacroPointers | g502x_onboard/codec.py:705-713 | every slot becomes its neutral form and every other byte is kept |
| Profile.WriteDpi | g502x_onboard/codec.py:677-681 | the five stored values are the given ones padded with zero, and no byte outside them changes |
| Profile.ChooseSlot | g502x_onboard/codec.py:683-697 | a chosen DPI is stored as its position in the list; the call fails exactly when it is not there |
| Profile.ApplySettings | g502x_onboard/codec.py:666-702 | it succeeds exactly when the chosen DPI values exist, and then every settings field holds the requested value |
| Directory.ValidateDirectory | g502x_onboard/codec.py:181-218 | it accepts exactly a checksummed page that differs from the baseline in managed bytes only and has admissible flags, and returns the enabled profiles |
| Directory.BuildDirectory | g502x_onboard/codec.py:221-233 | it succeeds exactly on baselines that enable profiles 1 and 2, and enables exactly the requested profiles |
| Directory.DirectoryIsUnique | g502x_onboard/codec.py:221-233 | baseline and profile set determine the directory page completely |
| Plan.CompileAll | g502x_onboard/codec.py:719-738 | it succeeds if and only if every configured specification compiles; then every configured route, and no other, has the item its specification compiles to, and otherwise the named route is configured and fails for the reason given |
| Plan.CompilationByText | g502x_onboard/codec.py:719-738 | every specification compiles if and only if none contains a character without a key or is a mouse action not written in lower case |
| Dedup.Deduplicate | g502x_onboard/codec.py:740-760 | distinct bytecodes are kept once each, every macro route maps to its own bytecode, and indices follow the first routes that use them |
| Dedup.RoutesAreSorted | g502x_onboard/codec.py:744-745 | routes are visited in the order of their names as strings |
| Dedup.DedupIsUnique | g502x_onboard/codec.py:740-760 | the compiled routes determine the list of macros, its order and every index |
| Plan.MacroPointer | g502x_onboard/codec.py:530-535 | the four pointer bytes are a macro pointer from which the sector and the offset are read back |
| Plan.CompiledMacrosAreShort | g502x_onboard/codec.py:740-762 | the macros handed to the allocator meet its precondition |
| Plan.WriteDefaults | g502x_onboard/codec.py:774-786 | unconfigured slots get their default, everything outside the slots is kept |
| Plan.WriteRoutes | g502x_onboard/codec.py:788-818 | each configured slot holds its direct binding or its macro's pointer, each other slot its default |
| Plan.BuildProfile | g502x_onboard/codec.py:774-825 | it succeeds exactly when the chosen DPI values exist, and then bindings, settings and checksum are the planned ones |
| Plan.BuildPlan | g502x_onboard/codec.py:716-855 | it succeeds if and only if every specification compiles, the macros have a store, the chosen DPI values exist and the baseline enables profiles 1 and 2; each error means the matching condition fails; a returned plan has items for exactly the configured routes, one macro per bytecode, an accepted store, a page for every profile and a matching directory |
| Plan.SlotBytes | g502x_onboard/codec.py:774-818 | a planned page slot by slot, in bytes: binding or pointer where configured, nothing on other shifted slots, the mark on the G-Shift button, the baseline elsewhere unless it points into the macro store |
| Plan.SettingsOnPage | g502x_onboard/codec.py:666-702 | the settings of a planned page, in bytes: the report interval, the little-endian DPI words, the slots of the two chosen values, the padded name |
| Plan.PlanIsUnique | g502x_onboard/application/_persistent_backend.py:128-135 | compiling an unchanged configuration over an unchanged baseline gives the same plan to the last byte, so the comparison with the reviewed plan refuses only changes |
| Validator.CheckRoute | g502x_onboard/validator.py:126-186 | one binding adds an error exactly when it is not acceptable, and a macro start exactly when it is a macro pointer |
| Validator.CheckProfile | g502x_onboard/validator.py:108-186 | a profile adds no error exactly when its fields and bindings are acceptable, and adds exactly its macro starts |
| Validator.WalkStarts | g502x_onboard/validator.py:188-194 | no error is added exactly when every collected start walks to END |
| Validator.ValidateImages | g502x_onboard/validator.py:58-196 | the report is empty if and only if the image is complete, keeps the recovery sectors, has an acceptable directory, valid profile checksums and, for enabled profiles, acceptable fields and macros that run |
| PlanValid.PlanValidates | g502x_onboard/codec.py:716-855 | a plan laid over the baseline passes the validator if and only if the kept baseline bytes are acceptable ones and no configured specification is made of empty texts alone |
| PlanValid.RouteRunsItsMacro | g502x_onboard/codec.py:716-855 | on any images with the planned macro pages and profile page, the pointer stored for a configured macro route runs that route's own bytecode, and that does what the route's specification asks for |
| Device.Mouse.ReadPage | g502x_onboard/device.py:241-277 | it returns exactly the page prefix for every size from 16 to 255, never takes its early exit, and refuses other sizes and pages |
| Device.Mouse.WriteSector | g502x_onboard/device.py:316-353 | a normal return means the sector holds the data, whatever was lost on the way; a fault-free device receives all 255 bytes from the sixteen padded chunks |
| Device.Mouse.WriteWithRetries | g502x_onboard/device.py:844-888 | the attempts and what each left in the sector decide the end: committed is a success, as before is tried again until no attempt is left and is then `Unchanged`, anything else is `Indeterminate`; only a failure nobody catches ends it otherwise |
| Device.Mouse.FreshWriteSector | g502x_onboard/device.py:817-888 | the same behind the gates on the managed domain and on write permission; no other sector changes and a correct sector is not written |
| Device.Mouse.WriteStart | g502x_onboard/device.py:316-330 | a write never starts unless the host was found clear since the previous one |
| Transaction.BeforesAgree | g502x_onboard/device.py:817-888 | writes confined to one sector leave every memory they pass through alike elsewhere |
| Transaction.StageKeepsRun | g502x_onboard/device.py:932-957 | a stage begun on settled ground keeps the run safe, wherever it stops |
| Transaction.MacrosComeFirst | g502x_onboard/device.py:938-957 | every write to a profile sector finds all macro sectors at their targets, and every write to profile 2 finds the other profiles at theirs as well |
| Transaction.WritesKeepOrder | g502x_onboard/device.py:938-957 | a sector is written only when every sector before it in the order 8 to 15, 3, 4, 5, 2 holds its target |
| Transaction.MacrosStay | g502x_onboard/device.py:850-854 | macro sectors that all hold their targets are not written again |
| Transaction.ProfileDanglesOnlyIfThere | g502x_onboard/device.py:929-957 | a run can show a profile's target page over macro sectors that do not hold their targets if and only if the page was there before it and some macro sector was not |
| Transaction.ValidateRecoveryImages | g502x_onboard/device.py:641-648 | it accepts exactly images with the baseline's recovery sectors and an acceptable directory |
| Transaction.ValidateRecoveryFresh | g502x_onboard/device.py:891-899 | a normal return means the device has the baseline's recovery sectors and an acceptable directory |
| Transaction.WriteManaged | g502x_onboard/device.py:929-957 | every run, complete or cut short at any call, is a safe run; a normal return leaves every managed sector at its target; without a failure that nobody catches it fails only over a sector that could not be brought to its target; it cannot fail on an undisturbed device |
| Transaction.RecoveryIsNeverWritten | g502x_onboard/device.py:902-972 | in every memory a run passes through sectors 1, 6 and 7 are as they were |
| Transaction.DirectoryIsStagedDuringWrites | g502x_onboard/device.py:929-957 | until the final directory write begins, the directory in place enables profiles 1 and 2 alone |
| Transaction.FinalWriteFindsTargets | g502x_onboard/device.py:949-957 | the final directory write finds all twelve macro and profile sectors at their targets and leaves them there |
| Persist.Reconcile | g502x_onboard/device.py:959-970 | a normal return means all thirteen managed sectors were read back equal to the target |
| Persist.NewProfilePerforms | g502x_onboard/device.py:902-957 | in every memory a run of a compiled plan passes through, each macro route of a planned profile page runs its own bytecode and does what was asked for, unless the page was there before and the macro sectors were not |
| Persist.ApplyPlan | g502x_onboard/device.py:902-972 | safe on every run; a normal return means the plan is on the device and the recovery sectors are the baseline's |
| Persist.RestoreBackup | g502x_onboard/device.py:975-1069 | the same for a backup; one that does not validate or is no longer the reviewed one is refused before anything is written |
| Persist.RestoreBaseline | g502x_onboard/device.py:1072-1141 | the same for the baseline, validated once more at the end |
| Persist.AppliedPlanValidates | g502x_onboard/device.py:902-972 | after a normal return of applying a compiled plan the whole device passes the validator if and only if the baseline suits the configuration |
| Transaction.Hooks.CheckCancel | g502x_onboard/application/_persistent_backend.py:89-93 | the token is read once, and a set token is an immediate cancellation |
| Backend.Revalidate | g502x_onboard/application/_persistent_backend.py:101-121 | a normal return means baseline, unit and managed domain are still the reviewed ones |
| Backend.PostValidate | g502x_onboard/application/_persistent_backend.py:194-220 | finishing means the whole device validates; undisturbed, it finishes if the device validates and otherwise fails with both evidence flags set |
| Backend.ExecuteReal | g502x_onboard/application/_persistent_backend.py:96-229 | a cancelled run has written nothing; phases come in order and writes only after WRITING; the token is read just before WRITING and never after; reconciled means the target is on the device; success means the reviewed target is there and the whole device validates; an undisturbed run always writes its target, and finishes if that validates and fails with both flags set if not |
| Backend.ApplyCompiled | g502x_onboard/application/_persistent_backend.py:96-229 | on an undisturbed device a compiled plan is always written, and the run finishes if and only if the baseline suits the configuration; otherwise it fails with both flags set and the device does not validate |
| Backend.EmptyTextSuitsNothing | g502x_onboard/codec.py:312-326 | a valid configuration, one button with an empty text, that no baseline suits |
| Lifecycle.TraceIsFaithful | g502x_onboard/application/persistent.py:550-552 | the trace holds exactly the announced phases and never one twice in a row |
| Lifecycle.ExecuteAccepted | g502x_onboard/application/persistent.py:542-668 | for any backend: success exactly when all four phases were announced and both flags returned; code, status and message are given exactly, `FailedAfterWrite` if and only if it failed without cancellation after WRITING was announced; post-validation is reported only with reconciliation |
| Lifecycle.ReportReal | g502x_onboard/application/persistent.py:542-668 | with the real backend's phases, success is reported exactly when it finished, cancellation exactly when it stopped, writing exactly when it was announced and post-validation exactly when its flag was set |
| Lifecycle.ExecuteAndReport | g502x_onboard/application/persistent.py:542-668 | from acceptance to result: a cancelled result, and any result that does not report writing, means no sector was written; it is cancelled exactly when a set token was read; reconciled means the target is on the device; success means the device validates |
| Ids.SerialIsRecovered | g502x_onboard/application/persistent.py:71-75 | the serial can be read back from any identifier, whatever the caller's text |
| Ids.IssuedIdsNeverRepeat | g502x_onboard/application/persistent.py:71-75 | two identifiers are equal only for the same text and serial |
| Registry.PreparationRegistry.AddTombstone | g502x_onboard/application/persistent.py:78-94 | a tombstone replaces any older one of its key, goes to the end, and at most 128 are kept |
| Registry.PreparationRegistry.RetireAt | g502x_onboard/application/persistent.py:97-111 | an entry becomes a tombstone |
| Registry.PreparationRegistry.ReclaimDead | g502x_onboard/application/persistent.py:114-122 | idle entries and tombstones of dead owners go, in place and in order |
| Registry.PreparationRegistry.MakeActiveRoom | g502x_onboard/application/persistent.py:125-137 | the eviction loop computes the specified state and answer |
| Registry.PreparationRegistry.RegisterPreparation | g502x_onboard/application/persistent.py:331-357 | one locked region computes the specified state and answer |
| Registry.PreparationRegistry.CheckPreparation | g502x_onboard/application/persistent.py:720-761 | the first locked region reclaims dead owners and then passes exactly a live preparation of this owner that equals the presented one and is not consumed |
| Registry.PreparationRegistry.AcceptPreparation | g502x_onboard/application/persistent.py:770-806 | the second locked region accepts exactly a live, owned, equal and unconsumed entry, marks it and hands out its intent |
| Registry.PreparationRegistry.FinishAccepted | g502x_onboard/application/persistent.py:671-685 | the finishing region retires the entry as consumed, reclaims and trims |
| Registry.RoomIsMade | g502x_onboard/application/persistent.py:125-137 | making room fails exactly when all 32 entries are executing, evicts only the oldest idle one, only when all places are taken, and leaves its tombstone; an executing one is never evicted |
| Registry.CheckMeans | g502x_onboard/application/persistent.py:720-761 | what each verdict of the first region means, in both directions: passed, tampered, consumed and stale, by what the registry holds under that key for that owner |
| Registry.RecheckMeans | g502x_onboard/application/persistent.py:770-806 | the second region accepts exactly what the first one passes, and reports anything that changed in between as consumed or stale |
| Registry.RegisterIsSound | g502x_onboard/application/persistent.py:331-357 | registration keeps bounds, disjoint keys and issuance order, never collides, refuses only when everything is executing, and no entry goes but those of dead owners and the one that has to |
| Registry.AcceptIsSound | g502x_onboard/application/persistent.py:803-806 | acceptance marks one entry and changes no other |
| Registry.FinishIsSound | g502x_onboard/application/persistent.py:671-685 | finishing removes exactly the finished entry and the idle entries of dead owners, and drops no living owner's tombstone while places are free |
| Registry.FinishedIsConsumed | g502x_onboard/application/persistent.py:682-685 | a finished preparation presented again is answered as consumed |
| Issuance.EachIntentRunsOnce | g502x_onboard/application/persistent.py:688-846 | over every interleaving each issued intent reaches the backend at most once, for its owner only, with the prepared value as issued and its phrase typed |
| Issuance.EveryRunIsSound | g502x_onboard/application/persistent.py:63-137 | over every interleaving the registry keeps its bounds, disjoint keys and issuance order |
| Issuance.RegistrationNeverFails | g502x_onboard/application/coordinator.py:14-31 | because the claim is process-wide at most one entry is executing, so a living owner's registration always succeeds |
| Issuance.ExecutingSurvives | g502x_onboard/application/persistent.py:114-137 | an executing entry survives every step but its own finish |
| Files.PartsNeverMix | g502x_onboard/baseline.py:399-422 | a directory that lost files fails to load or loads exactly as the whole one |
| Files.LoadMeans | g502x_onboard/baseline.py:399-422 | a baseline is loaded if and only if the manifest is a supported one of this unit and all sixteen files hold what it says, and then it is what they hold |
| Files.NeededIsEnough | g502x_onboard/baseline.py:399-422 | what is left of a directory that loads still loads if and only if the manifest and all sixteen sector files are there |
| Files.FileSystem.RemoveTree | g502x_onboard/private_io.py:324-336 | every state of a deletion is the directory with some files gone, or without it |
| CrashSafe.PrivateCommitDir | g502x_onboard/private_io.py:304-321 | publishing is one atomic rename onto a free name |
| CrashSafe.RollBack | g502x_onboard/private_io.py:379-387 | the handler restores the old directory unless its deletion or its rename raises, and passes a state with a needed file missing exactly when its deletion takes one |
| CrashSafe.PrivateReplaceDir | g502x_onboard/private_io.py:339-391 | the end follows from which calls raise; all states before the handler are the old, set-aside, cleaning or published ones and only a rollback enters the handler; the old directory is back in place after exactly the untouched and the rolled-back ends |
| Recovery.ActiveBaseline | g502x_onboard/baseline.py:447-507 | a missing baseline is put back from its single valid previous copy, nothing unverified is returned, and asking again gives the same answer |
| Recovery.ForwardRecovers | g502x_onboard/private_io.py:372-391 | a replacement interrupted anywhere outside its handler is recoverable: the next start finds the whole new baseline once it is in place and the whole old one before |
| Recovery.CrashLeavesOldOrNew | g502x_onboard/baseline.py:447-507 | after a crash in any state the next start finds wholly the old or wholly the new baseline or refuses; with no other valid copy it refuses exactly when the new directory is in place without its manifest or one of its sector files, and the old one is then still set aside |
| Recovery.ReplaceBaseline | g502x_onboard/private_io.py:339-391 | for every fault schedule: some crash of the replacement makes the next start refuse if and only if the call after the second rename raises and the handler's deletion takes a needed file; without a rollback none does |
| Recovery.InterruptedRollback | g502x_onboard/private_io.py:379-387 | any replacement, run with its fifth and sixth call raising and the manifest deleted first, ends where the next start refuses with the old directory intact |
| Recovery.InterruptedSwap | g502x_onboard/private_io.py:372-374 | any replacement, run with its third call raising, leaves the old directory set aside, and the next start finds it |
| Tui.ClearingIsSane | g502x_onboard/tui/update.py:116-156 | changing the surface drops every payload it forbids, and an operation past its preparation that loses it is abandoned |
| Tui.PreparedIsSane | g502x_onboard/tui/update.py:325-355 | taking a preparation raises the surface far enough to show it |
| Tui.FailureIsSane | g502x_onboard/tui/update.py:527-601 | failures and transport faults keep the privacy and operation invariants |
| Tui.PersistentEndIsSane | g502x_onboard/tui/update.py:630-732 | persistent results keep them too |
| Tui.ReachableModelsAreSane | g502x_onboard/tui/update.py:186-732 | in every reachable model each stored payload may be shown and a typed path never sits on a shareable surface |
| TuiRuns.StepEvolves | g502x_onboard/tui/update.py:186-732 | each event changes the active operation, the preparation, the terminal state and the effects only as specified |
| TuiRuns.ExecutionIsGated | g502x_onboard/tui/update.py:402-424 | over whole traces an execution carries the value last received for its operation, acknowledged since and not withdrawn, and exactly its phrase |
| TuiRuns.ExecutionIsSingle | g502x_onboard/tui/update.py:402-424 | over whole traces each issuance asks for execution at most once |
| TuiRuns.SafetyPhasesHold | g502x_onboard/tui/update.py:426-488 | a non-cancellable phase ends only with the operation's own result, and the phase moves one step along the chain |
| TuiRuns.SuccessIsEvidenced | g502x_onboard/tui/update.py:630-700 | a persistent success on display always carries its three flags |
| TuiRuns.PersistentSuccessIsItsOwn | g502x_onboard/tui/update.py:630-700 | while a persistent operation is active only its own consistent result shows success |
| TuiRuns.ResultIsDisplayed | g502x_onboard/tui/update.py:630-732 | a result that is taken is displayed with its own flags and code, as a success exactly if all its evidence agrees |
| TuiRuns.FailureIsDisplayed | g502x_onboard/tui/update.py:527-628 | a failure ends its operation and is displayed with its code, unless the operation is in a safety phase or waits for review |
| TuiRuns.EffectsAreExact | g502x_onboard/tui/update.py:240-501 | which event asks for which effect, with which of the typed inputs, and that no other does |
| View.ForbiddenContentIsInvisible | g502x_onboard/tui/view.py:123-283 | changing the content of payloads the surface forbids never changes the view |
| View.ReachableViewsAgree | g502x_onboard/tui/view.py:123-283 | in reachable models the view withholds nothing that is stored, and a shareable view shows no typed path |
| View.MatchingConfirmationIsAccepted | g502x_onboard/tui/view.py:193-216 | when the view reports a matching confirmation of an acknowledged review, submitting it is accepted |
| Runner.EffectRunner.ClaimEffect | g502x_onboard/tui/runner.py:91-101 | each issuance and effect type is claimed at most once, and never after retirement |
| Runner.EffectRunner.RetireOperation | g502x_onboard/tui/runner.py:103-112 | the watermark only rises and everything at or below it is released |
| Runner.EffectRunner.RequestCancellation | g502x_onboard/tui/runner.py:114-122 | a cancellation sets the token or is kept for it, and is acknowledged |
| Runner.EffectRunner.OpenToken | g502x_onboard/tui/runner.py:272-279 | a cancellation kept earlier is set when the execution starts |
| Runner.EffectRunner.RunExecute | g502x_onboard/tui/runner.py:272-333 | every observed phase is reported in order and exactly one event ends the execution |
| Runner.EffectRunner.RunExecutionEffect | g502x_onboard/tui/runner.py:58-89 | an execution effect is run at most once and its operation is retired whatever happens |
| Runner.EffectRunner.RunPrepareEffect | g502x_onboard/tui/runner.py:219-270 | a preparation is run at most once and stays unretired exactly when it succeeded |
| Runner.EngineFollows | g502x_onboard/tui/update.py:426-488 | phases announced in order take the engine from confirming to the last announced phase, and the preparation stays |
| Runner.UnresolvedStaysOpen | g502x_onboard/tui/runner.py:297-330 | the report of an execution that stopped while writing keeps the operation open and unresolved if and only if the engine is in a non-cancellable phase; otherwise the operation ends, never as a success |
| Runner.InterruptedWritingStaysOpen | g502x_onboard/tui/runner.py:297-330 | from confirming on, an execution that announced its phases in order and stopped while writing leaves the operation open and unresolved, never failed |
| Runner.AnswerIsDisplayed | g502x_onboard/tui/runner.py:272-296 | an execution that answers is displayed with the result's own flags and code, whatever phases came before |
| Escape.UnescapeBytes | libs/utils.py:98-123 | exactly text made of whole tokens is decoded, and escaping the result gives that text in lower case |
| Escape.EscapedIsAccepted | libs/utils.py:93-95 | every escaped text is accepted |
| Escape.EscapeIsInjective | libs/utils.py:93-95 | no two byte strings escape to the same text |

## Left out

- HID transport, DLL loading, device identity and policy tables, host process scans: foreign calls, modelled as calls that may raise.
- Operating-system file locks, permissions and `fsync` durability: modelled as calls that may raise and change nothing.
- Command line, application facade, rendering, public reports, fake backends and release tooling: delegation, test doubles and long record comparisons.
- SHA-256: a digest stands for the content it is taken of, so equal digests are equal content.
- JSON syntax: configurations start as parsed values; the outer layers of `validate_config` are the typed record `Plan.Block` and the predicate `Plan.ValidConfig`, while the recursive action check is modelled branch by branch in `Config`.
- Letter case and white space outside ASCII, UTF-16 decoding of profile names, and display metadata.
- Messages of errors, except where the terminal interface shows or stores them; sleeps, prints and timestamps.
- Parsing of the typed profile number: the effect carries the text.
- Review lines and labels of the view: renderings of fields the modelled view already shows.
- Active-profile switching: it changes no sector, so it is one of the calls that may raise.
- Backup capture and loading: a backup is a complete image that is read again at each use.
- Building the staging directory, discarding it after a failure, and the active-baseline pointer file: they touch none of the directories recovery looks at.
- Identity of cancellation tokens: the runner's token is the value it holds for an issuance.
- Thread scheduling inside one runner method: each lock region is one step, and the methods between them are taken in order.
- Memory beyond the sixteen sectors: read-only pages with fixed content.
- Runner.EffectRunner.RunExecutionEffect: takes what the facade observes and answers as inputs, so how that depends on the token is stated for the backend instead.
