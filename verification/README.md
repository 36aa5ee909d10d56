# Verified models of the host agent

A Dafny 4.11 model of the algorithms and state machines inside the Linux host agent and its
jump controller, with proofs about them. `dafny verify dfyconfig.toml` checks everything.

| file | what it models |
|---|---|
| `Glob.dfy` | the glob compiler and the matcher that remembers one star |
| `Md5Rfc.dfy`, `Md5Soft.dfy`, `Md5Loong.dfy`, `Md5Core.dfy` | section 3.4 of RFC 1321 as a 64-step loop, the unrolled and the LoongArch backend measured against it, the hasher with its length counter and saved states |
| `NetBlock.dfy` | the IP block table: batches, timers, lock waits and aborts as a step system |
| `ProcessPolicy.dfy` | white and black hash lists mirrored into the kernel by commands |
| `PatternRules.dfy`, `PatternText.dfy`, `PatternRuns.dfy`, `PatternMeaning.dfy` | directory policies compiled into kernel tables and reloaded on change; the text that is compared; what whole runs leave in the kernel; what the rows say about a path |
| `IpJump.dfy` | the address jump with its default route and rollback, and the ledger of secondary addresses |
| `JumpController.dfy` | the controller's instruction queue and cyclic generator |
| `PublicSuffix.dfy` | splitting a domain at its public suffix |
| `FileTransfer.dfy` | the framed file transfer |
| `Snowflake.dfy` | time-ordered identifiers |
| `Common.dfy`, `Arithmetic.dfy`, `BitLists.dfy`, `Decimals.dfy` | options and 64-bit numbers, division with remainder, words as bits, numbers as text: shared by the above |

Code that changes state in place is a class or a method here, proved equal to a function; the
properties are proved of the functions, over all inputs and all runs. What the outside world
decides (whether a command works, what a look answers, how a connection is cut into pieces,
when a timer fires, in which order a set is visited) is a parameter or a nondeterministic
choice, so a theorem covers every way it can go.

## Where the code does not do what one would expect

Each of these is a lemma with a concrete run, beside the exact condition under which the code
behaves.

- Aborting a task that is being polled does not stop it. So an address made permanent can still
  be removed by its old timer (`NetBlock.LateAbort`), an address armed again can be removed
  before its new time is over (`NetBlock.ExpiredTooEarly`), and one address can end up with two
  running tasks (`NetBlock.TwoTasks`). Making an address permanent protects it if and only if
  its task is not in mid-poll at that moment and no stray task is left from before
  (`NetBlock.PermanentIff`); it is not removed early if and only if none of its live tasks can
  fire early (`NetBlock.NotEarlyIff`); and addresses and un-aborted tasks correspond one to one
  if and only if there are as many un-aborted tasks as handles (`NetBlock.OneToOneIff`), which
  fails exactly through an expiring task that takes away the handle of another
  (`NetBlock.RivalIff`).
- A reload is decided by comparing patterns and trusted processes but not rules, so the kernel
  can keep an outdated rule (`PatternRules.OutdatedRules`). After any calls its rules are the
  present ones if and only if the policies of the last reload and those in force now agree on
  read-write flags and on who names trusted processes (`PatternRuns.RulesCurrentIff`).
- A jump from an address to itself enters the address in the ledger, and ageing deletes it two
  rounds later (`IpJump.JumpToSelfIsAgedOut`); this is the only way for a target to get into
  the ledger (`IpJump.TargetSafeIff`).
- A jump can leave the interface with neither source nor target (`IpJump.StrandingJump`),
  exactly when the rollback does nothing after the source was taken off and the target could
  not be put on (`IpJump.StrandedIff`). The rollback of a jump that did nothing can lose the
  default route (`IpJump.RouteLost`), and, because the noted gateway may be that of any
  interface, it can give a second interface a default route (`IpJump.RouteCopied`); the exact
  condition for unchanged routes is `IpJump.RoutesKeptIff`.
- A transfer that arrives in one piece is reported as failed although the file was saved whole
  (`FileTransfer.OnePieceFails`). With later bytes on the connection, it succeeds if and only if
  the first piece ends within the body or another end marker follows the first piece, and the
  receiver swallows as many later bytes as that piece held from behind the body
  (`FileTransfer.SucceedsIff`). A path that ends with a carriage return arrives changed
  (`FileTransfer.PathNotReadBack`); paths survive if and only if they are free of newlines and
  of that (`FileTransfer.HeaderReadBack`).
- A wildcard line of the suffix list swallows any number of labels, not one
  (`PublicSuffix.SwallowedExample`), and the scan stops at the shortest suffix that is not
  listed where the format of the Public Suffix List takes the longest match, so that `com` and
  `a.b.com` make `b.com` of `x.a.b.com` (`PublicSuffix.GapExample`). The result is the
  registrable domain of the format if and only if everything shorter is taken for public and
  that domain is not (`PublicSuffix.SldAsMeantIff`).
- A cycle over a, b, a, c never gets to c (`JumpController.NeverReached`). The pools that are gone
  round in order are exactly those whose equal entries are followed by equal entries and none of
  whose entries with a prefix length stands beside its bare address
  (`JumpController.RoundRobinIff`).
- An escaped pattern may fail to match its own text when case is ignored
  (`Glob.FinalSigma`): the pattern is lowered by characters and the value as a whole, and the two
  have to agree (`Glob.EscapedMatchesItselfIff`).
- The 4097th identifier of one millisecond repeats the first (`Snowflake.LimitIsTight`), and so
  can one after a clock that steps back, with fewer calls in every millisecond
  (`Snowflake.BackwardsClockRepeats`). Two calls repeat if and only if they are a multiple of
  4096 calls apart at times equal modulo 2^43 (`Snowflake.RepeatsIff`).

## Model

| member | source | states |
|---|---|---|
| `Glob.Matches` | crates/utils/src/glob.rs:65-109 | the matcher answers true exactly for the values the compiled pattern denotes, within (pattern length + 1) * (value length + 1) iterations |
| `Glob.Compile` | crates/utils/src/glob.rs:21-62 | the compiled pattern denotes exactly what the pattern text means, whose laws are `LowerCaseLiteral`, `CaseDoesNotMatter`, `StarBetween`, `MarkBetween` and `EscapedMatchesExactly` |
| `Glob.LaterStarSuffices` | crates/utils/src/glob.rs:93-105 | whatever an earlier star could still match, the later star matches from where the matcher stands: forgetting the earlier star loses nothing |
| `Glob.RunKeeps` | crates/utils/src/glob.rs:72-108 | while there is no answer, every iteration looked at a new pair of positions and the question is still the same |
| `Glob.ParseMeaning` | crates/utils/src/glob.rs:26-56 | compiling keeps meaning, from any position and escape state |
| `Glob.LowerCaseLiteral` | crates/utils/src/glob.rs:46-54 | ignoring case, a text without special characters matches exactly the values of its length with the lower-case letter wherever it has a capital one, and equal to it elsewhere |
| `Glob.LiteralIgnoresCase` | crates/utils/src/glob.rs:46-70 | when the value is lowered letter by letter, that is equality up to case |
| `Glob.CaseDoesNotMatter` | crates/utils/src/glob.rs:26-56 | texts that differ only in the case of letters are the same pattern, wildcards and escapes included |
| `Glob.StarBetween` | crates/utils/src/glob.rs:28-35 | a star between two texts: the value begins with one, ends with the other, and they do not overlap |
| `Glob.MarkBetween` | crates/utils/src/glob.rs:36-38 | a question mark between two texts: exactly one character more |
| `Glob.ConcatMeaning` | crates/utils/src/glob.rs:13-18 | patterns in sequence denote the concatenation of their languages |
| `Glob.EscapedTextIsLiteral` | crates/utils/src/glob.rs:39-54 | an escaped text matches its own (lower-cased) form and nothing else |
| `Glob.EscapedMatchesExactly` | crates/utils/src/glob.rs:39-54 | case-sensitively, an escaped text matches itself and nothing else |
| `Glob.EscapedMatchesItselfIff` | crates/utils/src/glob.rs:46-70 | an escaped text matches itself always if case counts, and otherwise if and only if lowering it as a text and character by character agree |
| `Glob.FinalSigma` | crates/utils/src/glob.rs:46-70 | a word with a final sigma that its own pattern does not match |
| `Glob.CollapseKeepsLanguage` | crates/utils/src/glob.rs:28-35 | replacing runs of unescaped stars by one star leaves the language unchanged |
| `Md5Soft.CompressBlockInPlace` | crates/md5/src/compress/soft.rs:44-143 | the unrolled block function is the 64-step loop of section 3.4 of RFC 1321 plus the final addition |
| `Md5Soft.CompressSoft` | crates/md5/src/compress/soft.rs:146-150 | any list of blocks, the empty one included, is the fold of the block function |
| `Md5Soft.StepF` | crates/md5/src/compress/soft.rs:5-12 | the first-round operation is one RFC step on the registers in their roles |
| `Md5Soft.StepG` | crates/md5/src/compress/soft.rs:14-21 | the same for the second round |
| `Md5Soft.StepH` | crates/md5/src/compress/soft.rs:24-31 | the same for the third round |
| `Md5Soft.StepI` | crates/md5/src/compress/soft.rs:34-41 | the same for the fourth round |
| `Md5Loong.FrontEffect` | crates/md5/src/compress/loongarch64_asm.rs:9-49 | the boolean instructions of each macro compute that round's function and spare the live registers |
| `Md5Loong.TailEffect` | crates/md5/src/compress/loongarch64_asm.rs:51-63 | adding in another order and rotating right by 32 - s is the RFC's mixing operation |
| `Md5Loong.ProgramIsSchedule` | crates/md5/src/compress/loongarch64_asm.rs:79-146 | the 64 macro calls are the RFC's schedule of words, shifts and register roles |
| `Md5Loong.MacroIsStep` | crates/md5/src/compress/loongarch64_asm.rs:9-63 | one macro call is one RFC step |
| `Md5Loong.RunBlock` | crates/md5/src/compress/loongarch64_asm.rs:72-151 | the register program of one block computes the RFC's block function |
| `Md5Loong.CompressLoong` | crates/md5/src/compress/loongarch64_asm.rs:65-178 | for every state and block list the assembly backend computes the same state as the portable one |
| `Md5Core.LengthIsExact` | crates/md5/src/lib.rs:71-75 | the wrapping arithmetic gives 8 times the byte count modulo 2^64, however many blocks were counted |
| `Md5Core.UpdateConcat` | crates/md5/src/lib.rs:59-66 | feeding two batches of blocks is feeding them joined |
| `Md5Core.StreamedDigest` | crates/md5/src/lib.rs:59-82 | however a message is cut into pieces, the digest is the MD5 of the message |
| `Md5Core.RestoreSaved` | crates/md5/src/lib.rs:131-155 | restoring a saved state gives the state back |
| `Md5Core.SaveRestored` | crates/md5/src/lib.rs:131-155 | saving a restored state gives the 24 bytes back |
| `Md5Core.SavedBytes` | crates/md5/src/lib.rs:131-140 | which byte of a saved state is which |
| `Md5Core.DigestBytes` | crates/md5/src/lib.rs:77-81 | which byte of the digest is which |
| `Md5Core.ResumedDigest` | crates/md5/src/lib.rs:128-156 | saving and restoring between any two pieces does not change the digest |
| `Md5Core.Md5Hasher.UpdateBlocks` | crates/md5/src/lib.rs:61-65 | counter (wrapping) and state after a batch are those of the streaming law, `UpdateConcat` |
| `Md5Core.Md5Hasher.FinalizeFixedCore` | crates/md5/src/lib.rs:70-81 | the output is the digest that `StreamedDigest` identifies with MD5, and the hasher is left unchanged |
| `Md5Core.Md5Hasher.Serialize` | crates/md5/src/lib.rs:131-140 | the 24 bytes that `RestoreSaved` reads back |
| `Md5Core.Md5Hasher.Deserialize` | crates/md5/src/lib.rs:142-155 | the hasher that `SaveRestored` writes back to the same bytes |
| `NetBlock.BlockTable.UpdateAndWritePolicies` | crates/netblock/src/ip_policy.rs:28-82 | a batch under both locks: the last policy of the batch for every address it names, the old entry for every other, then the files rewritten, with success exactly if no operation failed |
| `NetBlock.BatchEnters` | crates/netblock/src/ip_policy.rs:33-75 | after a batch the table has the addresses it had and those the batch names, with the last policy for the latter and the old one for the others |
| `NetBlock.BatchIsItsSteps` | crates/netblock/src/ip_policy.rs:33-75 | the loop of a batch is as many steps of the step system as it has policies, with the same tables |
| `NetBlock.MirrorMeans` | crates/netblock/src/ip_policy.rs:89-101 | the two files list the addresses by their family |
| `NetBlock.WritePoliciesToProc` | crates/netblock/src/ip_policy.rs:85-156 | on success the two files hold exactly the IPv4 and IPv6 addresses; on failure only what was written up to that point; success exactly if none of its operations failed |
| `NetBlock.StepKeeps` | crates/netblock/src/ip_policy.rs:28-82 | every step of batches, timers, lock waits and aborts keeps locks, handles, keys and files in agreement |
| `NetBlock.TablesAgreeOnEveryRun` | crates/netblock/src/ip_policy.rs:28-82 | on every run, whenever the lock is free: the task map has exactly the addresses with a positive duration, each with a live task for it that is not cancelled, and after a successful write the files mirror the table |
| `NetBlock.OneTaskPerTimedAddress` | crates/netblock/src/ip_policy.rs:35-71 | an address none of whose tasks was aborted in mid-poll has, whenever the lock is free, exactly one live task, not cancelled, if its duration is positive, and none otherwise |
| `NetBlock.StrayIff` | crates/netblock/src/ip_policy.rs:37-58 | in a state that agrees with the tables, a step leaves a live task without a handle behind exactly if it aborts a task in mid-poll |
| `NetBlock.OneToOneIff` | crates/netblock/src/ip_policy.rs:35-71 | on every run, whenever the lock is free: timed addresses and un-aborted tasks correspond one to one if and only if there are as many un-aborted tasks as handles; and live tasks are as many as handles if and only if in addition no aborted task is left |
| `NetBlock.RivalIff` | crates/netblock/src/ip_policy.rs:45-63 | a step gives an address an un-aborted task without a handle exactly if an expiring task takes away the handle of another one |
| `NetBlock.OneUnabortedTask` | crates/netblock/src/ip_policy.rs:28-82 | on every run without such a step, whatever was aborted and when, an address has exactly one un-aborted task if its duration is positive and none otherwise, whenever the lock is free |
| `NetBlock.TwoTasks` | crates/netblock/src/ip_policy.rs:38-71 | a run after which one address has two live tasks, neither cancelled, and all locks are free |
| `NetBlock.PermanentIsNeverExpired` | crates/netblock/src/ip_policy.rs:37-58 | an address made permanent, none of whose tasks was aborted in mid-poll, is never removed by an expiry, whatever follows |
| `NetBlock.AbortLeavesTaskIff` | crates/netblock/src/ip_policy.rs:37-44 | after a batch item that makes an address permanent, a task for it is alive if and only if the aborted one was in mid-poll or a stray one existed |
| `NetBlock.PermanentIff` | crates/netblock/src/ip_policy.rs:37-58 | from that batch item on the address is safe from every expiry if and only if neither was the case |
| `NetBlock.SafeIffNoTask` | crates/netblock/src/ip_policy.rs:49-63 | an address is safe from every future expiry if and only if it has no live task |
| `NetBlock.LateAbort` | crates/netblock/src/ip_policy.rs:38-58 | a run in which an address made permanent is removed by its old timer |
| `NetBlock.RunKeepsDeadline` | crates/netblock/src/ip_policy.rs:68-71 | as long as an address keeps its task, no later batch moves its deadline |
| `NetBlock.NotExpiredEarly` | crates/netblock/src/ip_policy.rs:45-71 | an address none of whose tasks is aborted in mid-poll is not removed before the duration that armed its timer is over |
| `NetBlock.NotEarlyIff` | crates/netblock/src/ip_policy.rs:45-71 | on no run is an address removed before the deadline of its handle's task if and only if none of its live tasks can fire before it |
| `NetBlock.ExpiredTooEarly` | crates/netblock/src/ip_policy.rs:38-71 | a run in which an address armed until second 101 is removed in second 1 |
| `NetBlock.HolderCanProceed` | crates/netblock/src/ip_policy.rs:29-60 | whoever holds the first lock can always take its next step: no deadlock |
| `ProcessPolicy.ProcessPolicyManager.SetPolicyProcess` | crates/process_mgr/src/policy_mgr.rs:58-137 | the kernel, as the replay of all commands, gets exactly the downloaded list on its side and none of it on the other; one command per difference; notified exactly if there was one |
| `ProcessPolicy.ProcessPolicyManager.Sync` | crates/process_mgr/src/policy_mgr.rs:65-89 | the three loops in order, for any visiting order of the sets: the replay ends with exactly the list, every command changes the tables and none puts a hash on both sides |
| `ProcessPolicy.RemoveFromOther` | crates/process_mgr/src/policy_mgr.rs:66-73 | the first loop clears the new list from the other table with one command per common hash |
| `ProcessPolicy.AddMissing` | crates/process_mgr/src/policy_mgr.rs:75-81 | the second loop adds what is missing |
| `ProcessPolicy.DropStale` | crates/process_mgr/src/policy_mgr.rs:83-89 | the third loop deletes what is no longer listed |
| `ProcessPolicy.ProcessPolicyManager.SetAll` | crates/process_mgr/src/policy_mgr.rs:58-137 | any sequence of downloads leaves the record and the replay equal |
| `ProcessPolicy.InTableIff` | crates/process_mgr/src/policy_mgr.rs:58-137 | after any sequence a hash is in a table exactly when some download put it there and no later one undid that |
| `ProcessPolicy.RunDisjoint` | crates/process_mgr/src/policy_mgr.rs:66-73 | no hash is ever on both sides |
| `ProcessPolicy.RepeatIsFree` | crates/process_mgr/src/policy_mgr.rs:91-94 | downloading the same list again sends no command |
| `PatternRules.TablesOnEveryRun` | crates/pattern/src/pattern_rules_mgr.rs:562-642 | over any calls, from any kernel state: after the first reload the pattern and trusted-process tables are the present ones, names are unique, every pattern a rule names is there and every number in a rule has trusted-process rows |
| `PatternRules.LoadedConsistent` | crates/pattern/src/pattern_rules_mgr.rs:562-605 | the tables loaded from well-formed rows are consistent |
| `PatternRules.GeneratedOk` | crates/pattern/src/pattern_rules_mgr.rs:293-559 | whatever the policies, every setter and clear call leaves well-formed rows |
| `PatternRules.TextInjective` | crates/pattern/src/pattern_rules_mgr.rs:321-514 | different pattern names have different text |
| `PatternRules.SplitThenJoin` | crates/pattern/src/pattern_rules_mgr.rs:430-470 | splitting a list field loses nothing and leaves no separator behind |
| `PatternRules.MissedProtects` | crates/pattern/src/pattern_rules_mgr.rs:608-618 | two directory downloads that compare equal generate the same rules if and only if every directory keeps its read-write flag and whether it names trusted processes |
| `PatternRules.MissedExports` | crates/pattern/src/pattern_rules_mgr.rs:608-618 | two export downloads that compare equal generate the same rules if and only if the same policies name trusted processes |
| `PatternRules.NeverMissedTrust` | crates/pattern/src/pattern_rules_mgr.rs:316-344 | trusted directories that compare equal generate the same rules |
| `PatternRules.OutdatedRules` | crates/pattern/src/pattern_rules_mgr.rs:608-642 | two calls after which the kernel holds an outdated rule |
| `PatternRuns.RulesCurrentIff` | crates/pattern/src/pattern_rules_mgr.rs:293-642 | over any calls, from any kernel state: the kernel's rules are the present ones if and only if the policies in force at the last reload and now agree on read-write flags and on which policies name trusted processes; before any reload, if and only if the kernel had no rules |
| `PatternRuns.KernelOnEveryRun` | crates/pattern/src/pattern_rules_mgr.rs:608-642 | over any calls the kernel holds all that was generated at the last reload, and nothing compared has changed since |
| `PatternRuns.RowsOnEveryRun` | crates/pattern/src/pattern_rules_mgr.rs:293-559 | the generated rows depend only on the policies in force: the last download of each kind, an export clear that keeps trusted processes, and a self-protection that stays on |
| `PatternRuns.RulesDecided` | crates/pattern/src/pattern_rules_mgr.rs:608-618 | policies that compare equal generate the same rules if and only if they agree on what is not compared |
| `PatternMeaning.ProtectMeaning` | crates/pattern/src/pattern_rules_mgr.rs:409-543 | after any calls, for every protected directory in force and every path: which guarding, including, excluding and exempting rules apply to the path, in terms of directory, type and list fields |
| `PatternMeaning.ProtectTrusts` | crates/pattern/src/pattern_rules_mgr.rs:421-532 | guarding rules carry the directory's read-write flag and trust exactly the hashes it names; the others neither |
| `PatternMeaning.DirPatternMeans` | crates/pattern/src/pattern_rules_mgr.rs:452-466 | type 1 covers what begins with the directory, the other types the directory itself; the mark against sub-directories is set for type 1 without extension |
| `PatternMeaning.FirstFifty` | crates/pattern/src/pattern_rules_mgr.rs:422-422 | the first fifty directories of a download are in force, unchanged and in order |
| `PatternMeaning.TrustMeaning` | crates/pattern/src/pattern_rules_mgr.rs:316-344 | the same for trusted directories, row by row with their rules |
| `PatternMeaning.ExportMeaning` | crates/pattern/src/pattern_rules_mgr.rs:349-402 | the same for export policies: suffix behind a dot or prefix, and an inclusion exactly for type 1 |
| `PatternMeaning.ExportTrusts` | crates/pattern/src/pattern_rules_mgr.rs:383-393 | the rule of an export policy trusts exactly the hashes the policy names |
| `PatternMeaning.SelfMeaning` | crates/pattern/src/pattern_rules_mgr.rs:293-313 | which paths the five fixed rows cover |
| `PatternMeaning.CallsSpare` | crates/pattern/src/pattern_rules_mgr.rs:293-559 | every call changes its own rows only |
| `PatternMeaning.ExportClearKeepsProcesses` | crates/pattern/src/pattern_rules_mgr.rs:403-407 | clearing the export directories keeps their trusted processes |
| `PatternMeaning.ProtectClearEmpties` | crates/pattern/src/pattern_rules_mgr.rs:546-559 | clearing the protected directories removes all their rows |
| `PatternRules.PatternRulesMgr.SetProtectDir` | crates/pattern/src/pattern_rules_mgr.rs:409-543 | the nested loops over directories, paths, suffixes and hashes generate the rows of `ProtectMeaning` and `ProtectTrusts`, and the kernel follows the machine of `TablesOnEveryRun` |
| `PatternRules.PatternRulesMgr.SetExiportDir` | crates/pattern/src/pattern_rules_mgr.rs:349-402 | the same for export policies, whose trusted-process numbers count only policies that name processes |
| `PatternRules.PatternRulesMgr.SetGlobalTrustDir` | crates/pattern/src/pattern_rules_mgr.rs:316-344 | the same for trusted directories, of which at most fifty are used |
| `PatternRules.PatternRulesMgr.AddFilePattern` | crates/pattern/src/pattern_rules_mgr.rs:293-313 | the fixed self-protection rows join the tables if enabled, and nothing changes otherwise |
| `PatternRules.PatternRulesMgr.ClearExiportDir` | crates/pattern/src/pattern_rules_mgr.rs:403-407 | export rows go, their trusted processes stay in the tables |
| `PatternRules.PatternRulesMgr.ClearProtectDir` | crates/pattern/src/pattern_rules_mgr.rs:546-559 | all directory rows and their trusted processes go |
| `PatternRules.PatternRulesMgr.LoadPatternRules` | crates/pattern/src/pattern_rules_mgr.rs:562-605 | skipping empty families still loads every row, in order |
| `PatternRules.PatternRulesMgr.SetPatternRules` | crates/pattern/src/pattern_rules_mgr.rs:621-642 | clear, load and back up exactly when something compared has changed |
| `PatternText.TextDecides` | crates/pattern/src/pattern_rules_mgr.rs:608-618 | for rows free of comma and newline, comparing the nine generated texts is comparing the rows |
| `PatternText.DirText` | crates/pattern/src/pattern_rules_mgr.rs:452-466 | the fields of a directory row as written |
| `PatternText.TrustText` | crates/pattern/src/pattern_rules_mgr.rs:320-335 | the fields of a trusted directory's row as written |
| `PatternText.ExportText` | crates/pattern/src/pattern_rules_mgr.rs:358-381 | the fields of an export row as written |
| `PatternText.PartTexts` | crates/pattern/src/pattern_rules_mgr.rs:438-500 | the fields of white, included and excluded rows as written |
| `PatternText.GeneratedClean` | crates/pattern/src/pattern_rules_mgr.rs:293-559 | calls whose fields are free of the separators keep the rows free of them; the comma-separated hash list only has to be free of newlines |
| `PatternRuns.TextMachineIsRowMachine` | crates/pattern/src/pattern_rules_mgr.rs:608-642 | over any such calls the manager that compares texts goes through the same rows, reloads and kernel tables as the one that compares rows |
| `PatternText.PatternTextInjective` | crates/pattern/src/pattern_rules_mgr.rs:322-515 | the text of a pattern table determines its rows |
| `PatternText.ProcTextInjective` | crates/pattern/src/pattern_rules_mgr.rs:386-431 | the text of a trusted-process table determines its rows |
| `IpJump.IpJumpManager.DoIpJump` | crates/rules_jump_mgr/src/ip_manager.rs:482-543 | every early return, with its rollback, leaves addresses, default routes, ledger and tick as the jump function of `AddressesOnExit`, `RoutesOnExit`, `SourceKeptIff`, `SourceIsEntered` and `TargetSafeIff`, for any command results |
| `IpJump.AddressesOnExit` | crates/rules_jump_mgr/src/ip_manager.rs:482-543 | which addresses are there after a jump, on every exit and for any command results, and which exit it is |
| `IpJump.SourceKeptIff` | crates/rules_jump_mgr/src/ip_manager.rs:518-522 | after a successful jump the old address is still there if and only if its deletion had no effect, or it was new to the ledger, not seen and could be added |
| `IpJump.SourceIsEntered` | crates/rules_jump_mgr/src/ip_manager.rs:599-615 | then the ledger has it with the present tick |
| `IpJump.IpJumpManager.DoPeriodicCleanup` | crates/rules_jump_mgr/src/ip_manager.rs:651-676 | the loops over the list and over the expired entries are the round of `RoundSpec` and `AgedOutIsGone` |
| `IpJump.IpJumpManager.CleanupOldSecondary` | crates/rules_jump_mgr/src/ip_manager.rs:395-417 | working on a snapshot while the list shrinks is the clearing of `CleanupOldSpec` |
| `IpJump.IpJumpManager.AddSecondaryIp` | crates/rules_jump_mgr/src/ip_manager.rs:599-626 | an existing entry only gets a new tick; a new one is entered even if adding its address fails, so keys stay unique, and its address is added if it is not seen, as in `SourceKeptIff`; an error is returned exactly for a new entry that is neither seen nor added |
| `IpJump.IpJumpManager.RestoreBackup` | crates/rules_jump_mgr/src/ip_manager.rs:590-597 | the rollback puts the source and the noted gateway back whenever their commands have any effect, and touches nothing else |
| `IpJump.IpJumpManager.SetGateway` | crates/rules_jump_mgr/src/ip_manager.rs:584-588 | the old default route goes even if the new one cannot be set; success is that of the addition alone |
| `IpJump.IpJumpManager.TryRemoveIpFromSystem` | crates/rules_jump_mgr/src/ip_manager.rs:748-800 | two deletions and three looks: success and remaining addresses as in `RemovedMeansGone`, touching one address at most |
| `IpJump.RemovedMeansGone` | crates/rules_jump_mgr/src/ip_manager.rs:748-800 | with truthful looks a removal that reports success removed the address |
| `IpJump.GetPrimaryIp` | crates/rules_jump_mgr/src/ip_manager.rs:433-480 | the flag-driven scan yields the requested address if it is primary, else the first primary one, else none |
| `IpJump.FirstPrimaryIs` | crates/rules_jump_mgr/src/ip_manager.rs:441-459 | which address that is, or that there is none |
| `IpJump.LedgerOnEveryRun` | crates/rules_jump_mgr/src/ip_manager.rs:482-676 | over any run of jumps to other addresses and cleanup rounds, whatever fails: no duplicate ledger keys, and never the address last added as a target |
| `IpJump.TargetSafeIff` | crates/rules_jump_mgr/src/ip_manager.rs:518-522 | a jump that moved keeps its target out of the ledger if and only if target and source differ |
| `IpJump.TargetSurvives` | crates/rules_jump_mgr/src/ip_manager.rs:395-676 | the target of a successful jump stays on the interface through any later steps until a jump starts from it |
| `IpJump.RunSpares` | crates/rules_jump_mgr/src/ip_manager.rs:395-676 | no run touches an address outside the ledger unless a jump starts from it |
| `IpJump.StrandedIff` | crates/rules_jump_mgr/src/ip_manager.rs:504-531 | exactly when a jump can end with neither source nor target on the interface |
| `IpJump.NeverStranded` | crates/rules_jump_mgr/src/ip_manager.rs:482-597 | an interface that had the source has source or target on every exit, also if the interface lookup or the target fails to parse, unless the deletion took the source off, the target was not put on and the rollback did nothing |
| `IpJump.StrandingJump` | crates/rules_jump_mgr/src/ip_manager.rs:504-516 | a jump after which the interface has no address |
| `IpJump.EarlyExits` | crates/rules_jump_mgr/src/ip_manager.rs:485-502 | a jump that finds no source changes nothing; one that stops before its first command has only cleared old secondaries, never the source |
| `IpJump.RoutesOnExit` | crates/rules_jump_mgr/src/ip_manager.rs:504-597 | on success the default route is the gateway asked for, or untouched; after a rollback that gets through it is the noted one; routes of other interfaces are never touched |
| `IpJump.RoutesKeptIff` | crates/rules_jump_mgr/src/ip_manager.rs:569-597 | a rolled back jump, whatever gateway it noted, leaves the routes as they were if and only if: the rollback set the noted gateway and it was this interface's own; or only deleted, and there was none; or did neither, and the jump had not changed the route |
| `IpJump.RouteLost` | crates/rules_jump_mgr/src/ip_manager.rs:584-597 | a jump whose first command fails without effect and whose rollback deletes the default route |
| `IpJump.RouteCopied` | crates/rules_jump_mgr/src/ip_manager.rs:569-597 | a failed jump whose rollback succeeds in full and gives its interface the default route of another |
| `IpJump.DoneHasTarget` | crates/rules_jump_mgr/src/ip_manager.rs:511-542 | a jump that reports success left the target on the interface |
| `IpJump.CleanupOldSpec` | crates/rules_jump_mgr/src/ip_manager.rs:395-417 | clearing leaves only entries for the kept address, and takes off exactly the ledger addresses whose removal works, the kept one excepted |
| `IpJump.RoundSpec` | crates/rules_jump_mgr/src/ip_manager.rs:651-676 | a round drops exactly the expired entries whose removal reports success, and takes off exactly the expired addresses whose removal works |
| `IpJump.AgedOutIsGone` | crates/rules_jump_mgr/src/ip_manager.rs:665-676 | with truthful looks, what ages out of the ledger is off the interface |
| `IpJump.JumpToSelfIsAgedOut` | crates/rules_jump_mgr/src/ip_manager.rs:504-522 | a jump onto its own address is undone by ageing |
| `JumpController.DeliveryOnEveryRun` | ip_jump_controller_qt/src/mockserver.cpp:200-296 | over any run: the queue matches the history, no current instruction means an empty queue, a current one is announced, the counter counts non-empty replies |
| `JumpController.InOrderAtMostOnce` | ip_jump_controller_qt/src/mockserver.h:123-137 | user instructions are delivered unchanged, in order and at most once; queued = delivered + current + waiting + cleared |
| `JumpController.RoundRobin` | ip_jump_controller_qt/src/mockserver.cpp:215-296 | with nothing queued and a pool that can be gone round, repeated entries and prefix lengths included, the k-th reply is the entry k + 1 places after the start, whatever the agent reports in between |
| `JumpController.RoundRobinIff` | ip_jump_controller_qt/src/mockserver.h:72-86 | the replies come in the order of the pool from every idle state and for all reports if and only if no entry is empty, equal entries are followed by equal ones, and an entry's address in front of its slash is itself or not in the pool |
| `JumpController.NeverReached` | ip_jump_controller_qt/src/mainwindow.cpp:614-623 | with the pool a, b, a, c no run of the agent ever gets c |
| `JumpController.AsOftenAsListed` | ip_jump_controller_qt/src/mockserver.cpp:215-296 | any window of replies as long as the pool gives every entry as often as the pool lists it |
| `JumpController.OncePerRound` | ip_jump_controller_qt/src/mockserver.cpp:215-296 | for distinct entries, any such window gives every entry exactly once, whatever the agent reports in between |
| `JumpController.GenerateNext` | ip_jump_controller_qt/src/mockserver.h:72-86 | from a place of the pool the generator moves to the next one, round the end, asked by the entry or by its address in front of the slash |
| `JumpController.CycleStrategy.NextInstruction` | ip_jump_controller_qt/src/mockserver.h:72-86 | the next address and the remembered index are those of `GenerateNext`; a pool of fewer than two gives no instruction |
| `JumpController.MockServer.QueueInstruction` | ip_jump_controller_qt/src/mockserver.h:123-132 | appending and promotion to the current slot are the queue step of `DeliveryOnEveryRun` |
| `JumpController.MockServer.ClearQueue` | ip_jump_controller_qt/src/mockserver.h:134-137 | waiting instructions are recorded as cleared, the current one stays to be delivered |
| `JumpController.MockServer.HandleGetIpJump` | ip_jump_controller_qt/src/mockserver.cpp:215-296 | the reply is the one the history records, and the slot is refilled from the queue before the generator, as in `UserGoesFirst`, `DeliveredNext` and `IdleNext` |
| `JumpController.MockServer.HandleGetTask` | ip_jump_controller_qt/src/mockserver.cpp:200-213 | a task is announced exactly when the pending flag is on, hence whenever an instruction waits |
| `JumpController.MockServer.HandleReport` | ip_jump_controller_qt/src/mockserver.cpp:298-340 | a report leaves the agent address of `Remembered`; an empty one changes nothing |
| `JumpController.Remembered` | ip_jump_controller_qt/src/mockserver.cpp:307-329 | what is remembered is the first entry of the list without the blanks around it |
| `JumpController.ReportedNext` | ip_jump_controller_qt/src/mockserver.cpp:255-275 | when nothing is current, a report that begins with an entry of the pool is answered with the entry after it, under all settings |
| `JumpController.DeliveredNext` | ip_jump_controller_qt/src/mockserver.cpp:228-239 | after a delivery the cycle goes on behind the address in front of the slash |
| `JumpController.UserGoesFirst` | ip_jump_controller_qt/src/mockserver.cpp:224-228 | a waiting instruction of the user precedes the cycle |
| `JumpController.CycleReplyMeans` | ip_jump_controller_qt/src/mockserver.h:72-86 | every field of a cycle's replies, and where the cycle starts |
| `JumpController.EmptyReplyIff` | ip_jump_controller_qt/src/mockserver.cpp:215-296 | when a fetch gets nothing |
| `JumpController.ClearedNever` | ip_jump_controller_qt/src/mockserver.h:134-137 | what waited when the queue was cleared is never delivered |
| `JumpController.AnnouncedThroughout` | ip_jump_controller_qt/src/mockserver.cpp:200-296 | with the cycle on and two addresses a task stays announced whatever the agent does |
| `JumpController.MockServer.SetCycle` | ip_jump_controller_qt/src/mainwindow.cpp:606-612 | switching the cycle on announces a task if the pool suffices |
| `PublicSuffix.Part` | crates/utils/src/suffixlist.rs:35-74 | the reverse scan computes the part it is asked for, for every list and domain |
| `PublicSuffix.PartIsUnique` | crates/utils/src/suffixlist.rs:35-74 | each part is determined |
| `PublicSuffix.DotDecides` | crates/utils/src/suffixlist.rs:35-74 | which parts a domain with or without a dot has |
| `PublicSuffix.SldIsShortest` | crates/utils/src/suffixlist.rs:38-51 | the second-level domain is the shortest label-aligned suffix of two or more labels that is not public, or the whole domain if there is none |
| `PublicSuffix.HostDotSld` | crates/utils/src/suffixlist.rs:43-73 | host, dot and second-level domain make the domain exactly when the second-level domain is not the whole |
| `PublicSuffix.TldEndsSld` | crates/utils/src/suffixlist.rs:52-56 | the top-level domain is the last label of the second-level domain |
| `PublicSuffix.FromList` | crates/utils/src/suffixlist.rs:77-95 | asking the parsed list is asking its lines |
| `PublicSuffix.ReadingsDifferIff` | crates/utils/src/suffixlist.rs:29-33 | the suffix test agrees with the one-label reading of wildcards exactly unless a wildcard ends the text and none covers it with one label |
| `PublicSuffix.SldOneLabelIff` | crates/utils/src/suffixlist.rs:35-56 | the second-level domain is the one of the one-label reading if and only if that one is the whole domain or is not swallowed by a wildcard |
| `PublicSuffix.SwallowedExample` | crates/utils/src/suffixlist.rs:29-33 | with the line `*.ck` the domain `a.b.c.ck` is left whole instead of giving `b.c.ck` |
| `PublicSuffix.SldAsMeantIff` | crates/utils/src/suffixlist.rs:35-74 | the second-level domain is the registrable domain of the list format, with exceptions first and the longest match otherwise, if and only if every shorter suffix of two or more labels is taken for public and that domain is not, or is the whole |
| `PublicSuffix.MeantTakenForPublicIff` | crates/utils/src/suffixlist.rs:29-33 | the meant domain is taken for public exactly if a wildcard swallows it, or if it is an exception that is also listed |
| `PublicSuffix.GapExample` | crates/utils/src/suffixlist.rs:38-51 | with the lines `com` and `a.b.com` the domain `x.a.b.com` is cut to `b.com` under either reading of wildcards |
| `FileTransfer.SendFile` | crates/agent_manager/src/agent_cli_client.rs:558-571 | header, payload and end marker, for any read sizes |
| `FileTransfer.FindStart` | crates/agent_manager/src/agent_cli_server.rs:250-259 | the first position of the start marker |
| `FileTransfer.ReceiveFileFromBytes` | crates/agent_manager/src/agent_cli_server.rs:246-320 | what is saved, reported and left on the connection depends only on the bytes, on success and on failure, not on how they arrive after the first piece |
| `FileTransfer.ReadBody` | crates/agent_manager/src/agent_cli_server.rs:290-319 | body and end marker over pieces of any size, and what is left on the connection for every result |
| `FileTransfer.HeaderReadBack` | crates/agent_manager/src/agent_cli_server.rs:267-284 | the receiver reads the size and path the sender wrote if and only if the path has no newline and no carriage return at its end |
| `FileTransfer.PathNotReadBack` | crates/agent_manager/src/agent_cli_server.rs:284-284 | a path that arrives changed |
| `FileTransfer.HeaderCutShort` | crates/agent_manager/src/agent_cli_server.rs:267-269 | a first piece that ends within the header is refused |
| `FileTransfer.HeaderRefused` | crates/agent_manager/src/agent_cli_server.rs:278-282 | a header line without a colon or without a size is refused, with the right error, and read otherwise |
| `FileTransfer.NumberIff` | crates/agent_manager/src/agent_cli_server.rs:281-282 | which texts are sizes |
| `FileTransfer.SavesPayload` | crates/agent_manager/src/agent_cli_server.rs:290-309 | the saved bytes are the payload however the connection is cut behind the header, and the end marker is looked for behind both the body and the first piece |
| `FileTransfer.SucceedsIff` | crates/agent_manager/src/agent_cli_server.rs:311-319 | for every cut behind the header and any later bytes: success if and only if the first piece ends within the body or an end marker follows it; cut off if and only if fewer later bytes come than the piece holds from behind the body; and which of the later bytes are left |
| `FileTransfer.OnePieceFails` | crates/agent_manager/src/agent_cli_server.rs:311-319 | a transfer that arrives in one piece is saved whole and reported as cut off |
| `FileTransfer.Transfer` | crates/agent_manager/src/agent_cli_client.rs:534-574 | sender and receiver together, for every end of the first piece and any earlier and later bytes: path and payload arrive, with the result and the rest of the connection as in `SucceedsIff`; a cut in the header is refused and saves nothing |
| `Snowflake.Id` | crates/utils/src/snowflake.rs:74-82 | time, node and sequence can be read back from an identifier |
| `Snowflake.WordIsId` | crates/utils/src/snowflake.rs:74-82 | shifting, masking and joining 64-bit words with `or` gives this identifier |
| `Snowflake.MaskBits` | crates/utils/src/snowflake.rs:19-23 | the masks 2^k - 1 have exactly their k low bits set |
| `Snowflake.FieldsSideBySide` | crates/utils/src/snowflake.rs:78-80 | the bits of the word are the low bits of sequence, node and time side by side |
| `Snowflake.OrderedByTime` | crates/utils/src/snowflake.rs:25-33 | identifiers of an earlier millisecond are smaller, as long as the time fits into 43 bits |
| `Snowflake.PastSeparates` | crates/utils/src/snowflake.rs:65-71 | a past identifier separates exactly what came before its millisecond from the rest |
| `Snowflake.EqualIdsFarApart` | crates/utils/src/snowflake.rs:74-82 | for any clock readings, equal identifiers are a positive multiple of 4096 calls apart |
| `Snowflake.RepeatsIff` | crates/utils/src/snowflake.rs:74-82 | for any clock readings two calls give the same identifier if and only if they are a multiple of 4096 calls apart at milliseconds equal modulo 2^43 |
| `Snowflake.AllDifferIff` | crates/utils/src/snowflake.rs:74-82 | with a clock that never steps back, within 43 bits of milliseconds, all identifiers differ if and only if no millisecond sees more than 4096 calls |
| `Snowflake.BackwardsClockRepeats` | crates/utils/src/snowflake.rs:74-82 | a clock that steps back repeats an identifier with at most 4095 calls in every millisecond |
| `Snowflake.LimitIsTight` | crates/utils/src/snowflake.rs:19-23 | the 4097th call of one millisecond repeats an identifier |
| `Snowflake.SnowflakeIdGenerator.Generate` | crates/utils/src/snowflake.rs:74-82 | the identifier is the one `EqualIdsFarApart` speaks of, with the wrapping counter equal to the number of calls; a clock before the epoch gives none and uses no number |
| `Snowflake.SnowflakeIdGenerator.PastId` | crates/utils/src/snowflake.rs:65-71 | when there is a past identifier, and what it separates |

## Left out

- Network clients, TLS, process spawning, service scripts, netlink, mmap and all user interface code: effects on systems that are not shown. A kernel table is the replay of what was written to it, a shell command is an arbitrary success or failure.
- `Glob`: Unicode case tables are parameters; the `match_pos` fields are always zero in the source and carried as such.
- `Md5`: the block buffer and padding of the `digest` crate are taken from sections 3.1 and 3.2 of RFC 1321; the constants are data, their derivation from sines is not modelled. The assembly is a list of register operations, memory outside the blocks and calling conventions are not modelled.
- `NetBlock`: the task runtime is modelled by five phases of a task and by aborts that take effect at once unless the task is being polled; the content of policies other than address, duration and family plays no role.
- `ProcessPolicy`: writes to the kernel file are taken to succeed; `kill_process` only logs.
- `PatternRules`: rows are modelled, and text only as far as it is compared (`PatternText`). How the kernel looks for a pattern is read off the keywords `depth`, `offset` and `pkt_len`; `case_offset` and `isnot_extend` are taken not to restrict the place. The text of rules and their fixed fields (target, level) is not modelled. Writes are taken to succeed. Lengths count characters, the source counts bytes. JSON parsing of policies is not modelled.
- `PatternRules.TablesOnEveryRun`: does not state that the kernel's rules are the present ones, because that is false; `PatternRuns.RulesCurrentIff` says when it holds.
- `IpJump`: a jump and a cleanup round are atomic; the two run concurrently in the source. Addresses are a set per interface, so Linux's deletion of secondaries together with their primary and several prefixes for one address are not modelled; a look may answer anything, which covers the substring test. An interface has at most one default route; other routes are not modelled. The daemon loop, persistence through netplan and nmcli, and uploads are not modelled.
- `JumpController`: HTTP framing, JSON replies, logs and the second controller written with egui; counters are unbounded; blanks are the ASCII ones.
- `PublicSuffix`: trimming and lower-casing are a parameter; downloading and decompressing the list is not modelled.
- `FileTransfer`: characters stand for bytes, so the UTF-8 check of the header is not modelled; errors of files and sockets, creation of directories, and the opposite direction (whose two ends use different framing) are not modelled. The file does not change while it is sent.
- `Snowflake`: `from_duration` and `from_timestamp` repeat `past_id`.
- Docker monitor, USB lists, metrics, JSON builders, configuration, driver selection and counters: they read or format one value at a time and keep no state from one call to the next that a later call relies on.
