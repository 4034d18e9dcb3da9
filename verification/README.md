# gosutils, verified

A Dafny model of the parts of `gosutils` whose correctness is not obvious from reading them, with
machine-checked proofs. Objects the Go code updates in place are classes whose methods change the same
fields; loops stay loops; each such method is proved against a specification function, and the laws are
proved about that function, so they hold of the method.

| files | what they are about |
|---|---|
| `Basics` | the optional value and three laws of concatenation that the other files share |
| `BitMask`, `Capacity`, `ProbeTable`, `HashMap` | `hashmap`: the open-addressing table with backward-shift deletion, and its nested resizing |
| `ShellWords`, `ShellSyntax` | `sconv`: splitting a command line into words, and quoting words into a command line |
| `SedMachine`, `SedScript`, `SedSyntax`, `SedSafety`, `SedParser`, `SedCompile`, `SedReader`, `SedRanges`, `SedCommands`, `SedEndToEnd` | `gosed`: the one-pass compiler, the virtual machine, and the reader that runs it |
| `LockedFile` | `lockedfile`: the transformation of a file with rollback |
| `Expect` | `goexpect`: the matching loop beside a reader that keeps appending |
| `XmlQueue`, `XmlTree`, `XmlPath`, `XmlFind`, `XmlRelative`, `XmlEdit`, `XmlIndent`, `XmlRuns` | `goxml`: the ring buffer, path evaluation, relative paths, tree edits, indentation |
| `Wire`, `Ethernet`, `Arp` | `ethernet` and `arp`: the binary codecs |

The main results:

- Any run of Put, Get and Del answers as a finite map does (`HashMap.RunAll`), through nested rehashing that
  provably ends. The one operation that breaks the invariant is deleting the absent key 0, and exactly that one;
  after it the answers stay right up to the first operation that does not end, and which those are is stated exactly.
- The goto-connected shell splitter equals a character automaton on every input, splits every command line as it is
  written (`ShellSyntax.SplitWritten`), and undoes the quoter on every list of strings (`ShellWords.RoundTrip`).
- The sed grammar accepts exactly the token sequences that spell a script, and reads each as the tree it stands for
  (`SedSyntax.ScriptReads`, `SedSyntax.ScriptWas`). A script run from tokens, through parsing, back-patched code, the machine and reads into buffers of any
  sizes, delivers what its command tree means, branches to labels inside nested blocks included and whether or not
  the script ends (`SedCompile.CompilerCorrect`, `SedEndToEnd.RunScript`); no run of an accepted script leaves the
  program (`SedSafety.NeverCrashes`); addresses pick the lines they name and two-address guards the declarative
  intervals; what the commands write is spelled out for whole inputs (`SedCommands`).
- A file transformation ends with the new contents or, exactly under a stated condition on the faults, the old.
- Text read from a process is conserved over every interleaving; no run with calls from a given menu loses text
  exactly if every case on the menu is one that does not go on matching (`Expect.LosesExactly`).
- Queue-driven path traversal equals a flat-map denotation without repetitions, and finds exactly the elements the path
  leads to, each selector and filter said in terms of the tree (`XmlFind.Find`); the relative path of an element
  leads back to it. Over every run of edits, indentation included, slots and tokens point at each other, and each
  call leaves a tree a tree exactly if it does not move an element into its own subtree (`XmlRuns.ApplyEdits`); trees
  are what paths can search, whatever text has been dropped. Indenting a whole tree in place ends exactly if no cycle
  leads back to its top, keeps every other token and, but for which whitespace tokens are used, is idempotent.
- Frames and packets survive the wire exactly under stated conditions, in both directions.

Where a promise fails, the condition under which it holds is proved to be exact, and the failing case is shown at a
concrete input:

| condition | input |
|---|---|
| `HashMap.MapInt64.Del` | `HashMap.DeleteAbsentZero` |
| `ShellWords.ArgsToString` (comments) | `ShellWords.HashLeftBare` |
| `SedReader.ExecAgrees` | `SedReader.BufferSizeShows` |
| `Expect.LosesExactly` | `Expect.ContinueLosesText` |
| `XmlPath.KeepIsChosen` | `XmlPath.ChildFilterRepeats` |
| `XmlEdit.LandedAsAsked` | `XmlEdit.LandsEarly` |
| `XmlEdit.Forest.ReplaceText` (tokens it drops keep naming their old parent) | `XmlEdit.SetTextDrops` |
| `XmlEdit.EvictsItself` | `XmlEdit.DroppedEvicts` |
| `XmlRuns.MoveKeepsTree`, `XmlIndent.Indent` | `XmlRuns.AddToOwnChild` |
| `ProbeTable.SearchEnds` | `HashMap.FillAfterDelete` |
| `Ethernet.ParsesBack` | `Ethernet.TagTypeMisread` |
| `Ethernet.ReuseKeepsTags` | `Ethernet.TagOutlives` |
| `Arp.ArpPacket.MarshalBinary`, `Arp.NewPacketSurvives` | `Arp.MarshalTooLong` |

Where code and documentation disagree the model follows the code: the child filters of `goxml` keep a candidate
once per matching child, `RemoveChildAt` crashes for a negative index, `InsertChildAt` misplaces a token that is
elsewhere in the same list, and a token that was dropped by an earlier text edit still takes out whatever stands in
the slot it remembers.

Random choices, clocks, the operating system and other goroutines appear as parameters: `phi` is any mixing
function, `Faults` is any pattern of failing system calls, the events of `Expect` come in any order, regular
expressions and substitutions are arbitrary functions, `crc` is any checksum.

## Model

| member | source | states |
|---|---|---|
| BitMask.AndIsMod | hashmap/mapint64.go:99 | Masking with a power of two less one is the Euclidean remainder, for negative numbers too. |
| BitMask.NextOffset | hashmap/mapint64.go:113 | Adding two under the doubled mask steps to the next slot and wraps at the end of the ring. |
| Capacity.NextPowerOf2Spec | hashmap/mapint64.go:37-54 | The smeared value plus one is the least power of two not below x, up to 2^31; above that it wraps to 0, and the two special arguments give 1 and themselves. |
| Capacity.ArraySizeSpec | hashmap/mapint64.go:56-62 | The capacity is a power of two exactly if the slot count is not MaxUint32, and covers the slot count exactly up to 2^31 or at MaxUint32. |
| Capacity.CeilIs | hashmap/mapint64.go:56-62 | The requested slots are rounded up to the next integer. |
| ProbeTable.SearchMiss | hashmap/mapint64.go:103-121 | A free slot reached along occupied slots from a key's home proves the key absent from the whole table. |
| ProbeTable.InsertProbed | hashmap/mapint64.go:162-164 | Filling the free slot that ended the search keeps every key reachable from its home. |
| ProbeTable.MustMoveIsOnPath | hashmap/mapint64.go:231-239 | The two-case wrap-around test holds exactly if the hole lies on the probe path of the key at the scan position. |
| ProbeTable.MoveProbed | hashmap/mapint64.go:242-243 | Moving a key whose path crosses the hole keeps every path intact, with its old slot as the new hole. |
| ProbeTable.MoveHolds | hashmap/mapint64.go:242-243 | The move loses and duplicates no entry. |
| ProbeTable.CloseHole | hashmap/mapint64.go:225-227 | When the scan meets a free slot, emptying the hole restores the probe invariant. |
| ProbeTable.SettleOne | hashmap/mapint64.go:223-240 | A scan step past a key that may stay extends the settled stretch, gets closer to the free slot and cannot lap the hole. |
| ProbeTable.FreeSlot | hashmap/mapint64.go:147-151 | Fewer entries than slots leave a free slot. |
| ProbeTable.FreeIsRoom | hashmap/mapint64.go:147-151 | There is a free slot exactly if there are fewer entries than slots. |
| ProbeTable.NeverEnds | hashmap/mapint64.go:112-121 | In a full table the search for an absent key comes to no slot that would end it, however long it goes on. |
| ProbeTable.SearchEnds | hashmap/mapint64.go:99-121 | A search ends if and only if a slot is free or the key is in the table. |
| ProbeTable.ShiftNeverEnds | hashmap/mapint64.go:215-245 | In a full table the scan of a deletion comes to no free slot that would end it, whatever keys it moves on the way. |
| HashMap.MapInt64.constructor | hashmap/mapint64.go:66-82 | A new table is empty and has the computed capacity; it is valid exactly if the slot count is below MaxUint32. |
| HashMap.MapInt64.HomeOffset | hashmap/mapint64.go:99 | The masked and shifted mix is the array offset of the key's home slot. |
| HashMap.ThresholdIs | hashmap/mapint64.go:66-82 | The threshold is the largest count not above the fill factor's share of the slots. |
| HashMap.MapInt64.Locate | hashmap/mapint64.go:99-121 | If a slot is free or the key is there, the probe loop ends, at the slot holding the key if it is present and otherwise at the free slot that ends its path. |
| HashMap.MapInt64.Get | hashmap/mapint64.go:91-123 | A lookup that ends, in a full table too, returns exactly what the finite map holds, the reserved key 0 included. |
| HashMap.MapInt64.InsertAt | hashmap/mapint64.go:162-164 | Writing the new key and value into the free slot adds exactly that entry. |
| HashMap.MapInt64.PutNoLock | hashmap/mapint64.go:131-177 | For every put that ends, in a full table an overwrite: the contents become the old ones with the key set; the table grows exactly for a new key at the threshold; a valid table stays valid; the recursion with the rehash ends; whatever the count says, a free slot is left exactly if there was one and the key does not fill the last one. |
| HashMap.MapInt64.Put | hashmap/mapint64.go:125-129 | The same for every fill factor between 0 and 1, with no bound to supply. |
| HashMap.AmpleExists | hashmap/mapint64.go:165-169 | For every number of keys and every fill factor some capacity is ample, so resizing cannot go on for ever. |
| HashMap.MapInt64.Enlarge | hashmap/mapint64.go:248-261 | The table becomes empty with twice the capacity and keeps the reserved key. |
| HashMap.MapInt64.Reinsert | hashmap/mapint64.go:264-269 | Reinserting the copied slots restores all entries, also when a put inside the loop rehashes again. |
| HashMap.MapInt64.Rehash | hashmap/mapint64.go:247-270 | Contents and validity are kept exactly and the capacity grows. |
| HashMap.MapInt64.ScanFrom | hashmap/mapint64.go:221-241 | The inner scan ends at a free slot or at the first key whose path crosses the hole. |
| HashMap.MapInt64.ShiftKeys | hashmap/mapint64.go:215-245 | Backward-shift deletion removes exactly the entry at the given slot and restores the probe invariant; it makes exactly the moves of the scan that `ProbeTable.ShiftNeverEnds` speaks of. |
| HashMap.MapInt64.Del | hashmap/mapint64.go:180-213 | For every deletion that ends: the contents lose exactly the key, whatever the count says; a valid table stays valid if and only if the key is not 0 or 0 was present. |
| HashMap.DeleteAbsentZero | hashmap/mapint64.go:183-187 | On a new map, deleting the absent key 0 makes the reported size -1. |
| HashMap.FillAfterDelete | hashmap/mapint64.go:131-187 | After deleting the absent key 0 from a table of two slots, two puts fill it, and the search for a third key never ends. |
| HashMap.MapInt64.Size | hashmap/mapint64.go:273-278 | The size of a valid table is the number of its keys. |
| HashMap.RunAll | hashmap/mapint64.go:85-213 | Any sequence of Put, Get and Del gives the finite map's contents and answers, up to the first operation that does not end; from a valid table without deletions of an absent 0 the whole sequence runs and the table stays valid. |
| ShellWords.ScanRaw | sconv/sconv.go:76-104 | The raw block copies slices up to the next special character as the automaton does byte by byte. |
| ShellWords.ScanEscape | sconv/sconv.go:106-119 | An escaped newline vanishes, any other rune is copied, and only the end of input is an error. |
| ShellWords.ScanSingle | sconv/sconv.go:121-130 | Everything up to the closing quote is copied; without one the automaton ends in the same error. |
| ShellWords.ScanDouble | sconv/sconv.go:132-158 | Copying between recognised escapes equals the automaton's double-quote mode, error included. |
| ShellWords.SplitWord | sconv/sconv.go:73-162 | One word is split off as the automaton does, with progress, or the automaton's error is returned. |
| ShellWords.StringToArgs | sconv/sconv.go:39-71 | On every input the words and the error are those of the automaton, and the loop ends. |
| ShellSyntax.SplitWritten | sconv/sconv.go:39-162 | Every command line is split into the words it is written to mean: blanks, tabs, newlines and continued lines separate; single quotes keep everything; in double quotes a backslash escapes `$`, backquote, `"` and itself, vanishes with a newline and otherwise stays. |
| ShellSyntax.SplitOpen | sconv/sconv.go:106-158 | A command line that ends inside a quote or behind a backslash gives the words before it and the error for what is open. |
| ShellWords.QuoteBackslash | sconv/sconv.go:196-221 | Backslash mode gives the word with a backslash before exactly the special characters and a leading tilde, which spells exactly the word, and gives up exactly if the word holds a blank, tab or newline. |
| ShellWords.QuoteSingle | sconv/sconv.go:223-253 | Quote mode spells exactly the word, embedded single quotes included. |
| ShellWords.Quote | sconv/sconv.go:181-254 | What is appended to the buffer is not empty and is read as exactly the word. |
| ShellWords.ArgsToString | sconv/sconv.go:164-179 | The automaton splits the result into exactly the arguments; none of the quoter's special characters is left active; no word starts a comment exactly if no argument is one whose leading `#` is left bare. |
| ShellWords.BareIsLive | sconv/sconv.go:176-178 | Each of the special characters left bare, and a tilde in front, counts as active. |
| ShellWords.HashLeftBare | sconv/sconv.go:181-221 | The argument `#` is left bare, which a shell reads as a comment. |
| ShellWords.RoundTrip | sconv/sconv.go:39-254 | Quoting then splitting succeeds and is the identity on every list of strings. |
| SedScript.ParsedOk | gosed/parse.go:80-308 | The grammar over the tokens only builds trees that have code. |
| SedSyntax.ScriptReads | gosed/parse.go:80-237 | Every script is read as the tree it stands for: numbers, `$` and expressions as addresses, commas, `!`, braces, labels and empty lines. |
| SedSyntax.ScriptWas | gosed/parse.go:80-237 | Whatever tokens are accepted spell a script, and the tree is what that script stands for. |
| SedSyntax.Compiles | gosed/parse.go:35-58 | A script is compiled exactly if every label it branches to is in it, into the code of what it stands for. |
| SedSyntax.OnlyScripts | gosed/parse.go:35-58 | Tokens that spell no script are refused. |
| SedMachine.FirstLineIs | gosed/instructions.go:105-131 | The first line of a text is what stands in front of its first newline, or all of it. |
| SedMachine.LineNumberReads | gosed/instructions.go:134-138 | A line number is printed as decimal digits that read back as the number, without leading zeros. |
| SedParser.ParseState.CompileCmd | gosed/parse.go:239-308 | A command is refused exactly if its arguments are, and otherwise its code is emitted; a branch is queued with a placeholder. |
| SedParser.ParseState.CompileLabel | gosed/parse.go:319-331 | A nonempty label enters both tables with the current address. |
| SedParser.ParseState.CompileBlock | gosed/parse.go:225-237 | A braced block or one command is compiled as the grammar reads it. |
| SedParser.ParseState.CompileCond | gosed/parse.go:130-157 | A guard's jump over its body is patched to the address after the body, negated or not. |
| SedParser.ParseState.CompileTwoCond | gosed/parse.go:159-223 | The same for a range, whose change command is tied to its guard. |
| SedParser.ParseState.ParseToplevel | gosed/parse.go:80-118 | Commands are compiled up to the end or to the brace that closes the block, with the nesting level tracked. |
| SedParser.ParseState.ResolveBranches | gosed/parse.go:60-78 | In-place replacement yields the final code exactly if every used label is known. |
| SedParser.Parse | gosed/parse.go:35-58 | The one-pass compiler accepts exactly the scripts of the grammar with known labels, and its output is the tree's code with all targets resolved; which tokens the grammar reads as which tree is `SedSyntax.ScriptReads`. |
| SedParser.BranchTargets | gosed/parse.go:60-78 | Every branch of an accepted script jumps to the instruction after the last occurrence of its label, or to the end-of-program point. |
| SedSafety.BlockAddress | gosed/parse.go:319-331 | A label's address counts the instructions before its last occurrence. |
| SedSafety.ProgramSafe | gosed/parse.go:35-58 | All jumps and fall-throughs of compiled code stay inside the program. |
| SedSafety.NeverCrashes | gosed/engine.go:109-112 | On any input, from any state, after any number of steps, the instruction pointer of an accepted script is inside the program. |
| SedCompile.CommandRuns | gosed/parse.go:239-308 | The code of every command does what the evaluator says of the command, a branch to a known label included. |
| SedCompile.BranchLeaves | gosed/parse.go:310-317 | A branch without a label, or to `the end`, goes to the end of the script, any other to its label. |
| SedCompile.FirstOfSeveral | gosed/instructions.go:105-131 | On a pattern space of several lines `P` prints the first and `D` leaves the rest and starts over without reading. |
| SedCompile.FirstIsAll | gosed/instructions.go:105-131 | On a pattern space of one line `P` prints it and `D` leaves nothing and reads on. |
| SedCompile.LineNumberPrinted | gosed/instructions.go:134-138 | `=` prints the digits of the line number. |
| SedCompile.BlockRuns | gosed/parse.go:130-237 | The code of a block, with nested guards, ranges and labels, runs as the evaluator of the tree says, wherever it is placed. |
| SedCompile.BlockResumes | gosed/parse.go:60-78 | From the address of a label, however deep in a block, the code does what the evaluator resumed at the last place with that label does. |
| SedCompile.PassesRun | gosed/parse.go:35-58 | Any number of passes of the evaluator is matched by machine steps to the same state and output. |
| SedCompile.CompilerCorrect | gosed/parse.go:35-58 | For every script whose labels are known, quiet or not, on every input, the machine halts if and only if the evaluator finishes, with the same output, pattern space and hold space. |
| SedReader.ExecAgrees | gosed/instructions.go:141-200 | One call with limited room leaves the machine as the unlimited one does, if and only if it is not an `N` whose pending text does not fit. |
| SedReader.BufferSizeShows | gosed/instructions.go:193-200 | A concrete `N` with one byte of room too little joins the old line twice. |
| SedReader.Vm.constructor | gosed/engine.go:86-91 | A wrapped reader starts at the beginning of its input. |
| SedReader.Vm.WriteString | gosed/instructions.go:13-30 | The buffer and then the overflow receive exactly the text, and the full-buffer signal is given exactly if it does not fit. |
| SedReader.Vm.FillNext | gosed/instructions.go:141-191 | Pending text is flushed once, and the next line is read only if it fitted. |
| SedReader.Vm.RunTwoCond | gosed/instructions.go:240-260 | The guard's state and answer are those of the range function, kept per instruction. |
| SedReader.Vm.RunChange | gosed/instructions.go:263-273 | A guarded change writes its text only on the guard's last line. |
| SedReader.Vm.RunSubstitute | gosed/substitution.go:26-55 | A substitution changes the pattern space and sets the flag only when it matched, and prints only when asked. |
| SedReader.Vm.Run | gosed/engine.go:109-112 | Every instruction, run on the fields with the buffer at hand, does what its specification says. |
| SedReader.Vm.Tick | gosed/engine.go:109-112 | One turn of the read loop keeps delivered, buffered and overflowing text in step with the unlimited machine, unless the buffer ends inside the text an `N` has to put out. |
| SedReader.Vm.Read | gosed/engine.go:94-121 | Each read continues the unlimited output exactly where the last one stopped; the end is reported only when everything has been delivered; a buffer is left unfilled only by a program that has ended. |
| SedReader.Drain | gosed/engine.go:94-121 | Over any positive buffer sizes, whether or not the program ends, the reads give a prefix of the unlimited output, growing with every read; the end is reported only when the program has ended and all of it has been read, at the latest after one read more than there are bytes. |
| SedReader.TwoReaders | gosed/engine.go:94-121 | Two callers with different buffer sizes get the same stream: one has a prefix of the other, and both all of it at the end. |
| SedReader.TidyIsAllClear | gosed/instructions.go:141-200 | A program that runs no `N` while text is waiting can be read through buffers of any sizes. |
| SedRanges.GuardSelects | gosed/instructions.go:236-260 | Run once per line from a fresh state, a guard selects exactly the declarative intervals, and its last-line test marks exactly their ends. |
| SedRanges.ClosesOnce | gosed/instructions.go:236-260 | An interval closes on its first end line and on no other of its lines. |
| SedRanges.NeverCloses | gosed/instructions.go:240-260 | An interval whose end is never met runs to the last line and closes nowhere. |
| SedRanges.DollarIsLast | gosed/conditions.go:27-29 | In every state of every run of every program, `$` is met exactly on the last input line. |
| SedRanges.OneAddressScripts | gosed/conditions.go:18-38 | As written and on any input: under one address `p` prints exactly the picked lines and `d` deletes exactly those: the line with the number, the last one, or those that match; `!` turns it round. |
| SedRanges.OneGuardScripts | gosed/instructions.go:220-273 | On any input a two-address `p` prints exactly the lines of the intervals and a two-address `c` writes its text exactly once per closed interval. |
| SedRanges.WrittenRanges | gosed/instructions.go:220-273 | The same interval outputs for the scripts as written, with the lines their addresses pick. |
| SedCommands.RewriteScripts | gosed/instructions.go:32-138 | `p`, `d`, `i`, `c`, `=`, `y`, `s`, `g` and `G` alone, on any input: line by line the text they write, spelled out. |
| SedCommands.AppendScripts | gosed/instructions.go:276-309 | `a` and `r` alone: on any input the text stands behind every line. |
| SedCommands.HoldScripts | gosed/instructions.go:37-70 | `x` writes every line one line late, `h` keeps the last line and `H` all lines, each behind a newline. |
| SedCommands.WriteScripts | gosed/instructions.go:311-325 | `w` alone: the file gets every line in order, and the output does not change. |
| SedCommands.PairScripts | gosed/instructions.go:141-200 | `N` writes every pair of lines joined by a newline, silent `n;p` every second line, and neither an odd last line. |
| SedCommands.TestScripts | gosed/instructions.go:84-94 | `s;t;p`: lines the substitution changes are written once, changed, and the others twice. |
| SedCommands.QuitScripts | gosed/instructions.go:32-35 | `n q` writes the first n lines, or all if there are fewer. |
| SedEndToEnd.RunScript | gosed/engine.go:51-121 | From tokens to delivered text: a script is refused exactly if it has no code; otherwise reads of any positive sizes give a prefix of what its tree means, also when the script does not end; the end is reported only of a script that finishes, with all of its text, and one read more than there are bytes is enough. |
| SedEndToEnd.RunWritten | gosed/engine.go:51-121 | The end-to-end result for a script as written: what is delivered is what the script stands for, and it is refused exactly if a label is missing. |
| LockedFile.OsFile.WriteAt | lockedfile/lockedfile.go:161-165 | A write may break after any prefix; every contents on the way is recorded. |
| LockedFile.WriteTail | lockedfile/lockedfile.go:157-166 | The tail is written behind the old bytes, or some prefix of it if the write breaks. |
| LockedFile.WriteBody | lockedfile/lockedfile.go:178-193 | The old bytes are overwritten and the file is cut only after that; it fails exactly if a needed step does. |
| LockedFile.Rollback | lockedfile/lockedfile.go:170-176 | The rollback restores the old bytes and cuts only if that worked, and never makes the file shorter than the old contents. |
| LockedFile.OnTheWayLong | lockedfile/lockedfile.go:157-193 | No contents on the way from old to new is shorter than the old. |
| LockedFile.Transform | lockedfile/lockedfile.go:140-196 | Under every pattern of faults: it fails exactly if a needed step fails; without failure the file is the new contents; with failure it is the old contents if and only if the rollback steps allow it; up to the final cut it is always a mix of old and new, never shorter than the old. |
| Expect.RetriesAgree | goexpect/expect.go:473-521 | The two kinds of case count retries alike. |
| Expect.MatchTakes | goexpect/expect.go:709-772 | A match without partial matching takes the whole local buffer and leaves the shared one as it was; with it the text ends with the match and the rest goes back in front. Which matches go on, and what that costs. |
| Expect.ReturnsOnly | goexpect/expect.go:774-807 | Apart from matches, a call returns exactly if the process is dead or time is up and nothing new has arrived, and then the whole local buffer. |
| Expect.EveryCaseTried | goexpect/expect.go:697-707 | In every run, a scan that has come to a case has tried every case before it on the same text. |
| Expect.AllTried | goexpect/expect.go:697-775 | A call waits for more output only when all its cases have been tried on what there is. |
| Expect.RunConserves | goexpect/expect.go:693-807 | In every state of every interleaving of appends and calls, what left the buffers followed by what is in them is the stream. |
| Expect.LosesExactly | goexpect/expect.go:693-807 | For any set of case lists that calls are made with: some run loses text if and only if some case on it has a continue or next tag and retries left. |
| Expect.FinalCallsLoseNothing | goexpect/expect.go:759-772 | If no case of any call can go on matching, then in every state of every run what callers received followed by what is pending is the stream. |
| Expect.ExpectLosesNothing | goexpect/expect.go:1205-1208 | With plain Expect calls nothing is lost, duplicated or reordered in any run. |
| Expect.ContinueLosesText | goexpect/expect.go:693-807 | With one continuing case that has one retry, some run consumes text no caller gets. |
| Expect.RetriesBound | goexpect/expect.go:759-772 | Within a call, going on after a match uses up a retry and no step adds any. |
| Expect.CallDrops | goexpect/expect.go:693-807 | The matches of one call that go on matching are at most the retries its cases came with. |
| XmlQueue.Fifo.Len | goxml/helpers.go:63-68 | The wrapped indices give the number of queued values. |
| XmlQueue.Fifo.Grow | goxml/helpers.go:70-84 | Copying a wrapped ring into a larger one keeps the queue and leaves room. |
| XmlQueue.Fifo.Add | goxml/helpers.go:44-52 | The queue gets the value at its end, growing when needed. |
| XmlQueue.Fifo.Remove | goxml/helpers.go:54-61 | The first value leaves the queue. |
| XmlTree.LevelIsBelow | goxml/path.go:399-410 | Level k holds exactly the elements whose k-th ancestor is the start. |
| XmlTree.LevelsDistinct | goxml/path.go:399-410 | Level by level, no element occurs twice. |
| XmlTree.DescendantsAre | goxml/path.go:399-410 | All levels together hold exactly the descendants and the element itself. |
| XmlPath.Pather.SelectRoot | goxml/path.go:366-372 | Climbing ends at the topmost ancestor. |
| XmlPath.Pather.SelectByTag | goxml/path.go:423-429 | The children with the tag are appended in document order; an empty prefix matches every namespace. |
| XmlPath.Pather.SelectDescendants | goxml/path.go:399-410 | The queue-driven search yields the element and its descendants level by level. |
| XmlPath.Pather.KeepOne | goxml/path.go:465-586 | How often a filter keeps a candidate: at most once by attribute or function, once per matching child by child. |
| XmlPath.Pather.FilterBy | goxml/path.go:441-586 | Each filter narrows the candidates in order, positions counting from either end, and leaves the scratch list empty. |
| XmlPath.KeepIsChosen | goxml/path.go:550-586 | A filter leaves each satisfying candidate once if and only if no candidate satisfies it twice. |
| XmlFind.FilterKeeps | goxml/path.go:465-586 | A filter keeps exactly the candidates that have what it asks for: an attribute with the name (and value), a child with the tag (and leading text), a function result; an empty prefix matches every namespace. |
| XmlFind.FilterParts | goxml/path.go:465-586 | A filter keeps the order: a list is filtered part by part. |
| XmlFind.PositionPicks | goxml/path.go:441-463 | A position counts from the front from 0, or from the end from -1, and beyond either end picks nothing. |
| XmlFind.TextLeads | goxml/goxml.go:456-474 | An element's text is the data of the text tokens its list begins with. |
| XmlFind.SelectLeads | goxml/path.go:355-429 | What each selector leads to, in terms of parents, roots, descendants and tags. |
| XmlFind.TaggedParts | goxml/path.go:423-429 | Children are selected by tag in document order. |
| XmlPath.ChildFilterRepeats | goxml/path.go:550-561 | A second position after a child filter finds an only candidate with two matching children. |
| XmlPath.Pather.ApplySegment | goxml/path.go:132-137 | A segment is its selector followed by its filters in order. |
| XmlPath.Pather.Eval | goxml/path.go:190-207 | The last segment adds the new matches to the results without repetition; any other queues its candidates with the rest of the path. |
| XmlPath.Pather.Traverse | goxml/path.go:181-186 | The results are the path's flat-map denotation, in that order, first occurrences only. |
| XmlPath.DedupIs | goxml/path.go:195-201 | The deduplicated list has the same members and none twice. |
| XmlPath.DenoteConcat | goxml/path.go:190-207 | A path is walked piece by piece: its tail starts from everything its head matches. |
| XmlFind.DenoteReaches | goxml/path.go:181-207 | A path without positions denotes exactly the elements it leads to, segment by segment past all filters. |
| XmlFind.Find | goxml/path.go:181-207 | A search with such a path finds exactly those elements, each once. |
| XmlRelative.SplitPath | goxml/path.go:241-254 | The loop cuts a path at the slashes outside single quotes. |
| XmlRelative.JoinPieces | goxml/path.go:241-254 | Joining the pieces of any path gives the path back. |
| XmlRelative.SplitJoin | goxml/path.go:241-254 | Splitting joined parts gives the parts back if none holds a slash or a quote. |
| XmlRelative.ParsePath | goxml/path.go:217-239 | A path without filters compiles to its segments, the root selector for a leading slash and a star after a trailing double slash included. |
| XmlRelative.PathReads | goxml/path.go:217-283 | A path is read as written: `.`, `..`, `*`, nothing, tags and prefixed tags between slashes, from the root behind a leading slash. |
| XmlRelative.TrailingSlashes | goxml/path.go:219-221 | A path that ends in two slashes is read as if a star followed. |
| XmlRelative.ClimbFrom | goxml/goxml.go:865-870 | The chain of ancestors up to the source or the top. |
| XmlRelative.AncIsBelow | goxml/path.go:366-372 | The ancestry that climbing uses is that of the levels of descendants. |
| XmlRelative.ClimbTo | goxml/goxml.go:889-906 | The first ancestor of the source on that chain is where the two first meet; without one they have no common ancestor. |
| XmlRelative.GetRelativePath | goxml/goxml.go:858-924 | The empty string exactly for no source or different trees, and otherwise the climb to the meeting point and the tags down from it. |
| XmlRelative.MeetIsLowest | goxml/goxml.go:898-906 | The meeting point is the lowest common ancestor and the number of `..` is the source's distance to it. |
| XmlRelative.SpelledCompiles | goxml/goxml.go:914-923 | The spelled path of plain tags compiles to that climb and those tags. |
| XmlRelative.RouteFinds | goxml/goxml.go:858-924 | The denotation of that route from the source contains the element. |
| XmlRelative.FindBack | goxml/goxml.go:858-924 | Spelling, compiling and traversing the relative path from the source finds the element, once. |
| XmlEdit.Forest.RemoveChildAt | goxml/goxml.go:668-684 | The slot is closed, later siblings move up, the token forgets its parent; past the end nothing happens; it crashes exactly for a negative index. |
| XmlEdit.Forest.RemoveChild | goxml/goxml.go:658-663 | A token of another parent is left alone; otherwise the slot the token remembers is closed, and its occupant, which is another child exactly if the token was dropped before, forgets its parent and is returned. |
| XmlEdit.EvictsItself | goxml/goxml.go:658-684 | Taking a token out of its parent takes out another child exactly if the token is not where it says it is and the slot it remembers is in use. |
| XmlEdit.DroppedEvicts | goxml/goxml.go:593-598 | Adding a dropped text again throws a child element out of the document. |
| XmlEdit.Forest.Append | goxml/goxml.go:1067-1071 | The token becomes the last child with its parent and index set. |
| XmlEdit.Forest.AddChild | goxml/goxml.go:593-598 | Any token ends last in the new list; what the slot it remembers holds, the token itself if it is where it says it is, leaves its list; no other list and no other parent changes. |
| XmlEdit.Forest.InsertChild | goxml/goxml.go:608-628 | Any token ends where the existing one says it is once the remembered slot is closed, from wherever it came; it crashes exactly if that is no place in the list. |
| XmlEdit.PositionOfPlaced | goxml/goxml.go:608-628 | An existing token that is where it says it is is found at its place, unless it is what was taken out, which crashes. |
| XmlEdit.Forest.InsertChildAt | goxml/goxml.go:634-656 | For every index and token: slots and tokens stay linked, the token lands where the adjusted index says, and it crashes exactly if that index is negative. |
| XmlEdit.LandsPlaced | goxml/goxml.go:634-656 | For a token that is where it says it is, the landing place depends on the list alone. |
| XmlEdit.LandedAsAsked | goxml/goxml.go:634-656 | The landing place is the requested one if and only if the token was not elsewhere in the same list or the index is past the end. |
| XmlEdit.LandsEarly | goxml/goxml.go:641-643 | The last of three children asked to be second becomes first. |
| XmlEdit.Forest.FindTermCharData | goxml/goxml.go:573-580 | The longest run of character data from the start index. |
| XmlEdit.Forest.ReplaceText | goxml/goxml.go:526-569 | The run becomes one token with the text, or none, and nothing else changes; reading it back gives the text; links stay; elements stay placed, and all tokens do if and only if the run was shorter than two. |
| XmlEdit.SetTextDrops | goxml/goxml.go:526-569 | Setting the text of an element with two text tokens leaves a token that is not where it says it is. |
| XmlEdit.Forest.SetText | goxml/goxml.go:478-480 | The text read back is the text set, and nothing but the first run of text changes. |
| XmlEdit.Forest.SetTail | goxml/goxml.go:515-522 | It crashes exactly if the element remembers an index past its parent's list; otherwise the tail read back is the text set and everything in front of it stays. |
| XmlRuns.MoveKeepsTree | goxml/goxml.go:593-656 | Moving a placed element leaves the document free of cycles if and only if it does not go into its own subtree. |
| XmlRuns.AddToOwnChild | goxml/goxml.go:593-598 | An element added to its own child: the two are each other's parent, and indenting the element would not end. |
| XmlRuns.TreesAre | goxml/path.go:366-410 | The documents whose elements form a tree are exactly those with truthful slots, every element where it says it is, and no cycles; text tokens do not matter. |
| XmlRuns.FindElements | goxml/goxml.go:832-835 | In every such document a search gives what the path denotes, without repetitions. |
| XmlRuns.NoCycleIsOpen | goxml/goxml.go:928-970 | Where elements are where they say they are, there is no cycle exactly if indentation of every element ends. |
| XmlRuns.AfterIndent | goxml/goxml.go:928-997 | Indentation leaves a tree a tree. |
| XmlRuns.ApplyEdit | goxml/goxml.go:526-997 | One call of any kind: exactly when it comes back, what it makes of the document, and that from a tree it leaves a tree if and only if it moves no element into its own subtree. |
| XmlRuns.ApplyEdits | goxml/goxml.go:526-997 | Over any run of additions, insertions, removals, text edits and indentations: every call makes of the document what it is for, every slot and its token point at each other after every call, a tree stays a tree exactly at the calls that move no element into its own subtree, and the run stops only at a call that names no token of the document, crashes, or indents an element that a cycle of child lists leads back to. |
| XmlIndent.StripIndent | goxml/goxml.go:973-997 | Exactly the whitespace tokens leave the list, and the rest is renumbered. |
| XmlIndent.StripLayout | goxml/goxml.go:928-997 | Stripping a laid-out list gives the list back. |
| XmlIndent.LayoutLooks | goxml/goxml.go:928-970 | Laid out, a list has the indentation of its depth in front of every child that is not text, except the first at the root, the parent's indentation behind the last such child, and no other. |
| XmlIndent.IndentWithin | goxml/goxml.go:928-970 | Given up after any number of nested calls, the recursion has not ended if a cycle leads back to the element; otherwise any number beyond the depth of the subtree is enough. |
| XmlIndent.Indent | goxml/goxml.go:928-970 | The call ends if and only if no cycle leads back to the element, wherever else there are cycles. Then, in place and over the whole tree below: every list is laid out for its depth (`XmlIndent.IndentedLooks` says how that looks), no other list changes, old tokens keep their parent and data, new tokens are whitespace, links stay. |
| XmlIndent.OpenIs | goxml/goxml.go:928-970 | Among elements that are where they say they are, the elements whose indentation does not end are those that are their own ancestors. |
| XmlIndent.IndentedLooks | goxml/goxml.go:928-970 | After indentation every list k levels below looks so for depth plus k, with its other tokens in their order. |
| XmlIndent.LaidKeepsTokens | goxml/goxml.go:928-970 | All tokens but indentation stay in their lists, in order. |
| XmlIndent.StillAt | goxml/goxml.go:928-970 | The same elements lie at the same depths afterwards. |
| XmlIndent.Reindent | goxml/goxml.go:928-997 | Indenting again ends too and gives every list of the tree the same tokens and the same indentation in the same places; the whitespace tokens themselves are new ones. |
| Ethernet.UnpackPack | ethernet/vlan.go:80-129 | A tag whose priority fits survives packing and is accepted back exactly if its ID is valid. |
| Wire.BigEndian | ethernet/ethernet.go:118-158 | Words of two and four bytes are written with the most significant byte first. |
| Ethernet.PackUnpack | ethernet/vlan.go:109-129 | Every 16-bit tag is reproduced from its fields, and is valid exactly if its low 12 bits are not all ones. |
| Ethernet.TagLayout | ethernet/vlan.go:80-106 | A tag is three bits of priority, the drop flag and twelve bits of ID. |
| Ethernet.ReadVlan | ethernet/vlan.go:80-106 | Exactly a valid tag is written, as its packed word. |
| Ethernet.Frame.Length | ethernet/ethernet.go:230-253 | Header and padded payload, for every combination of tags that can be marshalled. |
| Ethernet.Frame.Read | ethernet/ethernet.go:118-158 | A zeroed buffer holds the frame in front and zeros behind; it is an error exactly if a tag is invalid or a service tag lacks its customer tag. |
| Ethernet.Frame.MarshalBinary | ethernet/ethernet.go:90-94 | The bytes are the header and the payload padded to 46. |
| Ethernet.FrameLayout | ethernet/ethernet.go:90-158 | A frame byte by byte: destination, source, the tags behind 88 a8 and 81 00, the type, and the payload with zeros up to 46 bytes. |
| Ethernet.Frame.MarshalFCS | ethernet/ethernet.go:103-114 | The same followed by the checksum of exactly those bytes. |
| Ethernet.Frame.UnmarshalVLANs | ethernet/ethernet.go:257-301 | The tags, the type and the bytes consumed, or the error and the fields assigned before it. |
| Ethernet.Frame.UnmarshalBinary | ethernet/ethernet.go:161-204 | The frame and the error are those of the parsing function, fields left from before included. |
| Ethernet.Frame.UnmarshalFCS | ethernet/ethernet.go:213-227 | The same behind a checksum test. |
| Ethernet.ParsesBack | ethernet/ethernet.go:161-204 | A marshalled frame parses back into itself if and only if both addresses are six bytes and an untagged type is no tag identifier. |
| Ethernet.TagTypeMisread | ethernet/ethernet.go:161-204 | An untagged frame of type 0x8100 comes back with a tag made of its payload. |
| Ethernet.ParsedSends | ethernet/ethernet.go:161-204 | Every accepted byte string is, byte for byte, the frame it was parsed into, and that frame can be marshalled. |
| Ethernet.MarshalsBack | ethernet/ethernet.go:90-204 | Marshalling an accepted frame again gives the same bytes, padded with zeros if the payload was below 46. |
| Ethernet.ReuseKeepsTags | ethernet/ethernet.go:161-204 | Parsing into a used frame gives the same error and the same frame but for tags the new bytes do not have. |
| Ethernet.TagOutlives | ethernet/ethernet.go:161-204 | A frame that held a tag still holds it after parsing an untagged frame. |
| Ethernet.CheckedParses | ethernet/ethernet.go:213-227 | A checked frame parses like its body, and any other four bytes behind the same body are refused. |
| Ethernet.Roundtrip | ethernet/ethernet.go:90-204 | Marshal, then parse into a fresh frame: the frame comes back padded exactly under that condition. |
| Arp.ArpPacket.MarshalBinary | arp/packet.go:128-173 | It crashes exactly if eight plus twice both lengths exceeds 255, the size being one byte; otherwise the bytes are the packet with addresses cut or padded to the claimed lengths. |
| Arp.MarshalTooLong | arp/packet.go:128-173 | Hardware addresses of 120 bytes and protocol addresses of 4 crash the marshaller. |
| Arp.ArpPacket.UnmarshalBinary | arp/packet.go:176-233 | The packet and the error are those of the parsing function. |
| Arp.ParsesBack | arp/packet.go:176-233 | A sent packet, whatever follows it, parses back if and only if its addresses have the claimed lengths. |
| Arp.ParsedSends | arp/packet.go:176-233 | Every accepted packet is consistent and is, byte for byte, the front of what it was parsed from. |
| Arp.NewPacketSurvives | arp/packet.go:83-123 | A new packet is consistent and can be marshalled if and only if its hardware addresses are equally long and at most 119 bytes. |
| Arp.NewPacketRefused | arp/packet.go:83-123 | Exactly when a new packet is refused, and with which error. |
| Arp.NewPacketLayout | arp/packet.go:83-173 | On the wire a new packet has the field order of RFC 826: types, lengths, operation, sender hardware and protocol address, target hardware and protocol address. |
| Arp.ParsePacket | arp/packet.go:235-251 | The packet and frame of a received buffer, or the first error. |
| Arp.ArpFrameLayout | arp/packet.go:235-251 | In an untagged frame the packet stands behind the type 08 06, padded with zeros to 46 bytes. |
| Arp.Carried | arp/packet.go:235-251 | A packet sent in a frame is received with that frame, padding and tags notwithstanding, if and only if it is consistent. |
| Arp.Deliver | arp/packet.go:128-251 | Marshalling, sending and receiving a consistent packet gives the packet whenever its size fits in a byte. |

## Left out

- HashMap.MapInt64.constructor: requires at most MaxUint32 slots, because what Go's conversion to `uint32` gives beyond that is up to the implementation; the division and the threshold are over real numbers, so the rounding of `float64` is not modelled, nor is the wrap-around of `int64` keys in the capacity arithmetic.
- HashMap.MapInt64.Get: requires a lookup that ends, which is exactly `ProbeTable.SearchEnds`.
- HashMap.MapInt64.Put: requires a put that ends, by the same condition.
- HashMap.MapInt64.Del: requires a deletion that ends, that is, a free slot or the key 0 (`ProbeTable.SearchEnds`, `ProbeTable.ShiftNeverEnds`).
- SedReader.Vm.Read: requires that the program ends or overfills the buffer after some number of steps (a script that loops silently never returns from a read) and that the buffer does not end inside the text an `N` has to put out first, the condition of `SedReader.ExecAgrees` at the step where it matters; input and output errors other than the end of input are not modelled.
- SedReader.Drain: requires the same of all its reads.
- SedEndToEnd.RunScript: requires the same of all its reads.
- SedReader.TwoReaders: requires the same of all its reads; both readers start with equal guard states; that one engine shares its guards between all the readers it wraps is not modelled.
- Expect.RunConserves: the calls and the reader are steps of a state machine over values, split where the buffer's lock is free, not methods on a shared object; locks, channels, timers and logging are left out.
- XmlPath.Pather.Traverse: requires at least one path segment, as every compiled path has, and elements that form a tree (`XmlRuns.TreesAre`), since a cycle would keep a search going for ever; the functions of function filters are arbitrary functions of the element.
- XmlRelative.ParsePath: covers paths without filters; parsing filters in brackets is left out.
- XmlRelative.FindBack: requires that the tags on the way down are not empty and free of path syntax, without which the spelled path means something else.
- XmlIndent.Indent: `ended` stands for the call coming back; the code has no limit on nested calls and would overflow its stack otherwise. The indentation strings are an arbitrary function of the depth.
- Ethernet.Frame.UnmarshalBinary: the slices of a parsed frame share one allocation in the code; here they are separate values. The same holds of `Arp.ArpPacket.UnmarshalBinary`.
- Arp.ArpPacket.MarshalBinary: what is in the discarded buffer when it crashes is not modelled.
- The lexer of `gosed`, the reading of files by `r` and the writing by `w`, and the construction of regular expressions and replacements: tokens and functions are inputs.
- `hashmap`: `Keys`, `Items`, `CreateKey` and the locks.
- `goxml`: reading and writing XML text, attribute edits, `Copy`, `GetPath`, and the CDATA flag of character data.
- `lockedfile`: opening, locking and closing; `goexpect`: spawning, sending, batching and checks.
- `arp`: the network client; `ethernet`: the choice of checksum, which is a parameter.
- The remaining packages of the repository, which are wrappers around the operating system, the network, reflection or other libraries.
