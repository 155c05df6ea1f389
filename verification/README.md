# TvmJIT: verified models of its machine-code, allocation and matching cores

TvmJIT is LuaJIT with a second front end. This project models the parts of it whose correctness
is hardest to see from one function, and proves what they promise, for all inputs and all runs:

- **DynASM** (`dynasm/dasm_x86.h`), the assembler that the virtual machine is built with. Pass 1
  stores items and threads pending references through their own buffer cells, pass 2 shrinks branches
  while it moves everything behind them, pass 3 writes bytes and patches opcodes it has already written.
  Modelled with classes and loops over the buffers; proved: every branch of the finished code leads to
  the place of the definition its reference means, and the passes fail exactly when a label is missing.
- **The register allocator** of the trace compiler (`src/lj_asm.c`), which generates code backwards.
  Proved: run forwards from any machine state, the code computes exactly the instructions that dead-code
  elimination keeps, with their IR values, and the only error is running out of spill slots; parallel
  moves at the head of a side trace and of PHI registers are right, cycles included.
- **The allocator** (`src/lj_alloc.c`, a dlmalloc): boundary tags, small bins, bitwise tries of sizes,
  `dv` and `top`, segments that are appended, prepended, added, released and trimmed, direct mappings.
  Proved: every operation keeps one heap invariant, and a program that only calls `lj_alloc_f` sees a
  plain store of byte strings, whatever the system grants or refuses.
- **Lua pattern matching** (`src/lib_string.c`), **`table.sort`** (`src/lib_table.c`) and **UTF-8**
  (`src/lib_utf8.c`, `src/lib_tvm.c`): the backtracking matcher finds the first parse in an order that is
  defined without it, sorting is correct within a logarithmic nesting depth, coding and decoding are inverse.

## Layout

| files | content |
|---|---|
| `arith.dfy` | a few facts about division |
| `dynasm_actions`, `_store`, `_view` | action list, items and label events, the pass 1 invariant |
| `dynasm_pass1`, `_link`, `_encode`, `_build` | the three passes as methods, and the program around them |
| `dynasm_layout`, `dynasm_read` | offsets, estimates and shrinking; what the finished bytes mean |
| `ra_ir`, `ra_inv`, `ra_state`, `ra_trace` | IR and machine, the invariant, the `ra_*` operations, the backward loop |
| `ra_head`, `ra_side`, `ra_phi` | side trace heads, whole side traces, PHI shuffling |
| `alloc_ring`, `_bits`, `_tree`, `_untree`, `_bins`, `_links`, `_fit` | rings, size tries and bins, and the class of their links |
| `alloc_chunks`, `_tags`, `_segs`, `_heap` | chunks, tags and segments, and the invariant that joins them with the bins |
| `alloc_use`, `_merge`, `_grow`, `_resize` | what taking, freeing, growing and resizing do to a heap |
| `alloc_state`, `alloc_runs` | the class with the operations of `lj_alloc.c`, and runs of it |
| `lua_pattern`, `_parse`, `_match`, `_meaning`, `_gsub` | matching, what patterns mean without the matcher, replacing |
| `lua_sort`, `lua_utf8` | sorting and UTF-8 |

Terms: an allocator *block* is what a program holds; `Cap` is how many bytes it may use. A heap is `Good`
when chunks tile the segments, heads and feet tell their kinds, no two free chunks touch, and a chunk is
binned if and only if it is free and neither `dv` nor `top`. A segment is *idle* if it is nothing but a free
chunk and its record. A refusal is *excused* if the size is beyond any segment, or the log of refused mappings has
grown meanwhile by the size needed. A reference `Means` the last definition of its
label before it, or the first one after it.

## Model

| member | source | states |
|---|---|---|
| DynasmBuild.BuildCode | src/host/buildvm.c:197-219 | After all puts the passes succeed if and only if no put failed, every reference to a local or pc label has a definition and so has every pc label asked for. Then every branch, short or long, leads to where the definition it means was encoded, every address operand is that of its definition or global, literals, immediates and opcodes are read back from the code byte by byte, branches are short exactly where they can be, and every pc label's offset is that of its last definition |
| DynasmBuild.BranchMeaning | dynasm/dasm_x86.h:416-437 | The displacement a processor reads at an encoded branch leads to the definition that the branch means |
| DynasmBuild.RefReads | dynasm/dasm_x86.h:416-437 | Read as a little-endian number, relative to its end or absolute, the operand of any reference gives the address of the definition it means, or of the undefined global |
| DynasmBuild.AllShortIs | dynasm/dasm_x86.h:304-331 | A jump takes 1 and a conditional branch 0 bytes besides its opcode if and only if the label behind is in reach of the short form, or the estimated distance ahead is at most 127 |
| DynasmRead.ImmReads | dynasm/dasm_x86.h:391-402 | The bytes of an immediate, read as a little-endian number of their width, give the operand modulo that width, and sign-extended the operand itself where a short form was chosen |
| DynasmRead.BranchReads | dynasm/dasm_x86.h:404-415 | A shortened branch reads as the same branch that its literal bytes encode in the long form |
| DynasmRead.AllReads | dynasm/dasm_x86.h:385-460 | In the finished code every literal, rewritten opcode, immediate, fill byte and alignment is what the actions say, read by the meaning of the bytes |
| DynasmBuild.OpenEntry | dynasm/dasm_x86.h:482-496 | A label's table entry is positive if and only if some reference to it has no definition yet, which is what `dasm_checkstep` and `dasm_link` test |
| DynasmBuild.MeansOne | dynasm/dasm_x86.h:216-251 | A reference means at most one definition |
| DynasmBuild.PcOffset | dynasm/dasm_x86.h:469-478 | After linking, `dasm_getpclabel` answers with the offset of the label's last definition, or -2 if there is none |
| DynasmBuild.CollectOpcodes | src/host/buildvm.c:209-219 | The loop over the pc labels succeeds if and only if all of them are defined |
| DynasmStore.PendingIsUnresolved | dynasm/dasm_x86.h:216-251 | The pending chain of a label holds exactly the references to it that have no definition yet |
| DynasmStore.ChainDistinct | dynasm/dasm_x86.h:243-251 | No buffer cell occurs twice on a chain, so following it ends |
| DynasmStore.ZeroNeverPending | dynasm/dasm_x86.h:220-229 | Entry 0 of the label table never has pending references |
| DynasmView.StoreRef | dynasm/dasm_x86.h:216-241 | Storing a reference, linked or pushed on its label's chain, keeps layout, history, resolved cells and label table consistent |
| DynasmView.StoreDef | dynasm/dasm_x86.h:243-251 | Storing a label, which fills every cell of its chain, keeps them consistent |
| DynasmView.ResetKeepsInv | dynasm/dasm_x86.h:482-496 | So does forgetting the local labels when none is pending |
| DynasmPass1.Encoder.Put | dynasm/dasm_x86.h:167-269 | One put appends exactly the items and label events of its actions and keeps the encoder valid; it fails if and only if an operand does not fit, a label or section does not exist, or a backward reference finds no definition, and the status names the first such action |
| DynasmPass1.PutItemsAre | dynasm/dasm_x86.h:186-264 | The items of a put are the actions of the list one behind the other up to its end, with the arguments in the order given |
| DynasmPass1.BehindIs | dynasm/dasm_x86.h:222-226 | A label can be referenced backwards if and only if it has a definition that no later forward reference and no reset has taken back |
| DynasmPass1.Encoder.CheckStep | dynasm/dasm_x86.h:482-496 | It succeeds if and only if no forward reference to a local label is open (and the section is the one asked for), and then forgets the local labels; otherwise the status names the first open label, or the section |
| DynasmLayout.Ahead | dynasm/dasm_x86.h:298-331 | The final distance to an item ahead is not negative and not more than pass 1 estimated |
| DynasmLayout.ShrunkFits | dynasm/dasm_x86.h:310-327 | A branch that pass 2 shrank reaches its label with a signed byte, although it was judged on estimates that later branches and alignments still reduce |
| DynasmLink.MarkedBound | dynasm/dasm_x86.h:281-296 | When globals have been marked, every reference cell holds its target or the negated number of an undefined global |
| DynasmLink.UndefinedHere | dynasm/dasm_x86.h:284-296 | A reference so marked is to a global that no put defines |
| DynasmLink.Link | dynasm/dasm_x86.h:273-353 | It fails exactly if a put failed or a pc label is pending, naming the first such label; otherwise all items are placed one behind the other and codesize is where the last one ends |
| DynasmLink.PcLabelPlaced | dynasm/dasm_x86.h:469-478 | The value `dasm_getpclabel` reads after linking is the placed offset of the last definition |
| DynasmEncode.RefValue | dynasm/dasm_x86.h:416-437 | The operand pass 3 computes for a reference |
| DynasmEncode.Encode | dynasm/dasm_x86.h:367-466 | After a successful link it fills exactly codesize bytes, never reports a phase error, emits every item at its offset with rewritten opcodes, and sets exactly the defined globals; what the bytes mean is AllReads and RefReads |
| DynasmEncode.BranchReaches | dynasm/dasm_x86.h:396-437 | Decoding the displacement bytes of any branch yields the final distance to its label |
| RaTrace.AsmTrace | src/lj_asm.c:2300-2376 | No register stays allocated, and from any machine state the code logs exactly the kept instructions with their IR values. It fails only if the slots given out, each apart from the others and restored from by the code, leave no room for one more |
| RaTrace.AsmBackwards | src/lj_asm.c:2337-2349 | The backward loop, down to any instruction: an instruction has a register or slot if and only if a kept later one needs it; it fails only if the slots given out leave no room |
| RaTrace.ExpectedExact | src/lj_asm.c:2340-2342 | The expected log holds exactly the kept instructions |
| RaTrace.ExpectedOrdered | src/lj_asm.c:2337-2349 | And each once, in IR order |
| RaTrace.LoggedExactly | src/lj_asm.c:2337-2349 | Logged are exactly the instructions with the side effect mark, those that a USE or a logged instruction consumes, and all of them without dead-code elimination |
| RaInv.RanOutOverflow | src/lj_asm.c:371-392 | It takes a long trace to run out of slots |
| RaInv.RanOutLoads | src/lj_asm.c:371-392 | Slots run out only after restored registers: code that restores nothing has not run out |
| RaState.AsmState.RaRematk | src/lj_asm.c:318-368 | Rematerialising a constant frees its register, and the code so far stays right |
| RaState.AsmState.RaSpill | src/lj_asm.c:371-392 | A slot is found or given, apart from all others; it fails if and only if the slots given out leave no room for one of this width |
| RaState.AsmState.RaRestore | src/lj_asm.c:407-425 | Restoring frees exactly that register and keeps the invariant |
| RaState.AsmState.RaSave | src/lj_asm.c:428-432 | The value is stored to its slot right after it is computed |
| RaState.AsmState.RaEvict | src/lj_asm.c:440-459 | The cheapest allowed register is freed |
| RaState.AsmState.RaPick | src/lj_asm.c:462-469 | An allowed register is free, without any change if one was free before, and at the cost of at most one eviction otherwise |
| RaState.AsmState.RaScratch | src/lj_asm.c:472-478 | The same for a scratch register |
| RaState.AsmState.RaEvictset | src/lj_asm.c:481-501 | All registers of a set are free afterwards, and no others |
| RaState.AsmState.RaEvictk | src/lj_asm.c:504-529 | No constant holds a register afterwards |
| RaState.AsmState.RaAllocref | src/lj_asm.c:604-644 | A reference gets an allowed register; other values stay where they can be found |
| RaState.AsmState.RaAlloc1 | src/lj_asm.c:647-654 | The same on demand, and registers outside the allowed set stay |
| RaState.AsmState.RaAlloc2 | src/lj_asm_arm64.h:25-46 | Two operands hold their registers at the same time |
| RaState.AsmState.RaRename | src/lj_asm.c:667-684 | A value moves to another register, with the inverse move in front of the code |
| RaState.AsmState.RaDest | src/lj_asm.c:690-708 | The destination is free and the references below keep their use |
| RaState.AsmState.RaDestreg | src/lj_asm.c:711-719 | The same with a forced register |
| RaTrace.AsmFparith | src/lj_asm_arm64.h:1289-1295 | A three-operand instruction computes the value its IR instruction stands for |
| RaHead.AsmHeadShuffle | src/lj_asm.c:1871-1909 | The moves take every parent register to its target in parallel; it fails if and only if a register file holds a cycle and no register to break it with |
| RaHead.AsmHeadScan | src/lj_asm.c:1774-1809 | The scan collects exactly the inherited values that need a move |
| RaHead.AsmHeadSide | src/lj_asm.c:1757-1919 | After it, the code run on the parent's registers computes what it computed before; it fails if and only if, in the state on entry, some values must each go where another one of them lies and no register of that file is spare |
| RaHead.TangledIs | src/lj_asm.c:1871-1909 | The shuffle is stuck if and only if the inherited values form such a ring without a spare register |
| RaSide.AsmSideTrace | src/lj_asm.c:2300-2376 | A whole side trace: run from any state in which the parent's registers hold the inherited values, the code logs exactly the kept instructions; it fails if and only if the slots run out or the registers that the loop has left are tangled with those of the parent |
| RaPhi.PhiPass | src/lj_asm.c:1376-1397 | One pass over the PHI registers leaves each in place, free, or blocked, and takes no register from a value that was in place |
| RaPhi.AsmPhiBreak | src/lj_asm.c:1337-1351 | Breaking a cycle frees the register of one misplaced PHI and displaces no PHI that was in place |
| RaPhi.AsmPhiShuffle | src/lj_asm.c:1371-1419 | It ends with every PHI register in place or free, and every modified non-PHI register free; unless the operands form a ring on entry, each operand that has a register ends in its PHI register |
| AllocTree.InsertOk | src/lj_alloc.c:740-776 | Inserting keeps the trie ordered by size bits and adds exactly that chunk |
| AllocTree.PutRep | src/lj_alloc.c:740-776 | The pointer writes of the macro represent the tree that insertion yields |
| AllocUntree.RemoveOk | src/lj_alloc.c:779-825 | Removing keeps the trie and removes exactly that chunk |
| AllocUntree.RemoveRep | src/lj_alloc.c:779-825 | The pointer writes of the macro, with a ring mate or a leaf as heir, represent the tree that removal yields |
| AllocBins.PutSmallOk | src/lj_alloc.c:687-700 | Inserting a small chunk keeps all bins and binmaps and bins exactly that chunk more |
| AllocBins.TakeSmallOk | src/lj_alloc.c:702-712 | Unlinking a small chunk keeps them and bins exactly that chunk less |
| AllocBins.PutLargeOk | src/lj_alloc.c:740-776 | The same for a large chunk put in |
| AllocBins.TakeLargeOk | src/lj_alloc.c:779-825 | And for a large chunk taken out |
| AllocLinks.Bins.InsertChunk | src/lj_alloc.c:827-829 | Exactly that chunk is binned more |
| AllocLinks.Bins.UnlinkChunk | src/lj_alloc.c:831-833 | Exactly that chunk is binned less |
| AllocFit.TmallocLargeFit | src/lj_alloc.c:1141-1186 | The search returns a smallest chunk of the tree bins that is large enough, if any |
| AllocFit.TmallocSmallFit | src/lj_alloc.c:1205-1221 | The search returns a smallest chunk of the tree bins |
| AllocUse.DvTest | src/lj_alloc.c:1188-1201 | The wrapping comparison with `dvsize - nb` chooses the smaller one of the tree chunk and `dv` that is large enough |
| AllocTags.RetileOk | src/lj_alloc.c:671-735 | Retiling a region of chunks (taking, splitting, freeing, joining) keeps tags and geometry right |
| AllocMerge.JoinOk | src/lj_alloc.c:1370-1421 | The region that freeing joins has no free neighbour |
| AllocMerge.JoinGood | src/lj_alloc.c:1370-1421 | Joining keeps the heap good and takes away exactly the freed block |
| AllocSegs.FrontOk | src/lj_alloc.c:913-943 | A region mapped right before a segment extends it |
| AllocSegs.ResizeOk | src/lj_alloc.c:1018-1025 | The top segment may grow or shrink at its end |
| AllocSegs.AddOk | src/lj_alloc.c:946-990 | After add_segment's writes of record, fenceposts and rest, the heap has one more segment and is still right |
| AllocSegs.ReleaseOk | src/lj_alloc.c:1064-1083 | A segment that is one free chunk can be dropped |
| AllocGrow.ReleaseCan | src/lj_alloc.c:1067-1072 | The test on head and end finds only segments that are one free chunk and a record |
| AllocGrow.ReleaseSafe | src/lj_alloc.c:1064-1083 | Unmapping such a segment hits no block, no record in use and no allocator state |
| AllocGrow.TrimSafe | src/lj_alloc.c:1104-1124 | Neither does cutting off the excess of top |
| AllocGrow.TrimExtraIs | src/lj_alloc.c:1105-1108 | The excess leaves more than the pad and at most one unit more |
| AllocGrow.WhichBlock | src/lj_alloc.c:492-499 | `is_direct` tells direct chunks from all others, and the chunk's own words give its usable size |
| AllocResize.BlocksApart | src/lj_alloc.c:1477-1487 | Blocks are 8-aligned, apart from each other, from malloc_state and from segment records |
| AllocResize.WordsApart | src/lj_alloc.c:462-489 | No head, no foot in use and no link of a free chunk lies in a block |
| AllocState.Mstate.constructor | src/lj_alloc.c:1237-1259 | A fresh region makes a good heap without blocks |
| AllocState.Mstate.TmallocLarge | src/lj_alloc.c:1141-1202 | It takes a best fit among tree bins and `dv`, splits it or not, or leaves all as it is because `dv` is best or nothing fits |
| AllocState.Mstate.TmallocSmall | src/lj_alloc.c:1205-1233 | It takes a best fit and makes the rest the new `dv` |
| AllocState.Mstate.ReplaceDv | src/lj_alloc.c:727-735 | The old `dv` goes to its bin |
| AllocState.Mstate.Prepend | src/lj_alloc.c:913-943 | Joining the rest with top, `dv` or a free first chunk, it grants a block and keeps the heap good |
| AllocState.Mstate.SetTopSegment | src/lj_alloc.c:886-899 | The top segment gets a new size, and top the rest of it |
| AllocState.Mstate.AddSegment | src/lj_alloc.c:946-990 | All blocks stay and the new segment is top |
| AllocState.Mstate.DirectAlloc | src/lj_alloc.c:837-854 | It grants a block in a mapping of its own or changes nothing |
| AllocState.Mstate.AllocSys | src/lj_alloc.c:994-1051 | It grants one block of the size or leaves all blocks as they are, and refuses only if the size is beyond any segment or the system has just refused to map a segment of the size needed |
| AllocState.Mstate.AllocSegment | src/lj_alloc.c:1009-1048 | A mapped segment always meets the request, whether appended, prepended or added |
| AllocState.Mstate.ReleaseUnused | src/lj_alloc.c:1056-1096 | All blocks stay, only unneeded memory is unmapped, and afterwards no segment but that of top is idle, unless the system refused to unmap one |
| AllocState.Mstate.HasLink | src/lj_alloc.c:595-604 | It finds a segment record in a segment if and only if there is one |
| AllocState.Mstate.SegmentHolding | src/lj_alloc.c:583-592 | It finds the first segment that holds the address |
| AllocState.Mstate.Trim | src/lj_alloc.c:1098-1136 | All blocks stay, only unneeded memory is unmapped, and top keeps more than the padded reserve if it had it; afterwards no segment is idle and top exceeds the reserve by at most one unit, unless a record pins its segment or the system refused to unmap |
| AllocState.Mstate.FreeChunk | src/lj_alloc.c:1366-1421 | A block is freed into top, `dv` or a bin, joined with free neighbours on either side |
| AllocState.Mstate.Free | src/lj_alloc.c:1356-1425 | Exactly that block is gone, and NULL changes nothing; a top that has grown beyond the threshold is trimmed, and when the countdown ends no segment is idle |
| AllocState.Mstate.Malloc | src/lj_alloc.c:1273-1354 | A granted block is new, large enough and less than a chunk larger; where it comes from is as `Prefers` defines it; a refusal changes no block and comes only from a size beyond any segment or from the system |
| AllocState.PrefersFree | src/lj_alloc.c:1273-1354 | A refused request of any size finds no free chunk and no top that it fits in |
| AllocState.Mstate.DirectResize | src/lj_alloc.c:856-881 | It keeps the chunk or moves it with its bytes, or changes nothing |
| AllocState.Mstate.Realloc | src/lj_alloc.c:1427-1475 | The block keeps the bytes that fit in old and new size and is less than a chunk larger, all other blocks keep their place and bytes, a refusal changes nothing and is excused as for malloc, and the block stays where it is if it has room there |
| AllocState.Mstate.AllocF | src/lj_alloc.c:1477-1487 | Blocks and bytes change as pointer and size call for: one block freed, one granted, or one resized with its bytes; nothing if refused, and refused only if the size is too large or the system refused a mapping meanwhile |
| AllocRuns.RunAll | src/lj_alloc.c:1477-1487 | Over every run of calls and writes, with a system that may refuse anything, the allocator holds what a plain store of byte strings holds: blocks aligned, apart, large enough, with the bytes last written; there is no block nobody holds, and a call fails only if it asks for too much or the system refused a mapping during it |
| AllocRuns.ServedOk | src/lj_alloc.c:1477-1487 | One call refines one step of that store |
| LuaParse.FirstUnique | src/lib_string.c:338-421 | The first parse of a subject is unique |
| LuaParse.BetterAsymmetric | src/lib_string.c:272-299 | The preference among parses is a strict order |
| LuaParse.TooComplex | src/lib_string.c:338-341 | A pattern is too complex only if it has as many bytes as levels are allowed |
| LuaParse.MatchWithin | src/lib_string.c:338-421 | A match lies in the subject, and so do its captures |
| LuaPattern.BalanceFirst | src/lib_string.c:251-270 | The end found for `%b` is the first position at which the string is balanced |
| LuaPattern.RepeatsIs | src/lib_string.c:272-279 | The count of repetitions is the largest one |
| LuaMeaning.ClassMeaning | src/lib_string.c:196-214 | A class letter names its bytes, written out, and in upper case all others |
| LuaMeaning.EscapedByte | src/lib_string.c:202-214 | Any other escaped byte stands for itself |
| LuaMeaning.SpelledSet | src/lib_string.c:216-237 | A set written as a list of bytes, ranges and classes matches exactly the bytes that some member has, and with `^` all others |
| LuaMeaning.RangeMeaning | src/lib_string.c:229-232 | `[lo-hi]` matches exactly the bytes from lo to hi |
| LuaMeaning.SetMeaning | src/lib_string.c:216-237 | So does any set, however written, with the members read off its text |
| LuaMeaning.MembersSpelled | src/lib_string.c:175-194 | These members are the text of the set, without its `]` unless an escape at its end uses it up |
| LuaMeaning.RepetitionMeaning | src/lib_string.c:386-417 | An item with `?`, `*`, `+`, `-` or none is repeated with the first count in its order of preference after which the rest matches; without a match, the rest matches after no count |
| LuaMeaning.CaptureMeaning | src/lib_string.c:301-324 | A capture around a repeated item holds exactly the bytes that the item matched |
| LuaMatch.MatchState.MaxExpand | src/lib_string.c:272-285 | The outcome is that of the largest repetition count after which the rest matches or raises an error |
| LuaMatch.MatchState.MinExpand | src/lib_string.c:287-299 | The outcome is that of the smallest such count |
| LuaMatch.MatchState.StartCapture | src/lib_string.c:301-313 | Opening a capture, undone if the rest does not match |
| LuaMatch.MatchState.EndCapture | src/lib_string.c:315-324 | Closing the innermost open capture, undone likewise |
| LuaMatch.MatchState.Match | src/lib_string.c:338-421 | The backtracking matcher returns the first parse with its captures, or its error (too deep nesting included, exactly where the search gets there), or none if none exists, and restores the captures when it fails |
| LuaGsub.AddS | src/lib_string.c:547-566 | A replacement string is rendered with its captures, or with the error of the first one that is missing |
| LuaGsub.PartsRendered | src/lib_string.c:547-566 | A replacement written as a list of bytes, the whole match and captures renders as the concatenation of what these say |
| LuaGsub.PositionText | src/lib_string.c:433-434 | A position capture renders as the numeral of its position counted from one |
| LuaGsub.Gsub | src/lib_string.c:600-639 | The result is the subject cut into leftmost matches and single characters, each match replaced, the empty one only once at its place; it ends only after the given number of replacements, after one attempt if anchored, or after an attempt at the end of the subject; an error is that of the place the cut has reached; replacing by `%0` is the identity |
| LuaGsub.StrFind | src/lib_string.c:450-501 | The leftmost match, the error at the first position that raises one, or proof that there is none |
| LuaSort.Sorter.Partition | src/lib_table.c:218-244 | The part is split around the pivot |
| LuaSort.Sorter.AuxSort | src/lib_table.c:196-257 | For any comparator the part is rearranged and nothing else, for an order it is sorted, and calls nest no deeper than the logarithm of the length |
| LuaSort.TableSort | src/lib_table.c:259-268 | The same for the table |
| LuaUtf8.Wchar | src/lib_tvm.c:85-114 | The encoding of a list of code points, or an error for one that is none |
| LuaUtf8.Decode | src/lib_utf8.c:40-63 | One character is decoded if and only if its bytes are well formed |
| LuaUtf8.Len | src/lib_utf8.c:71-94 | The number of characters, or the position of the first bad byte |
| LuaUtf8.Codepoint | src/lib_utf8.c:101-127 | The code points of a range, or which argument is wrong |
| LuaUtf8.Utf8Offset | src/lib_utf8.c:134-173 | The position of the n-th character forward or backward |
| LuaUtf8.ScanReencodes | src/lib_utf8.c:40-63 | What is accepted encodes to the same bytes again |
| LuaUtf8.RoundTrip | src/lib_utf8.c:71-173 | Of an encoded list, the code points and the start of every character counted from either end |
| LuaUtf8.EncodedCalls | src/lib_utf8.c:71-173 | For an encoded list, `len` from 1 to -1 counts it, `codepoint` returns it, and `offset` finds the n-th character from either end |
| LuaUtf8.HoldingCalls | src/lib_utf8.c:134-173 | From any byte of a character, named from either end, `offset` with 0 finds its start |

## Left out

DynASM:
- DynASM actions VREG, DISP, MARK, SETLABEL, EXTERN and REL_A, which need operands or callbacks outside this file; a put of an action list that has them is outside the model.
- DynasmPass1.Encoder.Put: assumes a well-formed action list (what the DynASM preprocessor writes), range checks compiled in, no put after a failed one, at most 127 sections and 2^24 slots in each.
- DynasmBuild.BuildCode: states branch targets for code below 2 GB only, since displacements are 32 bits wide; allocation of the code buffer does not fail.
- Buffers are maps from biased positions to cells, so that growing one keeps its contents by construction.

Register allocator:
- Weak allocations, references to constants shared between registers, snapshots, RENAME instructions and the guard exits they serve.
- Instruction selection is represented by three-operand, leaf, call and use instructions; loop handling (asm_loop) and the setup of PHI registers are not modelled.
- RaHead.AsmHeadSide: covers side traces whose inherited values need no stack slots on either side; the two further passes for those are not modelled.
- RaSide.AsmSideTrace: says so with its second result when such a slot exists.
- RaPhi.AsmPhiShuffle: with a ring on entry, an operand may end without its PHI register, because breaking the ring may evict others as well; which ones is not stated. It ends before the loop that saves PHI registers with spill slots.
- Costs are unbounded numbers; the wrap-around of a cost above 2^32 is not modelled.

Allocator:
- How the system finds addresses (hints, probing, random addresses, the variants for other systems); mmap, munmap and mremap may do or refuse anything the mapped regions allow, and a fresh region is page-aligned, so alignment offsets are 0.
- Segments stay below 2^40 bytes, above which compute_tree_index truncates; a larger mapping counts as refused by the system.
- AllocState.Mstate.Munmap: reports the outcome only, because unmapped memory is tracked by segments and direct chunks; what may be unmapped is its precondition.
- The words of chunks are maps by chunk address, separate from each other and from the bytes of blocks; that they never overlap what a program holds is WordsApart.
- mremap in place, used to trim, unmaps the same bytes as munmap and is modelled as that.
- lj_alloc_destroy, and a refused first mapping in lj_alloc_create.

Lua libraries:
- Replacement tables and functions of gsub, its default count, gmatch, plain find and format.
- Lua values are abstract: a comparator is any function of the number of the call and its operands, and may answer inconsistently.
- The C stack; pattern matching depth is the source's own counter.
