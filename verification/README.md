# Verified model of samply's profile builder and symbol readers

This project models, in Dafny, the parts of samply with the most intricate state and arithmetic, and
proves what they promise.

- **Profile builder** (`fxprof-processed-profile`). A profile is a set of processes and threads; each
  thread interns strings, libraries, functions, native symbols, frames and stacks in tables and
  collects samples, allocation samples and markers. `ProfileModel` gives the meaning of every public
  call as a step on plain values; `Profiles`, `Threads` and the table modules are classes whose methods
  update fields in place and are proved to do exactly that step, one call at a time and over whole runs
  (`ProfileClients`). Runs of calls are then shown to keep
  every table coherent (`ProfileRuns`), to hold what the calls told them (`ProfileHistory`), and to let samples, allocation samples, markers and their
  stacks read back as they were recorded (`ProfileReadBack`, `MarkerReadBack`, `SampleRuns`), with the
  symbols found when a frame was first seen (`FirstSight`, `SymbolRuns`).
- **Address space** (`LibMappings`, `Libraries`, `GlobalLibs`). Mapped ranges, symbol tables and
  handles, each against a naive list that is scanned.
- **Sample merging** (`ZeroCpu`, `SampleTable`). What idle samples are folded into, when 32-bit weights
  are exact, and when the file is written in order of time.
- **Symbol readers** (`samply-symbols`): the symbol list of an object file, the jitdump index, the
  chunked file cache, the debug-link CRC, ULEB128 function starts and special source paths.
- **ETW properties** (`etw-reader`) and **quota eviction** (`samply-quota-manager`).

Where the code does not do what its documentation says in every case, the model follows the code: a
lemma gives the exact condition under which it does, and another one gives an input for which it does
not. These are: inverted mappings; conversion of addresses more than 4 GiB into a library; merged weights outside 32
bits; timestamps hidden by a merge; empty code in a jitdump, which a search may hit instead of the code behind it; empty, long and cached string reads
through the chunked cache; paths with delimiters in their parts; and eviction at a total equal to the
limit or too large to sum.

All arithmetic is that of release builds: casts truncate and sums wrap at their width. The run theorems
about profiles require the handles a caller passes to have been issued by the same profile, mappings not
to make the map's range query panic, and, where indexes are 32 bits wide, the final tables to have at most 2^32 rows.

`dafny verify dfyconfig.toml` checks the project.

## Model

| member | source | states |
|---|---|---|
| LibMappings.LookupRefinesLinearScan | fxprof-processed-profile/src/lib_mappings.rs:110-118 | After any run of additions, removals and clears that does not panic and adds only clean mappings, the one-probe lookup gives for every address the mapping that scanning an unordered list of all surviving mappings gives; the map stays sorted and disjoint. A mapping is clean unless it is inverted and ends exactly where the mapping covering its start begins. |
| LibMappings.RefinesThroughoutIff | fxprof-processed-profile/src/lib_mappings.rs:55-118 | Over every run that does not panic, inverted ranges included, all lookups at all times agree with the scan exactly when only clean mappings are added. |
| LibMappings.AddEvictsOverlapsIff | fxprof-processed-profile/src/lib_mappings.rs:55-87 | An addition that does not panic evicts exactly the mappings that share an address with it (or its start), each as a whole, and leaves the map sorted and disjoint, exactly when it is clean. |
| LibMappings.ForwardAddIsFine | fxprof-processed-profile/src/lib_mappings.rs:55-87 | A range that is not inverted never panics and is always clean. |
| LibMappings.InvertedAddHidesMapping | fxprof-processed-profile/src/lib_mappings.rs:55-87 | Adding 50..20 over a mapping of 20..100 panics nowhere, evicts nothing, and makes the lookup at 60 miss that mapping. |
| LibMappings.ApplyKeepsKeys | fxprof-processed-profile/src/lib_mappings.rs:55-100 | Every operation, clean or not, keeps one entry per start address. |
| LibMappings.OverlapsMeansSharedAddress | fxprof-processed-profile/src/lib_mappings.rs:34-36 | For non-empty ranges, the mappings an addition evicts are exactly those that share an address with it. |
| LibMappings.RemovalFindsMapping | fxprof-processed-profile/src/lib_mappings.rs:91-95 | After any run of clean operations, what a removal takes out is the only surviving mapping with that start address, and nothing is found exactly when there is none. |
| LibMappings.ConvertExactIffFits | fxprof-processed-profile/src/lib_mappings.rs:122-127 | Conversion succeeds exactly on mapped addresses, returns the value of the mapping, and its relative address is the true one exactly when that fits in 32 bits; otherwise it is truncated. |
| LibMappings.ConvertTruncates | fxprof-processed-profile/src/lib_mappings.rs:122-127 | A concrete address 4 GiB into a mapping whose relative address comes out as 5. |
| LibMappings.LibMappings.AddMapping | fxprof-processed-profile/src/lib_mappings.rs:55-87 | The method updates the map as the specification of an addition says. |
| LibMappings.LibMappings.RemoveMapping | fxprof-processed-profile/src/lib_mappings.rs:91-95 | The method removes the mapping with the given start and returns its relative start and value, or nothing. |
| LibMappings.LibMappings.Clear | fxprof-processed-profile/src/lib_mappings.rs:98-100 | The method empties the map. |
| Libraries.LookupRefinesScan | fxprof-processed-profile/src/library_info.rs:88-110 | For every list of symbols and every address, sorting, deduplicating and searching finds the symbol that a scan of the unsorted list finds: the one with the greatest address at or before it and, among several there, the least (unknown size first, then by size, then by name), unless its size, saturating at the largest 32-bit number, ends before. |
| Libraries.LookupFindsIff | fxprof-processed-profile/src/library_info.rs:88-110 | A lookup in the table built from any list finds a symbol exactly when it is in the list, starts at or before the address with no other start between, is the one kept among those that start with it (unknown size first, then the smaller size, then the lexicographically first name), and has no size or an end, at most the largest 32-bit number, behind the address. |
| Libraries.NewSymbolTable | fxprof-processed-profile/src/library_info.rs:88-92 | The constructor sorts and deduplicates into the specified table, whose addresses strictly ascend. |
| Libraries.Lookup | fxprof-processed-profile/src/library_info.rs:95-110 | On any sorted table the binary search and the size check find exactly the symbol that starts last at or before the address, if that has no size or its saturated end lies behind the address. |
| GlobalLibs.HandlesIdentifyLibraries | fxprof-processed-profile/src/global_lib_table.rs:37-44 | Equal library descriptions get equal handles and different ones different handles. |
| GlobalLibs.HandleForCoherent | fxprof-processed-profile/src/global_lib_table.rs:37-44 | Handing out a handle keeps the table coherent, only appends, and the handle leads to the library. |
| GlobalLibs.UseCoherent | fxprof-processed-profile/src/global_lib_table.rs:50-58 | Marking a library as used keeps the used-library numbering one-to-one and never renumbers an earlier one. |
| GlobalLibs.SetSymbolTableCoherent | fxprof-processed-profile/src/global_lib_table.rs:46-48 | Attaching a symbol table keeps the table coherent; handles issued before stay valid. (`ProfileHistory.LibHandleLeads` says which table a handle leads to.) |
| GlobalLibs.GlobalLibTable.HandleForLib | fxprof-processed-profile/src/global_lib_table.rs:37-44 | The method is the specified step of the table. |
| GlobalLibs.GlobalLibTable.IndexForUsedLib | fxprof-processed-profile/src/global_lib_table.rs:50-58 | The method is the specified step of the table. |
| GlobalLibs.GlobalLibTable.AddLibUsedRva | fxprof-processed-profile/src/global_lib_table.rs:65-67 | The method adds the address to the set of that library and touches no other set. |
| GlobalLibs.UsedLibraryAddressesIterator.Next | fxprof-processed-profile/src/global_lib_table.rs:106-118 | The iterator yields the used libraries in order, each with the set of its recorded addresses, and then ends. |
| StringTables.InternCoherent | fxprof-processed-profile/src/string_table.rs:17-27 | Interning keeps every earlier index and returns an index that leads to the string, as long as 32 bits are enough. |
| StringTables.IndexIdentifiesString | fxprof-processed-profile/src/string_table.rs:17-27 | Two indexes are equal exactly when their strings are. |
| StringTables.ConvertCoherent | fxprof-processed-profile/src/thread_string_table.rs:30-43 | The thread-local index for a profile-wide string leads to the same text, and the cache of conversions stays right. |
| StringTables.StringTable.IndexForString | fxprof-processed-profile/src/string_table.rs:17-27 | The method is the specified interning step. |
| StringTables.ThreadStringTable.IndexForGlobalString | fxprof-processed-profile/src/thread_string_table.rs:30-43 | The method is the specified conversion step. |
| ResourceTables.ForLibCoherent | fxprof-processed-profile/src/resource_table.rs:20-35 | Each used library gets one resource, named after the library; earlier resources stay. |
| ResourceTables.ResourceTable.ResourceForLib | fxprof-processed-profile/src/resource_table.rs:20-35 | The method is the specified step of the table and of the string table. |
| FuncTables.ForFuncCoherent | fxprof-processed-profile/src/func_table.rs:24-44 | One row per name, resource and flags; earlier rows stay and the returned row is the requested one. |
| FuncTables.JsBitFollows | fxprof-processed-profile/src/func_table.rs:24-48 | The summary bit is on exactly when some row is flagged as JavaScript or as relevant for it. |
| FuncTables.FuncTable.IndexForFunc | fxprof-processed-profile/src/func_table.rs:24-44 | The method is the specified step of the table. |
| NativeSymbolTables.ForSymbolCoherent | fxprof-processed-profile/src/native_symbols.rs:25-48 | One row per library and symbol address, with the string index the returned name has; a new row carries the address, the size and the name of the symbol; earlier rows stay. |
| NativeSymbolTables.NativeSymbols.SymbolIndexAndStringIndexForSymbol | fxprof-processed-profile/src/native_symbols.rs:25-48 | The method is the specified step of the table, its function sizes included, and of the string table. |
| FrameTables.ForFrameCoherent | fxprof-processed-profile/src/frame_table.rs:30-101 | Interning a frame keeps every table coherent, only appends, and returns a row whose columns show the frame; every row belongs to exactly one frame (location, category pair, flags). |
| FrameTables.RowsLookAlikeIff | fxprof-processed-profile/src/frame_table.rs:30-101 | The rows of two frames agree in all columns exactly when the frames are the same, or one is a label whose text reads like the other's unmapped address in hex, with the same category pair and flags. |
| FrameTables.EveryRowHasFrame | fxprof-processed-profile/src/frame_table.rs:30-101 | Every row is the row of some frame and shows it. |
| FrameTables.DescribeNamesSymbol | fxprof-processed-profile/src/frame_table.rs:56-83 | An address that a symbol covers gets the native symbol at (library, symbol address); it is named after the symbol exactly when no other name was recorded there before, and has its function size unless one was recorded there before. |
| FrameTables.NewRowCarriesDescription | fxprof-processed-profile/src/frame_table.rs:87-100 | A new row carries the native symbol and the name its location was described with. |
| FrameTables.ForFrameRvas | fxprof-processed-profile/src/frame_table.rs:71-83 | Interning a frame records an address in a library exactly when the tables gain an unsymbolicated row for it, and forgets none. |
| FrameTables.FrameTable.IndexForFrame | fxprof-processed-profile/src/frame_table.rs:30-101 | The method updates the frame, function, resource, native symbol and string tables and the library table as specified. |
| StackTables.ForStackCoherent | fxprof-processed-profile/src/stack_table.rs:63-87 | Pushing a frame returns the node for the prefix and the frame, and the table stays a well-formed prefix tree. |
| StackTables.FramesIdentifyStack | fxprof-processed-profile/src/stack_table.rs:63-87 | Two stack indexes are equal exactly when the frame lists read along their prefixes are equal. |
| StackTables.FramesOfStable | fxprof-processed-profile/src/stack_table.rs:63-87 | A stack index keeps its list of frames while the table grows. |
| StackTables.StackTable.IndexForStack | fxprof-processed-profile/src/stack_table.rs:63-87 | The method is the specified step of the table. |
| CallStacks.PushFramesRoundTrip | fxprof-processed-profile/src/profile.rs:687-740 | For every list of frames, walking prefixes from the returned index gives one interned row per frame, in order, each the row of that frame as resolved with the mappings of that moment; everything stored before is still there. |
| CallStacks.StacksIdentifyCallStacks | fxprof-processed-profile/src/profile.rs:687-740 | Two stack indexes of a thread are equal exactly when they were made from lists of frames that agree in resolved meaning, category pair and flags, however far apart and under whatever mappings. |
| CallStacks.RowsIdentifyFrames | fxprof-processed-profile/src/frame_table.rs:30-101 | Two frames are represented by one row exactly when their resolved meaning, category pair and flags are equal. |
| CallStacks.RepresentingRowShowsFrame | fxprof-processed-profile/src/frame_table.rs:30-101 | The columns of a row that represents a frame show its relative address and library, or the string that prints its address in hex, or label text; its category; the chosen subcategory or else the category's implicit other one; its flags; and, if it has a native symbol, one of its library starting at or before the address, and that symbol's name, however many strings were added since. |
| Prelude.HexLabelReads | fxprof-processed-profile/src/frame_table.rs:50-83 | The label of an address is the one string that is `0x` and the address in lower-case hex digits without leading zeros. |
| FirstSight.ForFrameShows | fxprof-processed-profile/src/frame_table.rs:56-101 | Whatever native symbols and frame rows a thread gains by interning frames, each frame row in a library shows the symbol the lookup finds for its address (native symbol at its address, with its name and function size or those recorded there before), or the address in hex when it finds none. |
| FirstSight.PushFramesShow | fxprof-processed-profile/src/profile.rs:687-740 | The same for a whole call stack pushed. |
| FirstSight.LookupOfFound | fxprof-processed-profile/src/library_info.rs:95-110 | In a sorted table a symbol that is found for some address is found for its own. |
| SymbolRuns.SymbolAtFirstSight | fxprof-processed-profile/src/frame_table.rs:56-101 | Over every run with sorted symbol tables, each frame row of an address in a library shows the address, name and function size of the symbol that the library had for it in the call that first saw the frame on the thread (name and size as first recorded for that symbol address), however its symbol table was replaced later. |
| SymbolRuns.SampleFrameAtFirstSight | fxprof-processed-profile/src/profile.rs:442-452 | In particular each frame of a recorded sample that lies in a library does. |
| CallStacks.KernelTakesPrecedence | fxprof-processed-profile/src/process.rs:84-101 | A kernel mapping that covers the address decides; only otherwise the mappings of the process do; nothing is found exactly when neither covers it. |
| CallStacks.PushFramesRvas | fxprof-processed-profile/src/profile.rs:687-740 | Pushing a call stack records an address of a library exactly when a row without symbol shows it afterwards and it was not recorded yet. |
| SampleTables.SerializedOrderIsPermutation | fxprof-processed-profile/src/sample_table.rs:144-176 | Serialization writes every row exactly once, whatever the sortedness flag says. |
| SampleTables.WrittenInOrderIff | fxprof-processed-profile/src/sample_table.rs:144-176 | The written timestamps ascend exactly when the flag is off (so they get sorted) or the column itself ascends. |
| SampleTables.AddKeepsOrderIff | fxprof-processed-profile/src/sample_table.rs:120-135 | Adding a row keeps the written order right exactly when the flag is off, or the row is earlier than the last added one, or it is not earlier than the last stored one. |
| SampleTables.MergeKeepsOrderIff | fxprof-processed-profile/src/sample_table.rs:137-140 | Changing the last row keeps the written order right exactly when the flag is off or the row does not move before its predecessor. |
| SampleTables.SampleTable.AddSample | fxprof-processed-profile/src/sample_table.rs:120-135 | The method appends one row to all columns and updates the flag and the remembered timestamp. |
| SampleTables.SampleTable.ModifyLastSample | fxprof-processed-profile/src/sample_table.rs:137-140 | The method adds to the last weight, wrapping at 32 bits, and moves the last timestamp, leaving flag and remembered timestamp alone. |
| ZeroCpu.TableIsCollapsedLog | fxprof-processed-profile/src/thread.rs:123-159 | For every sequence of calls the sample table is the log of the calls with each idle entry and the repeating calls directly after it put together: last timestamp, summed weight wrapped to 32 bits, first stack. |
| ZeroCpu.WeightsExactIff | fxprof-processed-profile/src/sample_table.rs:137-140 | Every stored weight is the true total of its group exactly when all totals fit in 32 bits. |
| ZeroCpu.NoOverflowIff | fxprof-processed-profile/src/sample_table.rs:137-140 | No addition of weights overflows (where a debug build panics) exactly when every running total of every group fits in 32 bits. |
| ZeroCpu.MergedWeightWraps | fxprof-processed-profile/src/sample_table.rs:137-140 | Two calls after which the largest weight plus one is stored as the smallest. |
| ZeroCpu.WeightConserved | fxprof-processed-profile/src/thread.rs:123-159 | Merging loses no weight on any stack when the totals fit in 32 bits. |
| ZeroCpu.CpuConserved | fxprof-processed-profile/src/thread.rs:123-159 | Merging loses no CPU time. |
| ZeroCpu.WrittenInOrderOverRunsIff | fxprof-processed-profile/src/sample_table.rs:120-176 | Over every run the written timestamps ascend exactly when some row was added earlier than the row added before it (then they get sorted), or the last timestamps of the groups ascend. |
| ZeroCpu.ForwardCallsStaySorted | fxprof-processed-profile/src/thread.rs:123-159 | Calls whose timestamps never go back are written in ascending order without sorting. |
| ZeroCpu.MergeCanHideDisorder | fxprof-processed-profile/src/sample_table.rs:137-140 | Three calls after which the flag still claims ascending timestamps although they are written out of order. |
| MarkerTables.TimingRecoverable | fxprof-processed-profile/src/marker_table.rs:54-101 | The three stored columns are those of a timing exactly when an instant or a start stands in the start column, an end in the end column, nothing else in either, and the phase names the kind; no other timing has them. |
| MarkerTables.RegisteredIsWellCounted | fxprof-processed-profile/src/markers.rs:388-411 | A registered schema counts its string fields and number fields right, and together they are all its fields. |
| MarkerTables.SerializeData | fxprof-processed-profile/src/marker_table.rs:151-178 | No split of the flat vectors goes out of range, the elements are the specified column, and nothing is left over. |
| MarkerTables.SerializeElement | fxprof-processed-profile/src/marker_table.rs:190-226 | The entries of one element take the values of the slices in field order. |
| MarkerTables.MarkerTable.AddMarker | fxprof-processed-profile/src/marker_table.rs:54-101 | The method appends one marker as specified, converting unique strings to the thread; the returned handle is its row, whose start, end and phase columns show its timing. |
| MarkerTables.MarkerTable.PushFieldValues | fxprof-processed-profile/src/marker_table.rs:78-98 | The loop over the fields appends exactly the string and number values of the marker, in order. |
| MarkerTables.MarkerTable.SetMarkerStack | fxprof-processed-profile/src/marker_table.rs:103-105 | The method replaces the stack of one marker. |
| MarkerRoundTrip.EveryRunRoundTrips | fxprof-processed-profile/src/marker_table.rs:54-226 | Over every run of marker additions, stack changes, schema registrations, new strings and conversions, the serialized element of each marker has the name of its type, the stack set last, and exactly its own values in field order. |
| MarkerRoundTrip.AddedMarkerShows | fxprof-processed-profile/src/marker_table.rs:54-101 | An added marker is the last element and shows its own values; the elements before it are unchanged. |
| MarkerRoundTrip.ColumnSetsStack | fxprof-processed-profile/src/marker_table.rs:103-105 | Setting the stack of a marker changes the stack of that element and nothing else. |
| MarkerReadBack.RecordedMarkerReadsBack | fxprof-processed-profile/src/profile.rs:622-643 | Over every run of profile calls, a recorded marker reads back with its category, the text of its name, its type, its start, end and phase (for each of the four timings) and, per field format, the texts or numbers of all its fields, whatever calls follow. |
| MarkerReadBack.MarkerStackReadsBack | fxprof-processed-profile/src/profile.rs:653-661 | Over every run, the stack set on a marker stands for the given frames and its rows show them, until another stack is set on the same marker. |
| Threads.OkAfterPush | fxprof-processed-profile/src/thread.rs:98-121 | After a call stack is pushed every stored index of the thread points inside its table, and the returned stack is held. |
| Threads.OkAfterMarker | fxprof-processed-profile/src/thread.rs:162-182 | After a marker is added every table of the thread is well formed and the flat vectors still split. |
| Threads.OkAfterSameSample | fxprof-processed-profile/src/thread.rs:150-159 | Repeating the last stack only stores a stack the thread holds. |
| Threads.Thread.AddSample | fxprof-processed-profile/src/thread.rs:123-134 | The method is the specified step of the thread. |
| Threads.Thread.AddSampleSameStackZeroCpu | fxprof-processed-profile/src/thread.rs:150-159 | The method is the specified step of the thread: merge into the last row or add one. |
| Threads.Thread.AddAllocationSample | fxprof-processed-profile/src/thread.rs:136-148 | The method is the specified step of the thread, creating the table on first use. |
| Threads.Thread.AddMarker | fxprof-processed-profile/src/thread.rs:162-182 | The method is the specified step: the name is converted, then the marker is added. |
| Threads.Thread.SetMarkerStack | fxprof-processed-profile/src/thread.rs:184-186 | The method replaces the stack of one marker and nothing else of the thread. |
| Threads.Thread.ConvertStringIndex | fxprof-processed-profile/src/thread.rs:89-96 | The method converts a profile-wide string to the thread and changes nothing else. |
| Threads.Thread.FrameIndexForFrame | fxprof-processed-profile/src/thread.rs:98-111 | The method interns a frame in the tables of the thread and changes nothing else. |
| Threads.Thread.StackIndexForStack | fxprof-processed-profile/src/thread.rs:113-121 | The method interns a stack node and changes nothing else. |
| UniqueIds.TextIsFresh | fxprof-processed-profile/src/profile.rs:221-233 | Every text handed out for an id differs from every text handed out before, for any ids in any order. |
| UniqueIds.UseTextInjective | fxprof-processed-profile/src/profile.rs:221-233 | The k-th text of an id determines both the id and k. |
| UniqueIds.UseTextReads | fxprof-processed-profile/src/profile.rs:221-233 | The text of a first use is the id in decimal, that of a later one the id, a dot and the number of uses before. |
| ProfileRuns.IdsAlwaysDistinct | fxprof-processed-profile/src/profile.rs:202-233 | Over every run no two processes share a pid text and no two threads a tid text, also after tids were replaced. |
| ProfileHistory.EveryRunAsTold | fxprof-processed-profile/src/profile.rs:202-420 | Over every run the profile holds what the list of calls says: each thread its process, main flag, id text, and name and times as set last; each process likewise, with its threads in order and the mappings that its own mapping calls make of an empty map; the kernel mappings; how often each id was asked for; the different libraries, strings and marker types in the order they came. |
| ProfileHistory.LibHandleLeads | fxprof-processed-profile/src/profile.rs:291-306 | The handle a library is added under leads to it for the rest of the run, with the symbol table set last, or the one it came with. |
| ProfileHistory.StaticTypeLeads | fxprof-processed-profile/src/profile.rs:532-557 | A static marker type is registered by its first call only, with that call's name and fields, and its name leads to that registration for the rest of the run. |
| ProfileHistory.AddressMeansScan | fxprof-processed-profile/src/process.rs:84-101 | Over every run that adds only clean mappings, an address means what scanning the surviving mappings says: those the kernel calls left, then those the calls on the thread's own process left; the relative address is 32 bits wide. |
| ProfileHistory.FrameMeansScan | fxprof-processed-profile/src/profile.rs:692-731 | The same for every kind of frame: absolute and relative return addresses stand for the byte before, not below zero, the others for themselves. |
| SampleRuns.RecorderIsRun | fxprof-processed-profile/src/profile.rs:442-464 | Over every run, the samples of a thread (timestamps, stacks, CPU deltas, weights, merging state) are those its own sample calls, with the stacks their frames resolved to, make of an empty table. |
| SampleRuns.ThreadRowsAreCollapsedLog | fxprof-processed-profile/src/profile.rs:442-464 | Hence they are the log of its own sample calls with idle ones put together. |
| ProfileModel.StepKeepsSound | fxprof-processed-profile/src/profile.rs:202-661 | Every public call with issued handles keeps what all calls rely on not to panic: lengths of columns agree, handles and indexes are in range, processes and threads point at each other. |
| ProfileInvariant.StepKeepsCoherent | fxprof-processed-profile/src/profile.rs:202-661 | Every public call keeps the whole profile coherent as long as the 32-bit indexes fit: tables numbered one-to-one, every stored index in range, mappings with one entry per start, allocation samples only on first threads, and the recorded addresses of each library exactly those of its unsymbolicated rows. |
| ProfileInvariant.PushStackCoherent | fxprof-processed-profile/src/profile.rs:687-740 | Pushing a call stack onto one thread keeps the whole profile coherent and leaves every other thread as it was. |
| ProfileInvariant.PushStackRvasExact | fxprof-processed-profile/src/profile.rs:687-740 | After a push, an address is recorded for a library exactly when some thread has an unsymbolicated row for it. |
| ProfileInvariant.AllocationAddedCoherent | fxprof-processed-profile/src/profile.rs:491-521 | Adding an allocation sample to the first thread of the process keeps the profile coherent; in particular only first threads ever hold allocation samples. |
| ProfileRuns.EveryRunCoherent | fxprof-processed-profile/src/profile.rs:133-661 | Over every run of public calls with issued handles on a new profile, the reached profile is coherent if its 32-bit indexes fit. |
| ProfileRuns.SomeRunIsAllowed | fxprof-processed-profile/src/profile.rs:202-452 | Adding a process, its main thread and a sample with any absolute address is a run the theorems about runs speak of. |
| ProfileRuns.AlwaysDisjointIff | fxprof-processed-profile/src/profile.rs:317-366 | Over every run, kernel and process mappings are disjoint at all times exactly when only clean mappings are added. |
| ProfileReadBack.StepRemembers | fxprof-processed-profile/src/profile.rs:202-661 | No public call forgets or renumbers a row, a string or a schema of any thread. |
| ProfileReadBack.RunRemembers | fxprof-processed-profile/src/profile.rs:202-661 | Nor does any run of calls. |
| ProfileReadBack.RecordedSampleReadsBack | fxprof-processed-profile/src/profile.rs:442-452 | Over every run, a recorded sample keeps a stack that stands for the frames it was recorded with, resolved with the mappings of that moment, and the columns of its rows show those frames, whatever calls follow. |
| ProfileReadBack.SamplesShareStackIffSameFrames | fxprof-processed-profile/src/profile.rs:442-452 | Two samples of a thread share a stack index exactly when they were recorded with frames that agree in resolved meaning, category pair and flags. |
| ProfileReadBack.RecordedAllocationReadsBack | fxprof-processed-profile/src/profile.rs:491-521 | Over every run, an allocation sample is found on the first thread of its process with its time, size and address, and its stack stands for and shows the frames it was recorded with. |
| ProfileReadBack.StackReadsShows | fxprof-processed-profile/src/profile.rs:687-740 | In a coherent profile, a stack that stands for frames has one row per frame whose columns show it. |
| Profiles.Profile.AddLib | fxprof-processed-profile/src/profile.rs:291-293 | The method adds a library or finds it, and returns its handle: the contents of all objects change as the specified step says, no two threads share a part, and parts the profile gains are fresh. |
| Profiles.Profile.SetLibSymbolTable | fxprof-processed-profile/src/profile.rs:304-306 | The method attaches a symbol table to a library: the contents of all objects change as the specified step says, no two threads share a part, and parts the profile gains are fresh. |
| Profiles.Profile.InternString | fxprof-processed-profile/src/profile.rs:406-408 | The method interns a string and returns its handle: the contents of all objects change as the specified step says, no two threads share a part, and parts the profile gains are fresh. |
| Profiles.Profile.AddLibMapping | fxprof-processed-profile/src/profile.rs:317-331 | The method adds a mapping to one process: the contents of all objects change as the specified step says, no two threads share a part, and parts the profile gains are fresh. |
| Profiles.Profile.RemoveLibMapping | fxprof-processed-profile/src/profile.rs:335-337 | The method removes a mapping of one process: the contents of all objects change as the specified step says, no two threads share a part, and parts the profile gains are fresh. |
| Profiles.Profile.ClearProcessLibMappings | fxprof-processed-profile/src/profile.rs:340-342 | The method clears the mappings of one process: the contents of all objects change as the specified step says, no two threads share a part, and parts the profile gains are fresh. |
| Profiles.Profile.AddKernelLibMapping | fxprof-processed-profile/src/profile.rs:351-360 | The method adds a kernel mapping: the contents of all objects change as the specified step says, no two threads share a part, and parts the profile gains are fresh. |
| Profiles.Profile.RemoveKernelLibMapping | fxprof-processed-profile/src/profile.rs:364-366 | The method removes a kernel mapping: the contents of all objects change as the specified step says, no two threads share a part, and parts the profile gains are fresh. |
| Profiles.Profile.AddProcess | fxprof-processed-profile/src/profile.rs:202-207 | The method adds a process under a fresh pid text: the contents of all objects change as the specified step says, no two threads share a part, and parts the profile gains are fresh. |
| Profiles.Profile.AddThread | fxprof-processed-profile/src/profile.rs:369-382 | The method adds a thread under a fresh tid text and lists it in its process: the contents of all objects change as the specified step says, no two threads share a part, and parts the profile gains are fresh. |
| Profiles.Profile.SetThreadTid | fxprof-processed-profile/src/profile.rs:400-403 | The method replaces a tid by a fresh text: the contents of all objects change as the specified step says, no two threads share a part, and parts the profile gains are fresh. |
| Profiles.Profile.AddSample | fxprof-processed-profile/src/profile.rs:442-452 | The method pushes the frames and adds a sample: the contents of all objects change as the specified step says, no two threads share a part, and parts the profile gains are fresh. |
| Profiles.Profile.AddSampleSameStackZeroCpu | fxprof-processed-profile/src/profile.rs:457-464 | The method repeats the last stack: the contents of all objects change as the specified step says, no two threads share a part, and parts the profile gains are fresh. |
| Profiles.Profile.AddAllocationSample | fxprof-processed-profile/src/profile.rs:491-521 | The method pushes the frames onto the first thread of the process and adds an allocation sample there: the contents of all objects change as the specified step says, no two threads share a part, and parts the profile gains are fresh. |
| Profiles.Profile.RegisterMarkerType | fxprof-processed-profile/src/profile.rs:532-536 | The method registers a schema: the contents of all objects change as the specified step says, no two threads share a part, and parts the profile gains are fresh. |
| Profiles.Profile.StaticSchemaMarkerType | fxprof-processed-profile/src/profile.rs:542-555 | The method registers a static schema once and returns the same handle afterwards: the contents of all objects change as the specified step says, no two threads share a part, and parts the profile gains are fresh. |
| Profiles.Profile.AddMarker | fxprof-processed-profile/src/profile.rs:622-643 | The method adds a marker and returns its handle: the contents of all objects change as the specified step says, no two threads share a part, and parts the profile gains are fresh. |
| Profiles.Profile.SetMarkerStack | fxprof-processed-profile/src/profile.rs:653-661 | The method pushes the frames and sets the stack of a marker: the contents of all objects change as the specified step says, no two threads share a part, and parts the profile gains are fresh. |
| Profiles.Profile.SetProcessStartTime | fxprof-processed-profile/src/profile.rs:272-274 | The method sets one field: the contents of all objects change as the specified step says, no two threads share a part, and parts the profile gains are fresh. |
| Profiles.Profile.SetProcessEndTime | fxprof-processed-profile/src/profile.rs:277-279 | The method sets one field: the contents of all objects change as the specified step says, no two threads share a part, and parts the profile gains are fresh. |
| Profiles.Profile.SetProcessName | fxprof-processed-profile/src/profile.rs:282-284 | The method sets one field: the contents of all objects change as the specified step says, no two threads share a part, and parts the profile gains are fresh. |
| Profiles.Profile.SetThreadName | fxprof-processed-profile/src/profile.rs:385-387 | The method sets one field: the contents of all objects change as the specified step says, no two threads share a part, and parts the profile gains are fresh. |
| Profiles.Profile.SetThreadStartTime | fxprof-processed-profile/src/profile.rs:390-392 | The method sets one field: the contents of all objects change as the specified step says, no two threads share a part, and parts the profile gains are fresh. |
| Profiles.Profile.SetThreadEndTime | fxprof-processed-profile/src/profile.rs:395-397 | The method sets one field: the contents of all objects change as the specified step says, no two threads share a part, and parts the profile gains are fresh. |
| Profiles.Profile.StackIndexForFrames | fxprof-processed-profile/src/profile.rs:687-740 | The loop over the frames updates tables, libraries and prefix exactly as the specification pushes the call stack. |
| Profiles.Profile.constructor | fxprof-processed-profile/src/profile.rs:133-159 | A new profile is empty and all its parts are fresh. |
| ProfileClients.Perform | fxprof-processed-profile/src/profile.rs:202-661 | Each call of the state machine is carried out on the object by its method, changing no more than the parts of the profile; any parts it gains are fresh. |
| ProfileClients.PerformAll | fxprof-processed-profile/src/profile.rs:133-661 | Every run of calls can be carried out on a new profile object, which then has exactly the contents that the theorems about runs speak of. |
| Profiles.Process.ConvertAddress | fxprof-processed-profile/src/process.rs:84-101 | The method resolves an address as specified and marks the library it finds as used. |
| Profiles.Profile.SortedThreads | fxprof-processed-profile/src/profile.rs:747-772 | The method returns such a list of the threads of the profile. |
| ThreadOrder.SortedThreads | fxprof-processed-profile/src/profile.rs:747-772 | Every thread is listed once; the threads of each process are one block beginning at the recorded position, with main threads first, then start times, names (unnamed first) and ids not going down; start times and then ids of the processes do not go down along the list. |
| ThreadOrder.OrderOfThreadsSays | fxprof-processed-profile/src/thread.rs:192-207 | A thread may be listed before another one exactly when the other is not a main thread alone, and with equal main flags starts no earlier, and then unnamed threads come first and names do not go down, and then ids do not go down. |
| ThreadOrder.ProcessOrderSays | fxprof-processed-profile/src/process.rs:71-78 | A process may come before another one exactly when it started earlier, or at the same time and its id does not come behind. |
| Prelude.StringLeqIsLexicographic | fxprof-processed-profile/src/thread.rs:202-206 | The order of names and ids is the lexicographic one: a prefix, or smaller at the first difference. |
| SymbolLists.LookupRefinesScan | samply-symbols/src/symbol_map_object.rs:255-275 | For every list of collected entries and every address, the answer is that of scanning: the first-added entry at the greatest address at or before it, reaching to the next larger address; nothing behind an end address or behind the last entry. |
| SymbolLists.LookupFindsIff | samply-symbols/src/symbol_map_object.rs:255-275 | A lookup answers with a range and a name exactly when the first-added entry at the greatest address at or before the query starts the range, the next address with any entry ends it, and the name is that of the entry's kind. |
| SymbolLists.NameIsShown | samply-symbols/src/symbol_map_object.rs:57-68 | A synthesized entry is named `fun_` and its address in hex, an entry point `EntryPoint`, a symbol and an export by their own names; an end address has none. |
| SymbolLists.NewSymbolList | samply-symbols/src/symbol_map_object.rs:249-253 | The stable sort and deduplication give the specified list, whose addresses strictly ascend. |
| SymbolLists.KeepsFirstAdded | samply-symbols/src/symbol_map_object.rs:249-253 | Of the entries at one address the first-added one is kept. |
| SymbolLists.AnswerCoversItsRange | samply-symbols/src/symbol_map_object.rs:255-275 | Every address in the range an answer names has the same answer. |
| SymbolLists.LaterSourcesDoNotOverride | samply-symbols/src/symbol_map_object.rs:85-253 | Entries added later at addresses already taken change no answer. |
| SymbolLists.LookupRelativeAddress | samply-symbols/src/symbol_map_object.rs:255-275 | On a sorted list the binary search gives the specified lookup. |
| JitDumps.FromReader | samply-symbols/src/jitdump.rs:58-118 | The index has one entry per code-load record, with its file offset, its length, the latest debug record since the previous load, and the running sum of code lengths as its address. |
| JitDumps.IndexLeadsToCode | samply-symbols/src/jitdump.rs:58-118 | For each code load, in order, the file holds the record, its code and the debug record that belongs to it at the offsets and lengths in the index. |
| JitDumps.PendingIsLastDebug | samply-symbols/src/jitdump.rs:70-103 | The debug record pending at a load is the last one before it that has nothing but skipped records behind it; none is pending exactly when there is no such record. |
| JitDumps.LoadsComplete | samply-symbols/src/jitdump.rs:71-95 | Every code load has an entry. |
| JitDumps.FirstAddressIsZero | samply-symbols/src/jitdump.rs:69-94 | The first piece of code has relative address 0. |
| JitDumps.OffsetLookupComplete | samply-symbols/src/jitdump.rs:137-154 | Every byte of code is found by its file offset, whichever answer the search picks. |
| JitDumps.OffsetLookupExact | samply-symbols/src/jitdump.rs:137-154 | A file offset outside every piece of code is not found. |
| JitDumps.RelativeLookupCompleteIff | samply-symbols/src/jitdump.rs:121-134 | When all pieces start below 2^32, a byte of code is found by its relative address, whichever answer the search picks, exactly when it is not the first byte of code that directly follows empty code. |
| JitDumps.EveryByteFoundIff | samply-symbols/src/jitdump.rs:58-134 | For every jitdump, every byte of code that has a 32-bit relative address is found by it, whichever answers the searches pick, exactly when all pieces start below 2^32 and none directly follows an empty one. |
| JitDumps.FoundIffAnswerIsOwn | samply-symbols/src/jitdump.rs:121-134 | With any permitted answer a byte of code is found exactly when it is not the first one or the answer names its own piece. |
| JitDumps.EmptyCodeHidesNext | samply-symbols/src/jitdump.rs:121-134 | A jitdump with two empty pieces before one that is not, on which bisection answers with an empty piece, so that the first byte of code is not found. |
| JitDumps.HitsAreSound | samply-symbols/src/jitdump.rs:121-154 | A hit of either lookup lies inside the code it names and is that many bytes into it. |
| JitDumps.AddressesPack | samply-symbols/src/jitdump.rs:58-118 | In the address space the pieces follow one another without gap or overlap, as long as they start below 2^32. |
| JitDumps.LookupsAgree | samply-symbols/src/jitdump.rs:121-154 | Without empty code and with all pieces starting below 2^32, both lookups find every byte of code and agree on it. |
| JitDumps.LookupRelativeAddress | samply-symbols/src/jitdump.rs:121-134 | The method does what the specification does with the answer of its binary search. |
| JitDumps.LookupOffset | samply-symbols/src/jitdump.rs:137-154 | The method does what the specification does with the answer of its binary search. |
| ChunkedCaches.ReadsGiveTheFile | samply-symbols/src/cache.rs:90-110 | After every run of reads, some of which the source may have failed, an in-bounds read gives exactly the bytes of the file, unless the source fails it now. |
| ChunkedCaches.ReadOutcome | samply-symbols/src/cache.rs:90-110 | Every read gives the file's bytes, nothing for size 0, the error for an overflowing or out-of-bounds range, or the failure of the source. |
| ChunkedCaches.StringOutcome | samply-symbols/src/cache.rs:113-155 | Every string read gives the error for an inverted or out-of-bounds range, the remembered string up to the file's first delimiter, the panic of an empty range, the string if its delimiter is in the range and within 4096 bytes, the missing delimiter, or the failure of the source. |
| ChunkedCaches.ReadAgreesIff | samply-symbols/src/cache.rs:90-110 | With a working source, a read agrees with reading a plain slice exactly when it is not empty or starts inside the file or at its end. |
| ChunkedCaches.EmptyReadPastTheEnd | samply-symbols/src/cache.rs:90-110 | An empty read past the end succeeds through the cache and fails on the slice. |
| ChunkedCaches.UntilAgreesIff | samply-symbols/src/cache.rs:113-155 | With a working source, a string read agrees with the slice exactly when both reject the range, or the string is cached and ends inside the range, or it is not cached, the range is not empty, and the delimiter does not first occur in the range beyond its first 4096 bytes. |
| ChunkedCaches.ShortStringsAgree | samply-symbols/src/cache.rs:113-155 | In any interleaving of reads, a string whose delimiter lies in the range and within 4096 bytes is read as the slice reads it. |
| ChunkedCaches.CachedStringIgnoresEnd | samply-symbols/src/cache.rs:133-136 | A string cached for a long range is returned for a range in which the delimiter does not occur. |
| ChunkedCaches.EmptyRangePanics | samply-symbols/src/cache.rs:138-150 | A string read of an empty range that is not cached panics where the slice reports no delimiter. |
| ChunkedCaches.LongStringIsNotFound | samply-symbols/src/cache.rs:138-150 | A delimiter behind 4096 other bytes is found in the slice and not through the cache. |
| ChunkedCaches.FetchCorrect | samply-symbols/src/cache.rs:54-80 | Fetching a range keeps everything cached, returns the bytes of the file, and fails only with the source. |
| ChunkedCaches.SourcingCoversRequest | samply-symbols/src/chunked_read_buffer_manager.rs:50-77 | A buffer that is reused holds the whole request; a new read contains the request, stays inside the file, ends at a chunk boundary or the end of the file, and starts at a chunk boundary or where a buffer already covers the start. |
| ChunkedCaches.SourcingIsExact | samply-symbols/src/chunked_read_buffer_manager.rs:50-77 | A buffer is reused exactly when the last added one that covers the start reaches to the end; otherwise the new read starts where the request does if a buffer covers that, else at the chunk border (multiple of 32 KiB) before it, and ends at the next border or with the file. |
| ChunkedCaches.CoveredByteIsNotReadAgain | samply-symbols/src/chunked_read_buffer_manager.rs:50-77 | A byte that some buffer covers is never read again on its own. |
| ChunkedCaches.ChunkedReadBufferManager.DetermineRangeSourcing | samply-symbols/src/chunked_read_buffer_manager.rs:50-77 | The method is the specified decision. |
| ChunkedCaches.ChunkedReadBufferManager.InsertBufferRange | samply-symbols/src/chunked_read_buffer_manager.rs:80-87 | The method appends the range under its handle. |
| ChunkedCaches.FileContentsWithChunkedCaching.ReadBytesAt | samply-symbols/src/cache.rs:90-110 | The method reads and caches as specified. |
| ChunkedCaches.FileContentsWithChunkedCaching.ReadBytesAtUntil | samply-symbols/src/cache.rs:113-155 | The method reads and caches as specified. |
| Crc32.TableIsShift | samply-symbols/src/elf.rs:160-206 | Each of the 256 entries of the table is its index shifted through eight steps of the polynomial of section 8 of RFC 1952. |
| Crc32.TurnFeedsByte | samply-symbols/src/elf.rs:160-206 | One turn of the table-driven loop feeds one byte bit by bit. |
| Crc32.CrcOfPieces | samply-symbols/src/elf.rs:160-206 | Data consumed in pieces gives the CRC of the whole. |
| Crc32.CrcOfDataWithCrc | samply-symbols/src/elf.rs:160-206 | Any data followed by its own CRC, lowest byte first, has the CRC 0x2144DF1C. |
| Crc32.HelloWorldCrc | samply-symbols/src/elf.rs:209-217 | The CRC of "Hello, world!" with a terminating zero is 2608877062. |
| Crc32.GnuDebugLinkCrc32Computer.Consume | samply-symbols/src/elf.rs:160-206 | The method turns the value into the bitwise CRC of the data continued from the old value. |
| Crc32.ComputeDebugLinkCrcOfFileContents | samply-symbols/src/elf.rs:234-253 | Reading the file in chunks gives the CRC of the whole file, and fails exactly when some chunk cannot be read. |
| Uleb128.ReadInvertsEncode | samply-symbols/src/macho.rs:658-681 | The reader gets back every 64-bit number from its encoding of section 7.6 of DWARF 5, whatever bytes follow, and leaves those. |
| Uleb128.ReadUleb128 | samply-symbols/src/macho.rs:658-681 | The loop of shifts and ors, none of which reaches 64 bits, computes the value of the groups up to the first byte without continuation bit, and rejects numbers of more than 64 bits. |
| Uleb128.TooLarge | samply-symbols/src/macho.rs:658-681 | A tenth byte above 1 is rejected. |
| Uleb128.Unterminated | samply-symbols/src/macho.rs:658-681 | Bytes that all ask for more are rejected. |
| Uleb128.EncodeIsShortest | samply-symbols/src/macho.rs:658-681 | No sequence of groups with the same value is shorter than the encoding. |
| Uleb128.StartsRoundTrip | samply-symbols/src/macho.rs:591-614 | Every strictly increasing list of 32-bit addresses above the start is decoded again from its delta coding, whatever padding follows. |
| Uleb128.GetFunctionStarts | samply-symbols/src/macho.rs:591-614 | The loop decodes the deltas up to the first zero or broken number, as specified. |
| MappedPaths.ParseInvertsPrintIff | samply-symbols/src/mapped_path.rs:64-96 | A path survives printing and parsing exactly when its parts are delimited: not empty where required and free of the delimiters that end them. |
| MappedPaths.ParsesIffWrites | samply-symbols/src/mapped_path.rs:114-189 | A string is read as a path exactly when it writes the path in its form (git, hg, s3, cargo, each spelled out) with delimited parts. |
| MappedPaths.DelimitersAreLost | samply-symbols/src/mapped_path.rs:64-96 | A colon in the path of a git file and a hyphen in the version of a crate do not survive. |
| MappedPaths.PrintInvertsParse | samply-symbols/src/mapped_path.rs:64-96 | Whatever string is accepted is printed again character by character. |
| MappedPaths.AcceptedIffPrinted | samply-symbols/src/mapped_path.rs:114-189 | The accepted strings are exactly the printed forms of delimited paths. |
| MappedPaths.PrintIsInjective | samply-symbols/src/mapped_path.rs:80-96 | Different delimited paths print differently. |
| MappedPaths.OtherTagsFail | samply-symbols/src/mapped_path.rs:163-189 | The four alternatives exclude each other. |
| Search.BinarySearch | samply-symbols/src/jitdump.rs:121-137 | The loop of the modelled search is the bisection used in the jitdump example and keeps the contract of the standard search on ascending keys. |
| EtwParsers.QueriesDoNotInterfere | etw-reader/src/parser.rs:232-266 | After any queries, failing ones included, a query is answered as if the event had been parsed eagerly from the front, and the property found is the eagerly parsed one. |
| EtwParsers.QueryCutsProperty | etw-reader/src/parser.rs:175-266 | After any queries, a query finds the last property of the name, cut out of the event's buffer where the properties before it end and as long as its type, its length and the buffer say; or it says that there is none of the name, or why the first property that cannot be cut, at or before it, cannot. |
| EtwParsers.PropertyTakesItsSize | etw-reader/src/parser.rs:175-230 | A property takes: a given length if positive, with no flags and count 1; else, with count 1, the width of its fixed type, 4 or 8 bytes for a pointer by the event's width, up to the first aligned null pair or the first null for a string of its kind; else what the operating system answers. |
| EtwParsers.RunsPartitionBuffer | etw-reader/src/parser.rs:232-266 | After any queries the cached slices followed by the remaining buffer are the buffer of the event, and each offset is the sum of the sizes before it. |
| EtwParsers.UnicodeSizeEndsAtNullPair | etw-reader/src/utils.rs:34-41 | The computed size of a wide string of unknown size ends with the first aligned pair of zeros, and exceeds the buffer exactly when there is none. |
| EtwParsers.AnsiSizeEndsAtNull | etw-reader/src/utils.rs:51-56 | The computed size of a narrow string of unknown size ends with the first zero, and exceeds the buffer exactly when there is none. |
| EtwParsers.Parser.FindProperty | etw-reader/src/parser.rs:232-266 | The loop fills the cache as specified and answers with the index, an error, or the panic of an unanswered size query; what it finds is the last property of the name, cut at its place with the size it takes. |
| EtwParsers.PropertyIter.constructor | etw-reader/src/property.rs:35-49 | The map takes each name to the last property that has it. |
| Quota.EvictionSufficesIff | samply-quota-manager/src/file_inventory.rs:267-297 | The listed files are the least recently accessed ones in order, and deleting them brings the total to at most the limit exactly when the sizes sum below 2^63 or are within the limit already. |
| Quota.EvictionMinimalIff | samply-quota-manager/src/file_inventory.rs:267-297 | No shorter prefix of the order would do, except exactly when there are files and their total, below 2^63, equals the limit: then one file is listed for nothing. |
| Quota.FullIsEvicted | samply-quota-manager/src/file_inventory.rs:267-297 | A single file that exactly fills the limit is listed for deletion. |
| Quota.OverflowKeepsEverything | samply-quota-manager/src/file_inventory.rs:242-297 | Two files whose sizes do not sum below 2^63 are both kept under every non-zero limit. |
| Quota.EvictsLeastRecent | samply-quota-manager/src/file_inventory.rs:267-297 | Whatever is listed was accessed no later than everything that is not. |
| Quota.SizeLimitHoldsIffEnforceable | samply-quota-manager/src/quota_manager.rs:234-256 | When every removal works, the files that stay are within the limit exactly when it is enforceable. |
| Quota.SizeLimitHolds | samply-quota-manager/src/quota_manager.rs:234-256 | With failing removals an enforceable limit is missed by no more than the sizes of the listed files that could not be removed. |
| Quota.PassEndsWithinLimits | samply-quota-manager/src/quota_manager.rs:197-232 | When every removal works and the size limit is enforceable, a pass ends within the size limit and with no file older than the age limit. |
| Quota.PassTouchesOnlyListed | samply-quota-manager/src/quota_manager.rs:197-256 | A pass forgets a file exactly when it was listed for size or age and its file is gone; every other record stays as it was. |
| Quota.TableHoldsWhatWasTold | samply-quota-manager/src/file_inventory.rs:169-238 | Over every run of notifications the table holds for each path what the notifications about that path alone say: nothing behind a deletion, else size and time of the last creation and the time of the last access behind it. |
| Quota.UpsertUpdates | samply-quota-manager/src/file_inventory.rs:169-197 | Creating a file is a map update at its path. |
| Quota.TouchUpdates | samply-quota-manager/src/file_inventory.rs:202-215 | An access changes the access time of a known path and nothing else. |
| Quota.RemoveForgets | samply-quota-manager/src/file_inventory.rs:220-231 | A deletion forgets one path and nothing else. |
| Quota.FileInventory.OnFileCreated | samply-quota-manager/src/file_inventory.rs:169-197 | The method inserts or replaces the record of the path; paths outside the directory are ignored. |
| Quota.FileInventory.OnFileAccessed | samply-quota-manager/src/file_inventory.rs:202-215 | The method updates the access time of the path. |
| Quota.FileInventory.OnFileDeleted | samply-quota-manager/src/file_inventory.rs:220-231 | The method forgets the path. |
| Quota.FileInventory.TotalSizeInBytes | samply-quota-manager/src/file_inventory.rs:242-248 | The total of the sizes, or zero when it does not fit in a signed 64-bit number. |
| Quota.FileInventory.GetFilesToDeleteToEnforceMaxSize | samply-quota-manager/src/file_inventory.rs:267-297 | The loop lists files in order of access until the excess is used up, as specified. |
| Quota.FileInventory.GetFilesLastAccessedBefore | samply-quota-manager/src/file_inventory.rs:301-316 | Listed are exactly the records with an access time before the cutoff, no path twice. |
| Quota.DeleteFiles | samply-quota-manager/src/quota_manager.rs:234-256 | The loop forgets exactly the listed files whose removal worked or that were absent already. |
| Quota.PerformEvictionIfNeeded | samply-quota-manager/src/quota_manager.rs:197-232 | One pass deletes for size and then for age, as specified, each only if a limit is set. |

## Left out

- Counters, categories and their names, and the sampling interval: plain appends with no interplay.
- The JSON text: only the order of rows and threads, the marker elements and the marker vectors are modelled, not `serialize` of each table.
- Floating point: number fields of markers are reals; formatting and rounding are not modelled.
- `LibraryInfo` beyond being comparable: names, debug ids and code ids are one opaque description with a name and a symbol table.
- Panics of debug builds on overflow: modelled as wrap-around; `ZeroCpu.NoOverflowIff` says when an addition of weights would panic.
- Suffixes of repeated ids are unbounded here, 32 bits in the code.
- Hashing: hash maps are finite maps; iteration order plays no role in the modelled code.
- Standard sorting and searching: `sort_by`, `dedup_by_key` and `binary_search` are written as insertion sort, a scan and bisection; proofs use only sortedness, stability and the search contract, except for one example that follows the bisection. The unstable sort of the sample table is modelled as one of its allowed outcomes.
- Reading thread and process fields back through getters, and `NativeAllocationsTable` as an object of its own: it is a value inside `Thread`.
- Which symbols, sections and unwind entries `SymbolList::new` collects and how names are demangled: the model starts from the collected entries.
- I/O and malformed input in `JitDumpIndex::from_reader`: the records arrive already parsed.
- `MappedPath::from_url` and `display_path`.
- Decoding of property values in the ETW parser (`TryParse`), and the operating system's size query, which is a parameter.
- Paths and databases in the quota manager: canonicalization (and its panic on missing paths), SQL text, and the initial scan; sizes of 2^63 bytes and more cannot be stored.
- Concurrency of the eviction task: a pass runs with nobody else changing the inventory.
- Locking and reference lifetimes of the file cache: reads happen one after another.
- Threads.Thread.AddMarker: the marker's own callbacks (`name`, `category`, field values) are values fixed before the call.
- ChunkedCaches.FileContentsWithChunkedCaching.ReadBytesAtUntil: the panic on an uncached empty range is a precondition of the method and an outcome of its specification.
- Crc32.ComputeDebugLinkCrcOfFileContents: requires that stepping past the end of the file fits in 64 bits.
- `CompactSymbolTable`, Breakpad, PDB, DWARF and dyld cache reading, the recorder front ends and the web server are not part of this model.
