# xcp-ng-generic-lib, modelled in Dafny

A Dafny model of the sequential core of xcp-ng-generic-lib, with proofs of what its code promises. The model covers:

- the coroutine scheduler of `src/coroutine.c`: resume, yield, process, create, destroy and the stack-size arithmetic;
- the integer macros of `include/xcp-ng/generic/math.h`;
- the byte-order swaps and conversions of `include/xcp-ng/generic/endian.h`;
- the path helpers of `src/path.c`;
- the decimal parsing of `src/string.c`;
- the linear searches of `include/xcp-ng/generic/algorithm.h` and `include/vtbx/algorithm.h`.

Modules, one per source file:

- `XcpCoroutine` (`coroutine.dfy`) holds the scheduler.
  - Coroutines are named by their address (`Id`). The live ones are a map from address to their fields (`caller`, `pendings`, `cb`, `arg`). The thread's root sentinel `dummy` is `Dummy`.
  - Each C function appears twice:
    - a method of the class `ThreadData` (the per-thread `XcpCoroutineThreadData`) that updates `current`, the table and the mapped-stack counter in place, as the C code does;
    - a specification function on the state (`AfterResume`, `AfterYield`, ...) that the method is proved to compute.
  - The context switch is abstract. A resumed callee's behaviour is a `Reaction` supplied by the caller of the model: the coroutines it passes to `xcp_coroutine_process`, then whether it yields, returns from its callback, or comes back with some other status.
  - `abort()` and a failed `assert` become the outcome `Aborted`. A use of a freed coroutine, or a bad `free`, becomes `Undefined`. So does linking a coroutine into a queue while it is still on one (`Relink`): every queue is a `STAILQ` threaded through the coroutine's single `next` field, so the lists are corrupt from then on.
- `XcpCoroutineProperties` (`coroutine_properties.dfy`) holds the theorems about the scheduler: stack layout, create/destroy, the FIFO queue, the abort conditions, depth-first order, and the quiescence of a completed resume from the root.
- `XcpMath` (`math.dfy`) holds the macros. The rounding macros work over `size_t` (`U64`, with explicit wrap-around). `XCP_MIN`, `XCP_MAX` and `XCP_DIV_ROUND_UP` work over mathematical integers, the last with C's truncating `/` and `%`. `BitOr`, `BitAnd` and `BitNot` are defined bit by bit.
- `XcpEndian` (`endian.dfy`) holds the swaps on `bv16`/`bv32`/`bv64`. The signed variants are datatypes holding the bit pattern. The host is little-endian, as the header fixes for x86.
- `XcpPath` (`path.dfy`) holds `is_abs`, `combine`, `get_first_slash` and `parent_dir`.
  - Each is a method on strings, indices and `array<char>` buffers.
  - The independent reference `ParentDirOf` states POSIX `dirname` with the leading-double-slash rule of section 4.11 of POSIX.1 Base Definitions.
- `VtbxString` (`string.dfy`) holds:
  - `strtoll` specified by section 7.22.1.4 of ISO C11;
  - the C runtime's `errno` as a field of `CRuntime`;
  - `bool *ok` as a possibly-null `Cell<bool>`;
  - the narrowing casts as two's-complement reduction.
- `XcpAlgorithm` and `VtbxAlgorithm` (`algorithm.dfy`, `vtbx_algorithm.dfy`) hold the searches over an `array` with a pure predicate. The `vtbx_` copy is textually identical, so it delegates to the `xcp_` one.
- `Wrappers` holds `Option` and a mutable `Cell` standing for a C pointer.

On the page-size parameter: `StackSize` is proved exactly `XCP_COROUTINE_STACK_SIZE` plus one guard page for power-of-two pages of up to 1 MiB. It is a whole number of pages for any power-of-two page up to 2^62.

## Model

| member | source | states |
|---|---|---|
| XcpCoroutine.ThreadData.constructor | src/coroutine.c:115-124 | the thread data starts zeroed: `current` is NULL, and the dummy is the only coroutine, with no caller and no pendings |
| XcpCoroutine.ThreadData.GetThreadData | src/coroutine.c:123-128 | `current` becomes the dummy if it was NULL and is otherwise kept; nothing else changes |
| XcpCoroutine.ThreadData.GetSelf | src/coroutine.c:268-270 | returns a non-NULL `current` (the dummy when unset), and the observable state is unchanged |
| XcpCoroutine.ThreadData.CreateStack | src/coroutine.c:47-64 | the size is `ROUND_UP_2(STACK_SIZE, page) + page`; success exactly when both mmap and mprotect succeed; a failed mprotect leaves no mapping |
| XcpCoroutine.ThreadData.DestroyStack | src/coroutine.c:66-70 | unmaps the same size `StackSize(pageSize)` that creation mapped |
| XcpCoroutine.ThreadData.Destroy | src/coroutine.c:170-177 | computes `AfterDestroy`: the coroutine and its stack go away; freeing the dummy or a freed coroutine is undefined |
| XcpCoroutine.ThreadData.Create | src/coroutine.c:244-266 | computes `AfterCreate`: NULL on malloc, mmap or mprotect failure; otherwise a fresh coroutine with its fields set |
| XcpCoroutine.ThreadData.Enqueue | src/coroutine.c:319-323 | computes `AfterEnqueue`: the assert `coroutine != self`, then an append to the tail of `self`'s pendings; `Relink` when `coroutine` already waits in some coroutine's pendings |
| XcpCoroutine.ThreadData.Yield | src/coroutine.c:305-313 | computes `AfterYield`: abort without a caller; else the caller is cleared and `current` is the old caller |
| XcpCoroutine.ThreadData.Exec | src/coroutine.c:132-154 | computes `AfterExec`: `current := callee`; the callee's process calls in order; then its yield, its return to its caller (`Terminated`), or a stray status |
| XcpCoroutine.ThreadData.RunTurn | src/coroutine.c:281-301 | computes `AfterTurn`: `caller := self`, the switch, then `Relink` if the callee queued a coroutine still waiting in the local queue, else the two `STAILQ_CONCAT`s, then destroy on `Terminated`, go on on `Suspend`, abort otherwise |
| XcpCoroutine.ThreadData.ResumeStep | src/coroutine.c:279-302 | one pass of the loop equals one unfolding of `ResumeLoop`, including the already-called abort |
| XcpCoroutine.ThreadData.Resume | src/coroutine.c:272-303 | computes `AfterResume`: the queue starts as `[coroutine]`, `self` is read once, and the loop runs to an empty queue or an abort |
| XcpCoroutine.ThreadData.Process | src/coroutine.c:315-324 | computes `AfterProcess`: resume when `current` has no caller, else enqueue |
| XcpCoroutine.AfterEnqueueAll | src/coroutine.c:319-323 | enqueueing never changes `current`, the set of live coroutines or any caller link |
| XcpCoroutine.AfterExec | src/coroutine.c:132-139 | a switch never creates or frees a coroutine |
| XcpCoroutineProperties.StackLayout | src/coroutine.c:47-70 | the mapping is whole pages; above the guard page it holds at least `STACK_SIZE` and less than one page more; for pages up to 1 MiB it is exactly `STACK_SIZE + page` |
| XcpCoroutineProperties.Pow2Of20 | include/xcp-ng/generic/coroutine.h:28 | `XCP_COROUTINE_STACK_SIZE` is 2^20 |
| XcpCoroutineProperties.CreateOutcome | src/coroutine.c:244-266 | create fails iff an allocation fails, and then changes nothing; on success the coroutine has caller NULL, empty pendings, `cb`, `arg == userData`, and one more stack is mapped |
| XcpCoroutineProperties.CreateThenDestroy | src/coroutine.c:170-177 | destroying a coroutine just created restores the state before the create |
| XcpCoroutineProperties.DestroyTwice | src/coroutine.c:170-177 | freeing the dummy is an invalid free; a second destroy is a double free |
| XcpCoroutineProperties.EnqueueAllAppends | src/coroutine.c:315-324 | process calls inside a coroutine append their arguments in order to its pendings and change nothing else |
| XcpCoroutineProperties.EnqueueAllCompletes | src/coroutine.c:319-322 | those calls complete iff every argument is alive, none is the current coroutine, none already waits on a queue, and none comes twice |
| XcpCoroutineProperties.EnqueueSelfAborts | src/coroutine.c:319-321 | processing oneself inside a coroutine fails the assertion and changes nothing |
| XcpCoroutineProperties.ProcessAtRootResumes | src/coroutine.c:315-318 | when `current` has no caller, process is exactly resume |
| XcpCoroutineProperties.ResumeAbortsWhenAlreadyCalled | src/coroutine.c:281-284 | resuming a coroutine that has a caller aborts before any switch |
| XcpCoroutineProperties.ResumeSelfAborts | src/coroutine.c:285-300 | resuming the running coroutine comes back with status `Running` and aborts |
| XcpCoroutineProperties.YieldWithoutCallerAborts | src/coroutine.c:305-308 | yield with no caller aborts and changes nothing |
| XcpCoroutineProperties.YieldReturnsToCaller | src/coroutine.c:305-313 | yield sets `current` to the old caller and clears the caller link |
| XcpCoroutineProperties.ExecFromRoot | src/coroutine.c:132-154 | from the quiescent root, a switch completes iff the callee's process calls are valid; it then gives back `Suspend` or `Terminated` and the exact new state |
| XcpCoroutineProperties.TurnFromRoot | src/coroutine.c:281-301 | a turn from the root completes iff the callee is not the dummy, its spawns are valid and none of them waits in the local queue; the new queue is its spawns followed by the old rest |
| XcpCoroutineProperties.ProcessTwiceIsUndefined | src/coroutine.c:319-322 | a coroutine that processes the same coroutine twice relinks it: the resume stops with `Undefined(Relink)` after the first switch |
| XcpCoroutineProperties.ProcessWaitingIsUndefined | src/coroutine.c:287-292 | A processes B and C and yields, then B processes C while C still waits in the local queue: the resume stops with `Undefined(Relink)` after switching to A and B |
| XcpCoroutineProperties.YieldTurnFromRoot | src/coroutine.c:287-298 | a callee that spawns and then yields leaves the state exactly as before, with its spawns at the head of the queue |
| XcpCoroutineProperties.LoopStepFromRoot | src/coroutine.c:289-292 | after each turn, the loop continues with the callee's pendings ahead of the remaining queue |
| XcpCoroutineProperties.DestroyRetains | src/coroutine.c:170-177 | destroying a non-dummy coroutine keeps the root quiescent and unmaps exactly one stack |
| XcpCoroutineProperties.LoopFromRoot | src/coroutine.c:279-302 | the corrected loop keeps the root quiescent over any queue |
| XcpCoroutineProperties.ResumeFromRootIsQuiescent | src/coroutine.c:272-303 | with `callee` destroyed on `Terminated`, a completed resume from the root leaves no callers and no pendings, and survivors unchanged |
| XcpCoroutineProperties.RetainsMeans | src/coroutine.c:272-303 | after such a resume, the survivors are a subset of the coroutines before, with their records unchanged, and exactly one stack less is mapped per coroutine freed |
| XcpCoroutineProperties.DepthFirstOrder | src/coroutine.c:279-302 | in the script where A spawns B and C and B spawns D, the switches go A, B, D, C |
| XcpCoroutineProperties.FamilyAllFreed | src/coroutine.c:294-298 | in that run, every coroutine is destroyed on its return and only the dummy is left |
| XcpCoroutineProperties.AsWrittenReturn | src/coroutine.c:294-298 | as written, when B returns during the resume of A, A is destroyed and B keeps a caller |
| XcpCoroutineProperties.DestroyArgumentCounterexample | src/coroutine.c:294-298 | as written, A spawns B and yields, and B returns: the suspended A is freed, B keeps its caller and stack, and resuming B again aborts |
| XcpCoroutineProperties.DestroyCalleeSameRun | src/coroutine.c:294-298 | destroying `callee` instead, the same run frees B and leaves A idle |
| XcpMath.Min | include/xcp-ng/generic/math.h:28-32 | the result is one of the operands and at most both |
| XcpMath.Max | include/xcp-ng/generic/math.h:34-38 | the result is one of the operands and at least both |
| XcpMath.BitOrLowMask | include/xcp-ng/generic/math.h:41 | or-ing with `2^k - 1` sets the low k bits: `v - v % 2^k + 2^k - 1` |
| XcpMath.BitAndHighMask | include/xcp-ng/generic/math.h:42 | and-ing with `2^n - 2^k` clears the low k bits: `v - v % 2^k` |
| XcpMath.RoundUp2IsLeastMultiple | include/xcp-ng/generic/math.h:40-41 | for `Y = 2^k` and no overflow, `ROUND_UP_2(X, Y)` is the least multiple of Y at least X (0 for X = 0, through the wrap of `X - 1`) |
| XcpMath.RoundUp2WrapsToZero | include/xcp-ng/generic/math.h:40-41 | when that multiple is 2^64, the result wraps to 0 |
| XcpMath.RoundDown2IsLargestMultiple | include/xcp-ng/generic/math.h:40-42 | for `Y = 2^k`, `ROUND_DOWN_2(X, Y)` is the largest multiple of Y at most X |
| XcpMath.RoundUpIsLeastMultiple | include/xcp-ng/generic/math.h:44 | for Y > 0 and no overflow of `X + Y - 1`, `ROUND_UP` is the least multiple of Y at least X |
| XcpMath.RoundUp2AgreesWithRoundUp | include/xcp-ng/generic/math.h:40-44 | for a power of two Y, both round-ups agree wherever neither overflows |
| XcpMath.DivRoundUpIsCeiling | include/xcp-ng/generic/math.h:46 | with C's truncating `/` and `%`, `DIV_ROUND_UP(X, Y)` is the ceiling of X/Y for every sign of X and Y |
| XcpEndian.Int16.Value | include/xcp-ng/generic/endian.h:46-48 | the `int16_t` that a bit pattern denotes is its two's complement reading: in range, congruent to the unsigned reading modulo 2^16, and negative iff the top bit is set |
| XcpEndian.Int32.Value | include/xcp-ng/generic/endian.h:57-59 | the same for `int32_t`, modulo 2^32 |
| XcpEndian.Int64.Value | include/xcp-ng/generic/endian.h:72-74 | the same for `int64_t`, modulo 2^64 |
| XcpEndian.SwapU16 | include/xcp-ng/generic/endian.h:42-44 | byte 0 of the result is byte 1 of the input and vice versa |
| XcpEndian.Swap16 | include/xcp-ng/generic/endian.h:46-48 | the signed swap exchanges the bytes of the same bit pattern |
| XcpEndian.SwapU32Bytes | include/xcp-ng/generic/endian.h:50-55 | byte i of the result is byte 3 - i of the input |
| XcpEndian.Swap32Bytes | include/xcp-ng/generic/endian.h:57-59 | the same for the signed swap |
| XcpEndian.SwapU64Bytes | include/xcp-ng/generic/endian.h:61-70 | byte i of the result is byte 7 - i of the input |
| XcpEndian.Swap64Bytes | include/xcp-ng/generic/endian.h:72-74 | the same for the signed swap |
| XcpEndian.SwapU16Involution | include/xcp-ng/generic/endian.h:42-44 | swapping twice gives back the input |
| XcpEndian.SwapU32Involution | include/xcp-ng/generic/endian.h:50-55 | swapping twice gives back the input |
| XcpEndian.SwapU64Involution | include/xcp-ng/generic/endian.h:61-70 | swapping twice gives back the input |
| XcpEndian.Swap16Involution | include/xcp-ng/generic/endian.h:46-48 | swapping twice gives back the input |
| XcpEndian.Swap32Involution | include/xcp-ng/generic/endian.h:57-59 | swapping twice gives back the input |
| XcpEndian.Swap64Involution | include/xcp-ng/generic/endian.h:72-74 | swapping twice gives back the input |
| XcpEndian.SwapU16ReordersLoad | include/xcp-ng/generic/endian.h:42-44 | the swap turns the little-endian reading of two bytes into the big-endian one and back |
| XcpEndian.SwapU32ReordersLoad | include/xcp-ng/generic/endian.h:50-55 | the same for four bytes |
| XcpEndian.SwapU64ReordersLoad | include/xcp-ng/generic/endian.h:61-70 | the same for eight bytes |
| XcpEndian.FromLeBeOnHost | include/xcp-ng/generic/endian.h:78-150 | on the little-endian host every `from_le`, unsigned and signed, is the identity and every `from_be` is the swap of the same width |
| XcpEndian.FromLeBeDecode16 | include/xcp-ng/generic/endian.h:78-126 | a native load then `from_le`/`from_be` gives the little-/big-endian reading of the bytes |
| XcpEndian.FromLeBeDecode32 | include/xcp-ng/generic/endian.h:90-138 | the same for 32 bits |
| XcpEndian.FromLeBeDecode64 | include/xcp-ng/generic/endian.h:102-150 | the same for 64 bits |
| XcpEndian.FromLeU16P | include/xcp-ng/generic/endian.h:154-156 | `*src` becomes the converted value, and that value is returned |
| XcpEndian.FromLe16P | include/xcp-ng/generic/endian.h:158-160 | `*src` becomes the converted value, and that value is returned |
| XcpEndian.FromLeU32P | include/xcp-ng/generic/endian.h:162-164 | `*src` becomes the converted value, and that value is returned |
| XcpEndian.FromLe32P | include/xcp-ng/generic/endian.h:166-168 | `*src` becomes the converted value, and that value is returned |
| XcpEndian.FromLeU64P | include/xcp-ng/generic/endian.h:170-172 | `*src` becomes the converted value, and that value is returned |
| XcpEndian.FromLe64P | include/xcp-ng/generic/endian.h:174-176 | `*src` becomes the converted value, and that value is returned |
| XcpEndian.FromBeU16P | include/xcp-ng/generic/endian.h:180-182 | `*src` becomes the converted value, and that value is returned |
| XcpEndian.FromBe16P | include/xcp-ng/generic/endian.h:184-186 | `*src` becomes the converted value, and that value is returned |
| XcpEndian.FromBeU32P | include/xcp-ng/generic/endian.h:188-190 | `*src` becomes the converted value, and that value is returned |
| XcpEndian.FromBe32P | include/xcp-ng/generic/endian.h:192-194 | `*src` becomes the converted value, and that value is returned |
| XcpEndian.FromBeU64P | include/xcp-ng/generic/endian.h:196-198 | `*src` becomes the converted value, and that value is returned |
| XcpEndian.FromBe64P | include/xcp-ng/generic/endian.h:200-202 | `*src` becomes the converted value, and that value is returned |
| XcpEndian.FromBeU64PTwice | include/xcp-ng/generic/endian.h:196-198 | two in-place big-endian conversions restore the original value |
| XcpPath.IsAbsIsSlashPrefix | src/path.c:25-27 | a path is absolute iff it starts with '/'; the empty path is not |
| XcpPath.JoinedIgnoresBase | src/path.c:29-31 | an empty pathname or an absolute subpath gives subpath unchanged |
| XcpPath.JoinedAppends | src/path.c:33-52 | otherwise the result is pathname, one slash (added only when pathname does not already end in one), then subpath, with the matching length |
| XcpPath.JoinedKeepsAbsolute | src/path.c:29-52 | joining onto an absolute base, or an absolute subpath, gives an absolute path |
| XcpPath.MemCopy | src/path.c:43-50 | the copied range holds the source and the rest of the buffer is unchanged |
| XcpPath.StrDup | src/path.c:30-31 | NULL iff the allocation fails, else a fresh NUL-terminated copy |
| XcpPath.Combine | src/path.c:29-53 | NULL iff the allocation fails, else a fresh buffer holding `Joined(pathname, subpath)` and its NUL |
| XcpPath.GetFirstSlash | src/path.c:55-61 | the start of the maximal run of slashes that ends just before `pos` |
| XcpPath.LastSlash | src/path.c:83 | `strrchr(s, '/')`: none iff there is no slash, else the last one |
| XcpPath.FindDirSlash | src/path.c:82-91 | steps 1 and 2 find the last slash ignoring a trailing run of slashes, or the last slash of an all-slash path |
| XcpPath.ParentDir | src/path.c:81-120 | NULL iff the allocation fails, else exactly `ParentDirOf(pathname)`, the POSIX `dirname` reference |
| XcpPath.ParentDirOfNoSlash | src/path.c:83-100 | a NULL or slash-free path has parent "." |
| XcpPath.ParentDirOfIsPrefix | src/path.c:102-117 | with a slash left once trailing slashes are ignored (or an all-slash path), the parent is a non-empty prefix; otherwise it is "." |
| XcpPath.ParentDirOfLeadingSlashes | src/path.c:102-111 | when only leading slashes remain, two are kept as "//" and any other number collapses to "/" |
| XcpPath.ParentDirOfExamples | src/path.c:63-80 | the whole example table |
| XcpPath.ParentDirExample1 | src/path.c:64 | "/" gives "/" |
| XcpPath.ParentDirExample2 | src/path.c:65 | "/toto" gives "/" |
| XcpPath.ParentDirExample3 | src/path.c:66 | "titi/a" gives "titi" |
| XcpPath.ParentDirExample4 | src/path.c:67 | "gfrg/grg/" gives "gfrg" |
| XcpPath.ParentDirExample5 | src/path.c:68 | "/gfrg/grg/" gives "/gfrg" |
| XcpPath.ParentDirExample6 | src/path.c:69 | "////gfrg///grg///" gives "////gfrg" |
| XcpPath.ParentDirExample7 | src/path.c:70 | "///gfrg////grg" gives "///gfrg" |
| XcpPath.ParentDirExample8 | src/path.c:71 | "/gfrg////grg" gives "/gfrg" |
| XcpPath.ParentDirExample9 | src/path.c:72 | "titia" gives "." |
| XcpPath.ParentDirExample10 | src/path.c:73 | "/toto/" gives "/" |
| XcpPath.ParentDirExample11 | src/path.c:74 | "//" gives "//" |
| XcpPath.ParentDirExample12 | src/path.c:75 | "///" gives "/" |
| XcpPath.ParentDirExample13 | src/path.c:76 | "////" gives "/" |
| XcpPath.ParentDirExample14 | src/path.c:77 | "//a" gives "//" |
| XcpPath.ParentDirExample15 | src/path.c:78 | "///b" gives "/" |
| XcpPath.ParentDirExample16 | src/path.c:79 | "////c" gives "/" |
| XcpPath.ParentDirExample17 | src/path.c:80 | "////c/d" gives "////c" |
| VtbxString.StrToLL | src/string.c:42 | `strtoll` base 10 stays within `long long`; no conversion means end 0, value 0, no `ERANGE`; `ERANGE` comes with a clamped value |
| VtbxString.StrToLLOfDecimal | src/string.c:42 | reading back the decimal notation of any integer, followed by a non-digit, gives its end and the value, or the clamp and `ERANGE` when out of range |
| VtbxString.StrToLLSkipsSpace | src/string.c:42 | leading white space is skipped and not counted as converted |
| VtbxString.CRuntime.StrToLLCall | src/string.c:42 | the call returns the specified value and end, and `errno` changes only on overflow |
| VtbxString.CRuntime.StrToLongLong | src/string.c:38-48 | `errno` is reset first, so afterwards it is `ERANGE` iff out of range; a non-null `*ok` is true iff something was converted without `ERANGE`; a null `ok` is not written |
| VtbxString.CRuntime.StrToInt | src/string.c:24-29 | the `(int)` cast of the value; a non-null `*ok` is the `long long` verdict and the value in `int` range |
| VtbxString.CRuntime.StrToLong | src/string.c:31-36 | the same check against the width of `long` of the data model |
| VtbxString.Narrow | src/string.c:28 | a narrowing cast lands in the signed range of the target width |
| VtbxString.NarrowIsCongruent | src/string.c:28 | the cast keeps the value modulo 2^bits |
| VtbxString.NarrowKeepsIffInRange | src/string.c:26 | the cast changes the value iff it is out of range, which is the test `value != (int)value` |
| VtbxString.StrToLongOnLP64 | src/string.c:31-36 | with a 64-bit `long` the check of `vtbx_str_to_long` never fires |
| XcpAlgorithm.StrcmpZeroIffEqual | include/xcp-ng/generic/algorithm.h:35 | `strcmp` of two C strings is 0 iff they are equal |
| XcpAlgorithm.PredStrEqual | include/xcp-ng/generic/algorithm.h:34-36 | `xcp_pred_str_equal` holds iff the strings are equal |
| XcpAlgorithm.ArrIndexOf | include/xcp-ng/generic/algorithm.h:40-53 | the first index whose element satisfies the predicate; no earlier element does; `(size_t)-1` iff none does, `n == 0` included |
| XcpAlgorithm.StrArrIndexOf | include/xcp-ng/generic/algorithm.h:57-63 | the first index whose string equals the needle, or `(size_t)-1` iff none does |
| VtbxAlgorithm.PredStrEqual | include/vtbx/algorithm.h:34-36 | `vtbx_pred_str_equal` holds iff the strings are equal |
| VtbxAlgorithm.ArrIndexOf | include/vtbx/algorithm.h:40-53 | the same search contract as `xcp_arr_index_of` |
| VtbxAlgorithm.StrArrIndexOf | include/vtbx/algorithm.h:57-63 | the same contract as `xcp_str_arr_index_of` |

## Left out

- The signal, alternate-stack and `sigsetjmp`/`siglongjmp` machinery of `xcp_coroutine_init`, `xcp_coroutine_trampoline` and `xcp_coroutine_run` (src/coroutine.c:141-168, 179-240) is not modelled. Its observable effect (a callee runs until it yields or returns) is the abstract `Reaction`.
- `mmap`, `mprotect`, `munmap`, `malloc` and `free` are not modelled. Their success is a parameter, and `mapped` counts bytes. Valgrind registration, `sysconf` (the page size is a constant of the thread data) and thread-local storage are treated the same way: one thread's state only.
- The `arg = &oldEnv` that `xcp_coroutine_init` stores temporarily is not modelled. Create states the final `arg == userData`.
- Only the fields the scheduler uses are modelled. The dummy's zero-initialised bytes are the record with no caller, no pendings and `cb = arg = 0`.
- `xcp_coroutine_run` does not clear the caller before switching back with `Terminated`. The model keeps that link, which only matters for the as-written cleanup.
- XcpCoroutine.ThreadData.Resume: a resume started from inside a coroutine is not covered. The model's switches are driven from the resuming coroutine, so the callee's own nested resumes are not modelled.
- XcpCoroutine.ThreadData.Resume: coroutines created while the loop runs are not covered; the script can only name existing coroutines.
- XcpCoroutine.ThreadData.Resume: the loop is bounded by the script, one reaction per switch. A run that would need more ends with `OutOfScript`, and the quiescence theorem says nothing about it.
- XcpCoroutineProperties.ResumeFromRootIsQuiescent: stray statuses are excluded. They end in `abort()` or return to an arbitrary `self`; the abort case is `ResumeSelfAborts`.
- XcpCoroutine.AfterEnqueue: a coroutine linked into a queue while still on one stops the model with `Undefined(Relink)`. The model does not follow the corrupted lists, which in C can lose entries, close a cycle that the resume loop runs forever, or reach a freed coroutine.
- XcpCoroutine.AfterTurn: a callee that processes a coroutine still waiting in the resume's local queue is caught when its switch returns, not at the insert. The local queue is a variable of `xcp_coroutine_resume`, not part of the thread data that the enqueue sees.
- XcpCoroutine.AfterResume: the argument is not checked against the queues. In every state the model reaches at the root, all queues are empty, because each turn empties the callee's queue.
- The `assert` of `xcp_coroutine_process` is modelled as an abort. A build with `NDEBUG` skips it, which is not modelled.
- XcpMath.Min: the operands are mathematical integers. The usual arithmetic conversions that C applies when `__typeof__(A)` and `__typeof__(B)` differ in signedness or width are not modelled. The same holds for XcpMath.Max.
- XcpMath.Max: see XcpMath.Min. A comparison of a negative signed operand with an unsigned one, which C performs after converting the signed one to unsigned, is not covered.
- XcpMath.DivRoundUpIsCeiling: it holds over mathematical integers. In C, `XCP_DIV_ROUND_UP(LLONG_MIN, -1)` (and the same for other signed widths) overflows the quotient, which is undefined behaviour. The model returns the positive magnitude instead.
- XcpAlgorithm.ArrIndexOf: the search is over element indices rather than byte offsets of `elemSize`. It requires `n < SIZE_MAX`, which every C object satisfies, so a found index is never confused with `(size_t)-1`.
- VtbxString.StrToLL: only the base-10 subject sequence of the "C" locale is specified. Other locales may accept further forms.
- VtbxString.Narrow: the `(int)` and `(long)` casts of an out-of-range value are implementation-defined in ISO C. The model takes the two's-complement reduction that GCC and Clang define.
- XcpPath.ParentDirOfIsPrefix: the parent is a prefix of the input only when a slash is left once trailing slashes are ignored. "abc/" has parent ".", which is not a prefix.

## Findings

| source | as written | input that shows it | evidently intended | confidence | as-written member | corrected member |
|---|---|---|---|---|---|---|
| src/coroutine.c:294-298 | when any callee returns (`Terminated`), the loop destroys `coroutine`, the argument of resume | A processes B and then yields; B returns. The suspended A is freed, B keeps its stack and a caller, and a later resume of B aborts | destroy `callee`, the coroutine that terminated | not executed | XcpCoroutineProperties.DestroyArgumentCounterexample | XcpCoroutineProperties.ResumeFromRootIsQuiescent |

The scheduler is parametrised by `Cleanup`:

- `DestroyArgument` models the line as written;
- `DestroyCallee` is the corrected loop.

`ResumeFromRootIsQuiescent`, `DepthFirstOrder` and `DestroyCalleeSameRun` are proved about the corrected loop. When the only callee is the argument itself, the two choices coincide.
