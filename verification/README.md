# A verified model of the symcc toolchain and of the system it builds

The repository holds a C compiler, a linker, an assembler and an emulator for a
32-bit big-endian machine, and a port of Linux 0.11 that runs on it. This project
models the parts of it that hold hard invariants and proves them for every input,
every run or every reachable state.

| part | files |
|---|---|
| machine words, instruction set, emulator | Words, Isa, Emu |
| what every operator, comparison, load and store means, in C and on the machine | Operators |
| assembler and linker | Asm, Link, Layout, Linker |
| linked code run line by line, against the emulator | Machine |
| the C subset, its meaning and the compiler | Minic, Codegen, Generator, Exact |
| compiled code does what C says | Gadgets, Jumps, Calls, Frames, Simulate, Toolchain, Divsi3 |
| the process dispatcher | Process, Tree, Isolation, Status, Fairness, Interrupts, Kernel |
| exec, and linked programs under it | Exec, Loading |
| files: block map, buffer cache, image writer and reader, the image under the block map | BlockMap, Buffers, Rootfs, Storage |
| native heap | Heap |
| clock ticks, console, token printer and tokenizer | Tick, Console, Lexer, Literals |

How the toolchain is put together. `Minic` gives a C program two meanings: `IsoC`,
what C says, and `Emitted`, what the code generator makes of it, which differs in
three places (see Findings). `Generator` is the recursive walk over the tree;
`Codegen` says as functions what it writes. `Simulate` shows that the emitted
lines, run on the line machine of `Machine`, do what the emitted meaning says:
right operand first, result in r1, frame in r10, stack restored, and a program that
never ends keeps the machine running. `Machine` shows that the emulator on the
linked bytes simulates the line machine, stubs included. `Layout` and `Linker` show
that the linker puts every line where its symbols say. `Exact` shows that the two
meanings agree for every program that passes a test on its text, and exactly when
they do for a single assignment or return. `Toolchain.LinkedCallRuns` joins all of
it, for images with safe points and without. `Operators` ties both ends down to
plain integers and bits: the meanings of C's operators and the results of the
machine's instructions are stated there without either's functions.

The other parts meet as well. `Loading` takes what `Linker.LinkUser` writes through
exec to a window that holds what the compiled functions need. `Storage` takes an
image that `Rootfs.MakeImage` makes to a file system that satisfies the invariant of
`BlockMap`, and finds in it every block of every file. `Status` follows an exit
status over whole runs of the dispatcher to the father's memory.

An image with safe points calls `__sp_poll` every 4096th time. `Machine.Host`
stands for the system that answers: memory below `floor` is the system's, `fine`
says that it is in order, and the contract `Served` asks of a call of `__sp_poll`
that it comes back to the line after the call with the program's memory, stack
pointer and frame base as they were and the system again in order. Nothing is asked
of the other registers or of the system's own memory. A routine that only returns
meets it (`Machine.ReturnServes`).

Memory is a map of bytes. Integers are unbounded, so every 32-bit wrap is written
out. Source operators keep their own meaning: signed `/` and `%` truncate.

## Model

| member | source | states |
|---|---|---|
| `Toolchain.LinkedCallRuns` | symcc/src/codegen.c:794-833 | End to end: compile every unit, link, load, run, with safe points or without. Where C gives a call of an exact program a value and a memory, the emulator reaches the line after the call with that value in r1 and that memory, stack pointer and frame base back and nothing else above the system changed; where C runs out of fuel, the emulator is still running. |
| `Toolchain.CallDiverges` | symcc/src/codegen.c:663-716 | A call that never ends in C keeps the emulator running for any number of instructions. |
| `Toolchain.ExprMeansC` | symcc/src/codegen.c:322-611 | The code of an exact expression leaves the C value in r1 and the C memory in memory. |
| `Toolchain.StmtsMeanC` | symcc/src/codegen.c:625-783 | The code of exact statements ends where C ends: after them, at the break or continue label, or returning with the C value. |
| `Toolchain.CallRuns` | symcc/src/codegen.c:432-470 | What the code generator makes of a call is what the emulator on the linked bytes does, callee prologue, parameters, body and return included. |
| `Toolchain.ImageLoaded` | symcc/src/link_image.c:225-255 | An image loaded at its origin is, line by line, the program the line machine runs. |
| `Operators.OperatorMeans` | symcc/src/codegen.c:529-590 | Every binary operator without a runtime routine: the value is the integer C asks for, modulo 2^32 where C wraps; shifts and unsigned division are floored quotients; and, or, xor go bit by bit; each of the six comparisons, signed or unsigned, gives 1 exactly when the numbers are so related and 0 otherwise. |
| `Operators.MeansOne` | symcc/src/codegen.c:529-590 | Where C defines the operator, only one word meets what it asks. |
| `Operators.UnaryMeans` | symcc/src/codegen.c:479-488 | Negation, complement and not: the opposite number, every bit turned, 1 exactly for 0. |
| `Operators.CastMeans` | symcc/src/codegen.c:396-412 | A cast gives the number of its type with the operand's low bits. |
| `Operators.LogicMeans` | symcc/src/codegen.c:286-320 | && and || stop at the first operand when it decides and give 0 or 1. |
| `Operators.AluRuns` | emu/emu.c:127-157 | Every arithmetic instruction puts the integer result, floored quotient or bitwise result in its register and changes nothing else. |
| `Operators.ComparedJump` | emu/emu.c:171-180 | After a comparison, each of the ten conditional jumps goes to its target exactly when the two registers are so related as signed or unsigned integers. |
| `Operators.JumpDecides` | symcc/src/codegen.c:578-588 | The jump the compiler picks for a comparison is taken exactly when the comparison is 1 in C. |
| `Operators.LoadsBigEndian` | emu/emu.c:186-205 | A load of 1, 2 or 4 bytes reads them as the digits of a number, the high one first. |
| `Operators.StoresBigEndian` | emu/emu.c:186-205 | A store writes the low digits of the number, the high one first, and no other byte. |
| `Operators.StoreThenLoad` | emu/emu.c:186-205 | A load after a store of the same width brings back the low digits of what was stored, on memory and on the disk. |
| `Operators.OutsideMemory` | emu/emu.c:186-205 | Outside its memory a load or store stops the machine and changes nothing. |
| `Simulate.SimExpr` | symcc/src/codegen.c:322-611 | Every expression: the emitted lines compute the emitted meaning, right operand first, with every temporary push undone. |
| `Simulate.SimAddr` | symcc/src/codegen.c:154-199 | Every lvalue: the emitted lines leave its address in r9. |
| `Simulate.SimStmts` | symcc/src/codegen.c:625-783 | Every statement list, with if, while, do, for, switch with fallthrough, break, continue and return nested in any way. |
| `Simulate.SimSwitch` | symcc/src/codegen.c:719-757 | A switch runs from the chosen case, the last default or not at all, and leaves at a break. |
| `Simulate.SimCall` | symcc/src/codegen.c:794-833 | A call line enters the callee and comes back to the next line with the callee's frame given back. |
| `Frames.SimReturn` | symcc/src/codegen.c:787-791 | The epilogue restores frame base, stack pointer and the return address the call pushed, whatever the body did below them. |
| `Jumps.SafeStep` | symcc/src/link_image.c:116-124 | A safe point, counted or served, gets past itself with memory, stack pointer and frame base unchanged. |
| `Exact.SameEval` | symcc/src/codegen.c:418-430 | An exact expression has the C value, as far as that value is used, and the C memory. |
| `Exact.SameStmts` | symcc/src/codegen.c:625-783 | Exact statements have the same outcome in both meanings, and return only values in the range of the result type. |
| `Exact.SameCall` | symcc/src/codegen.c:633-647 | A call in an exact program has the same value and memory in both meanings. |
| `Exact.AssignAgrees` | symcc/src/codegen.c:418-430 | Both meanings store the same; r1 is the C value of the assignment if and only if the right side's value converts to itself in the left side's type. |
| `Exact.ReturnAgrees` | symcc/src/codegen.c:633-647 | A function that does the same in both meanings returns the C value if and only if its value converts to itself in the result type. |
| `Exact.ChainedAssignmentKeepsHighBits` | symcc/src/codegen.c:418-430 | x = (c = 300) with an unsigned char c stores 44 in C and 300 in compiled code. |
| `Exact.IncrementDoesNotWrap` | symcc/src/parse.c:1511-1522 | if (++c) with an unsigned char c at 255 takes the other branch in compiled code. |
| `Exact.ResultKeepsHighBits` | symcc/src/codegen.c:633-647 | unsigned char f(void) { return 300; } gives 44 in C and 300 in compiled code. |
| `Exact.SwitchRunsPreamble` | symcc/src/codegen.c:726-731 | A statement before the first case runs in compiled code and not in C. |
| `Generator.Generator.GenExpr` | symcc/src/codegen.c:322-611 | The walk appends exactly the lines, with exactly the labels, that the simulation is about, and fails exactly on what it refuses. |
| `Generator.Generator.GenLaddr` | symcc/src/codegen.c:154-177 | The same for the address of an lvalue. |
| `Generator.Generator.GenStmt` | symcc/src/codegen.c:631-783 | The same for statements; the stacks of break and continue labels are as deep afterwards as before. |
| `Generator.Generator.GenSwitch` | symcc/src/codegen.c:719-757 | The same for a switch: preamble, comparison chain, jump to the last default, body. |
| `Generator.Generator.GenFunc` | symcc/src/codegen.c:794-833 | The same for a function, its frame and parameter copies included. |
| `Generator.Generator.GenUnit` | symcc/src/codegen.c:912-947 | The same for all functions of a unit in order; it fails exactly when some function's body does not compile. |
| `Divsi3.TruncatingPair` | runtime/divsi3.c:8-38 | C's quotient and remainder: they make up the dividend, the remainder is smaller than the divisor and has the dividend's sign. |
| `Divsi3.TruncatingPairUnique` | runtime/divsi3.c:8-38 | No other pair has these properties. |
| `Divsi3.DivReturns` | runtime/divsi3.c:8-22 | A call of the routine returns the magnitude quotient with the sign corrected, memory unchanged. |
| `Divsi3.ModReturns` | runtime/divsi3.c:24-38 | A call of the routine returns the magnitude remainder with the sign corrected, memory unchanged. |
| `Divsi3.WordsTruncate` | runtime/divsi3.c:8-38 | For every dividend and nonzero divisor the results are C's modulo 2^32. |
| `Divsi3.SignedExact` | runtime/divsi3.c:8-22 | Read as signed numbers they are C's if and only if it is not the smallest number divided by -1. |
| `Divsi3.SignedDivision` | symcc/src/codegen.c:545-568 | Signed / and % in an expression mean C's quotient and remainder. |
| `Machine.RunSimulated` | symcc/src/link_image.c:113-165 | Every run of the line machine is a run of the emulator on the linked bytes, and a long one takes long there too. |
| `Machine.BranchStub` | symcc/src/link_image.c:126-129 | The 16-byte conditional goes to any 32-bit address through the low gate exactly when the comparison holds, and changes only r13. |
| `Machine.JumpStub` | symcc/src/link_image.c:134-136 | The 16-byte jump goes to any 32-bit address and changes only r13. |
| `Machine.CallStubRuns` | symcc/src/link_image.c:130-133 | The 32-byte call pushes the address of the next line and goes to the target; only r13, flags, sp and that word change. |
| `Machine.RetRuns` | emu/isa.c:144-147 | ret resumes at the pushed address. |
| `Machine.PollStubRuns` | symcc/src/link_image.c:116-124 | The 60-byte safe point counts in r12 and either skips its call or makes it and goes on at the line after it. |
| `Link.ResolveFinds` | symcc/src/link_image.c:63-71 | In a table without clashes a reference finds its own object's definition, otherwise the unique exported one. |
| `Link.SizeAgrees` | symcc/src/link_image.c:81-88 | The size predicted for a line is the size of what is written for it, except exactly for stubs standing in a data section. |
| `Link.LowerAssembles` | symcc/src/link_image.c:113-165 | What the linker writes for a line, stubs included, assembles to exactly the instructions or bytes that line stands for. |
| `Layout.LayoutAgreesWithEmission` | symcc/src/link_image.c:200-255 | Every text and data line of every object stands in the image, byte for byte, at the address the layout pass gave it. |
| `Layout.SymbolTable` | symcc/src/link_image.c:98-109 | The table has no clash, and an entry for every text label, data label, bss object and linker symbol, at its address. |
| `Layout.ReferencesFindDefinitions` | symcc/src/link_image.c:98-109 | A reference to a text label denotes the byte position of its definition. |
| `Layout.DataReferencesFindDefinitions` | symcc/src/link_image.c:209-214 | A reference to a data label denotes the byte position of its definition in the data. |
| `Layout.BssReferencesFindDefinitions` | symcc/src/link_image.c:216-221 | A reference to a bss object denotes where the bss objects before it end. |
| `Layout.SpecialReferences` | symcc/src/link_image.c:222-225 | References to the linker's own symbols denote the limits of the bss and the system-call gate. |
| `Layout.BssObjectsApart` | symcc/src/link_image.c:216-221 | No two bss objects overlap. |
| `Layout.BssObjectInside` | symcc/src/link_image.c:216-221 | Every bss object starts at a word boundary and lies inside the bss. |
| `Layout.KernelHeadSize` | symcc/src/link_image.c:227-237 | The head of a kernel image ends where the program is laid out if and only if the system-call gate directly follows the branch gate. |
| `Linker.Image.Add` | symcc/src/link_image.c:46-62 | A name is taken unless it clashes; a refused one leaves the table alone. |
| `Linker.Image.Find` | symcc/src/link_image.c:63-71 | The two searches of the table give what Resolve gives. |
| `Linker.Image.LayOut` | symcc/src/link_image.c:200-226 | The layout loops accept exactly the objects that fit and do not clash, and build the table the layout says. |
| `Linker.Image.LinkImage` | symcc/src/link_image.c:170-248 | The whole link succeeds exactly when every name resolves and everything fits, and then its table and text are the ones specified. |
| `Linker.LinkUser` | symcc/src/link_image.c:249-263 | A user file holds the assembled image, the magic number, version and 64 KiB of stack, its loaded and bss sizes and its entry point. |
| `Linker.ImageClosed` | symcc/src/link_image.c:113-165 | What the linker writes never depends on the assembler's own label table. |
| `Asm.Assembler.Assemble` | emu/asm.c:410-440 | The two passes over the lines write exactly the specified bytes, or fail exactly when they do. |
| `Asm.LabelsAreBytePositions` | emu/asm.c:417-440 | When assembly succeeds, every label is the number of bytes of the lines before its first definition. |
| `Isa.IsaEncode` | emu/isa.c:168-187 | The loop over the operand fields writes the table's bits with every operand shifted to its places, big-endian. |
| `Isa.DecodeUndoesEncode` | emu/isa.c:23-147 | The emulator reads back the instruction the table wrote, if and only if it is not out with an immediate. |
| `Emu.Emulator.Execute` | emu/emu.c:75-212 | The fetch and execute loop is the step function iterated, with its three ways to stop. |
| `Heap.Heap.BinIndex` | user/native/heap.c:23-27 | The bin of a size is its binary logarithm rounded down. |
| `Heap.Heap.InsertFree` | user/native/heap.c:28-33 | The block becomes free and first of its bin; all lists stay sound and every other allocation keeps its place and bytes. |
| `Heap.Heap.RemoveFree` | user/native/heap.c:34-39 | The block leaves its bin; the rest as above. |
| `Heap.Heap.JoinNext` | user/native/heap.c:41-45 | Two touching blocks become one, of both sizes and a header; no byte of another allocation changes. |
| `Heap.Heap.SplitBlock` | user/native/heap.c:46-53 | The block keeps what was asked for, less than a header and a unit too much, and the rest is free. |
| `Heap.Heap.Malloc` | user/native/heap.c:54-68 | Fails exactly when the request is absurd or nothing free fits and the break may not move; moves the break only when nothing free fits; a success is a new allocation apart from all others, whose bytes are kept. |
| `Heap.Heap.Free` | user/native/heap.c:69-80 | Exactly that allocation is gone, free neighbours are merged, and every other one keeps its bytes. |
| `Heap.Heap.Calloc` | user/native/heap.c:81-86 | Fails exactly when the product overflows or malloc would fail for it; a success is a new allocation of zeros. |
| `Heap.Heap.Realloc` | user/native/heap.c:87-105 | Fails exactly when the size is above the block's, the block cannot grow into the next one or at the break, and malloc would fail; keeps the address whenever the size fits where the block is; on every path the old contents are kept up to the smaller size, and a failure changes nothing live. |
| `Kernel.Kernel.Dispatch` | Reference/Linux-0.11-main/kernel/symplus/process.c:260-300 | The dispatcher's loops over the slot array compute the state the specification gives, and the invariant holds again. |
| `Kernel.Kernel.Perform` | Reference/Linux-0.11-main/kernel/symplus/process.c:187-259 | Every system call, its checks and its result. |
| `Kernel.Kernel.ForkCurrent` | Reference/Linux-0.11-main/kernel/symplus/process.c:139-156 | fork on the slot array. |
| `Kernel.Kernel.ExitCurrent` | Reference/Linux-0.11-main/kernel/symplus/process.c:157-164 | exit on the slot array: a zombie, its children given to init. |
| `Kernel.Kernel.WaitCurrent` | Reference/Linux-0.11-main/kernel/symplus/process.c:165-178 | wait on the slot array: a zombie child collected, none ready, none at all, or blocked. |
| `Kernel.Kernel.Descendant` | Reference/Linux-0.11-main/kernel/symplus/process.c:63-72 | The bounded walk up the fathers. |
| `Kernel.Kernel.PollIo` | Reference/Linux-0.11-main/kernel/symplus/process.c:81-122 | One keyboard event: modifiers, Ctrl+C, typing. |
| `Kernel.Kernel.TtyRead` | Reference/Linux-0.11-main/kernel/symplus/process.c:128-138 | A read of the terminal copies out of the ring until a newline or the count. |
| `Kernel.Kernel.Replay` | Reference/Linux-0.11-main/kernel/symplus/process.c:285-291 | A blocked call is made again in its own process's memory. |
| `Isolation.RunGood` | Reference/Linux-0.11-main/kernel/symplus/process.c:260-300 | In every run from boot: pids distinct, fathers older and alive or init, blocked exactly when a read or wait is pending, the active process running. |
| `Isolation.RunIsolates` | Reference/Linux-0.11-main/kernel/symplus/process.c:55-61 | Over every run in which a process does not itself run, its memory and registers stay, but for the completion of its own blocked call, as long as it lives. |
| `Isolation.DispatchIsolates` | Reference/Linux-0.11-main/kernel/symplus/process.c:260-300 | One trip through the dispatcher does nothing to another process but complete its own blocked call: r1 and the buffer it named. |
| `Isolation.DispatchCaller` | Reference/Linux-0.11-main/kernel/symplus/process.c:187-259 | To the caller, a call the dispatcher answers itself changes r1 and the buffer the call names, and nothing else. |
| `Isolation.DispatchBrings` | Reference/Linux-0.11-main/kernel/symplus/process.c:55-61 | The process that runs next finds in the window what it left there and its registers as it left them, unless its own call completed. |
| `Isolation.ForkCopies` | Reference/Linux-0.11-main/kernel/symplus/process.c:139-156 | The child has the parent's memory, registers and break, r1 zero, nothing pending, and a pid never used before; nothing else changes; EAGAIN exactly when every slot is taken, EINTR exactly after a delayed Ctrl+C. |
| `Isolation.WaitCollects` | Reference/Linux-0.11-main/kernel/symplus/process.c:165-178 | A wait that returns a pid has collected that zombie child of the caller, with its exit status, and touched nobody else. |
| `Isolation.WaitReturns` | Reference/Linux-0.11-main/kernel/symplus/process.c:165-178 | In every case: the pid of a dead child if there is one that is meant, ECHILD if there is no such child at all, otherwise 0 or a retry; EINVAL for what cannot be meant. |
| `Isolation.GoneForGood` | Reference/Linux-0.11-main/kernel/symplus/process.c:165-178 | Over every run no pid comes back, so an exit status is collected at most once. |
| `Isolation.ForkIdentities` | Reference/Linux-0.11-main/kernel/symplus/process.c:215-230 | Asked for its pid, a fork's child answers what the fork told its parent, and asked for its father's, the parent's own. |
| `Status.StatusReported` | Reference/Linux-0.11-main/kernel/symplus/process.c:157-178 | The life of a process over any run: it lives on, or it ends in one dispatch with 2, or with the low byte of its own exit argument times 256; it then lies dead with that status until, if ever, a wait of its recorded father or of init returns its pid, and the word at that wait's status pointer is that status. |
| `Status.ExitReported` | Reference/Linux-0.11-main/kernel/symplus/process.c:157-178 | A process that traps with exit(a) before a Ctrl+C takes it leaves a % 256 * 256, however many dispatches later its father collects it. |
| `Status.RunReports` | Reference/Linux-0.11-main/kernel/symplus/process.c:165-178 | A dead process keeps its status over any run until its father's memory holds it. |
| `Status.DispatchFate` | Reference/Linux-0.11-main/kernel/symplus/process.c:267-284 | In one dispatch nobody ends but by its own exit or with status 2, and nobody disappears uncollected. |
| `Fairness.YieldsAreFair` | Reference/Linux-0.11-main/kernel/symplus/process.c:292-298 | Over a run of yields a process that can run is resumed within eight of them, and eight more for every process killed or blocked call finished meanwhile. |
| `Fairness.NoSwitch` | Reference/Linux-0.11-main/kernel/symplus/process.c:292-298 | Without a yield the caller keeps the window unless it ended or waits, or somebody is killed or replayed. |
| `Interrupts.KeyTypes` | Reference/Linux-0.11-main/kernel/symplus/process.c:98-117 | Any other key types its character when pressed with no control key down, and nothing when released. |
| `Interrupts.ModifiersHeld` | Reference/Linux-0.11-main/kernel/symplus/process.c:87-94 | Each shift and control key is down from its press to its release. |
| `Interrupts.LetterKeys` | Reference/Linux-0.11-main/kernel/symplus/process.c:99-104 | A letter key gives the small letter, and the capital with shift held. |
| `Interrupts.ControlC` | Reference/Linux-0.11-main/kernel/symplus/process.c:81-97 | C pressed while a control key is down, or the key for both, interrupts. |
| `Interrupts.OwnerCancelled` | Reference/Linux-0.11-main/kernel/symplus/process.c:73-80 | With nobody in the foreground Ctrl+C kills nobody, drops what was typed and makes the owner's next terminal read fail, once. |
| `Interrupts.LateInterrupt` | Reference/Linux-0.11-main/kernel/symplus/process.c:237-250 | A Ctrl+C that came before the shell named its child marks exactly the child's tree when it does; only a child can be named. |
| `Interrupts.Deferred` | Reference/Linux-0.11-main/kernel/symplus/process.c:251-253 | After asking for a delay a process learns of the interrupt, is not killed, and can neither fork nor rename. |
| `Interrupts.RunBounded` | Reference/Linux-0.11-main/kernel/symplus/process.c:226-229 | Over every run each process's break stays between the end of its data and its stack. |
| `Isolation.KillExact` | Reference/Linux-0.11-main/kernel/symplus/process.c:277-284 | The kill pass ends exactly the marked processes that have not asked for a delay. |
| `Isolation.TreeDies` | Reference/Linux-0.11-main/kernel/symplus/process.c:73-80 | Ctrl+C ends exactly the foreground process and everything below it, however deep. |
| `Tree.DescendantExact` | Reference/Linux-0.11-main/kernel/symplus/process.c:63-72 | The depth-bounded walk computes the exact ancestor relation. |
| `Tree.WaitReadyExact` | Reference/Linux-0.11-main/kernel/symplus/process.c:179-186 | wait_ready holds exactly when the wait would not block. |
| `Tree.ReadyExact` | Reference/Linux-0.11-main/kernel/symplus/process.c:285-291 | A blocked call is taken up exactly when replaying it no longer blocks. |
| `Tree.DispatchGood` | Reference/Linux-0.11-main/kernel/symplus/process.c:260-300 | One trip through the dispatcher keeps the invariant and returns to a running process. |
| `Tree.TypedQueue` | Reference/Linux-0.11-main/kernel/symplus/process.c:98-117 | Typing appends a printable byte or a newline to the unread bytes exactly when there is room, an erase takes back the last byte of an unfinished line, and nothing else changes them. |
| `Tree.TtyReadTakes` | Reference/Linux-0.11-main/kernel/symplus/process.c:128-138 | A read takes the front of the unread bytes, never past the first newline, into the buffer and nowhere else, and blocks only for want of a line. |
| `Exec.Task.Execve` | Reference/Linux-0.11-main/fs/symexec.c:13-81 | All or nothing: an error changes neither window, registers, break nor open files; it succeeds exactly when the file is a program that fits and both vectors can be copied. |
| `Exec.Enter` | Reference/Linux-0.11-main/fs/symexec.c:57-71 | The new window: the image, and argv and envp as tables of pointers to null-terminated copies inside the reserved stack. |
| `Exec.StageVector` | Reference/Linux-0.11-main/fs/symexec.c:21-37 | Every string of a vector is staged with its null byte, or the error is the one the source gives. |
| `Loading.LinkedIsExecutable` | Reference/Linux-0.11-main/fs/symexec.c:44-56 | A file the linker makes passes exec's checks exactly when its image was written in full, its entry is an aligned place in the image, and image and bss leave 64 KiB of the window. |
| `Loading.HeaderReadsBack` | symcc/src/link_image.c:256-262 | exec reads the seven words the linker wrote, and the image after them. |
| `Loading.ImageInFull` | symcc/src/link_image.c:249-255 | The image is written in full unless a data section holds a line whose size the layout mispredicts. |
| `Loading.LinkedStarts` | Reference/Linux-0.11-main/fs/symexec.c:57-81 | A linked program that was started is at the address of _start, its image at the bottom of the window, zeros up to the stack, break and stack limit at the ends of bss and window. |
| `Loading.StartedInMemory` | Reference/Linux-0.11-main/fs/symexec.c:57-71 | And the machine's memory then holds the image as the compiled functions need it. |
| `Loading.ImageHoldsProgram` | scripts/mkrootfs.py:21-27 | A linked program put below /bin of an image is opened by exec as the linker wrote it. |
| `BlockMap.FileSystem.NewBlock` | Reference/Linux-0.11-main/fs/bitmap.c:5-20 | The lowest free zone, marked and zeroed, across all bitmap blocks; 0 exactly when none is free. |
| `BlockMap.FileSystem.FreeBlock` | Reference/Linux-0.11-main/fs/bitmap.c:21-27 | Exactly that zone's bit is cleared. |
| `BlockMap.FileSystem.MapBlock` | Reference/Linux-0.11-main/fs/inode.c:80-149 | Mapping a block, created on demand, keeps every inode's tree distinct, valid and marked; every other block of every inode stays mapped as it was; a new block reads as zeros; 0 only when the disk is full. |
| `BlockMap.FileSystem.Truncate` | Reference/Linux-0.11-main/fs/truncate.c:54-71 | Exactly the inode's own tree, tables included, is given back; every other inode keeps its blocks. |
| `BlockMap.TreeIsOwned` | Reference/Linux-0.11-main/fs/truncate.c:18-52 | What the nested frees clear, put together, is the set of zones the inode owns. |
| `Storage.MountedSound` | Reference/Linux-0.11-main/fs/inode.c:70-79 | An image mkrootfs makes, read as the kernel reads it, meets the invariant of the block map: no zone hangs in two places, and all are in range and marked. |
| `Storage.BlockFound` | Reference/Linux-0.11-main/fs/inode.c:80-149 | In such an image the block map gives for block b of a file the zone where the b-th 1024 bytes of its data stand, direct, indirect or double indirect, and none past its end. |
| `Storage.FindBlock` | Reference/Linux-0.11-main/fs/inode.c:140-143 | bmap does so on the mounted image and changes nothing. |
| `Storage.NothingLeaks` | scripts/mkrootfs.py:34-40 | Every zone the image marks hangs in some inode's tree. |
| `Storage.MarkedExact` | scripts/mkrootfs.py:34-40 | The zones marked are exactly those given out. |
| `Storage.BinIsExecutable` | scripts/mkrootfs.py:26 | Among the files of an image exactly those below /bin carry an execute bit. |
| `Buffers.Cache.Session` | Reference/Linux-0.11-main/fs/buffer.c:206-281 | Any sequence of reads, writes and syncs through the cache reads what the plain disk would, and leaves to see what it would. |
| `Buffers.Cache.GetBlk` | Reference/Linux-0.11-main/fs/buffer.c:206-251 | A referenced buffer of that block; on a miss an unreferenced one, written out first when dirty; nothing seen changes, and every other buffer keeps its block, data and count. |
| `Buffers.Cache.BRead` | Reference/Linux-0.11-main/fs/buffer.c:267-281 | A buffer with the block's latest contents; null exactly when the block is off the disk and not held. |
| `Buffers.Cache.BRelse` | Reference/Linux-0.11-main/fs/buffer.c:253-261 | One reference less, and nothing else. |
| `Buffers.Cache.SyncDev` | Reference/Linux-0.11-main/fs/buffer.c:59-82 | Every buffer of the disk is written out: the disk itself then holds what is seen. |
| `Buffers.Cache.FindBuffer` | Reference/Linux-0.11-main/fs/buffer.c:166-174 | The walk of the hash chain finds the buffer of a block if there is one. |
| `Buffers.Cache.InsertIntoQueues` | Reference/Linux-0.11-main/fs/buffer.c:149-164 | The buffer goes to the end of the ring and the front of its chain; all chains and the ring stay sound. |
| `Buffers.Cache.constructor` | Reference/Linux-0.11-main/fs/buffer.c:350-387 | A fresh cache: every buffer clean, unreferenced and once in the ring. |
| `Rootfs.MakeImage` | scripts/mkrootfs.py:10-60 | An image is made exactly when the files fit; the geometry is accepted; nodes own disjoint ranges of zones that with the bitmaps agree; every file of a non-conflicting set reads back byte for byte. |
| `Rootfs.DirDots` | scripts/mkrootfs.py:43-44 | In the image `.` of a directory leads to itself and `..` to the one it hangs in, the root's to the root. |
| `Rootfs.ReadFile` | scripts/mkrootfs.py:71-98 | The reader computes the specified walk from the root, or fails with it. |
| `Rootfs.FileReadBack` | scripts/mkrootfs.py:90-98 | From any complete image every file is found by its path and read back. |
| `Rootfs.ContentRead` | scripts/mkrootfs.py:77-89 | A stored file reads back whatever its size, through direct, indirect and double indirect zones. |
| `Rootfs.GeometryRead` | scripts/mkrootfs.py:62-69 | The superblock make_image writes passes every check of image_geometry. |
| `Rootfs.Writer.WriteData` | scripts/mkrootfs.py:51-56 | A file's blocks and tables take exactly the zones it needs, in order, and fail exactly when they do not fit. |
| `Rootfs.NodesTree` | scripts/mkrootfs.py:15-27 | The nodes of a non-conflicting set of files form a tree in which every file is where its path says. |
| `Tick.TickElapsed` | Reference/Linux-0.11-main/kernel/symplus/tick.c:2-19 | The quotient of the 64-bit difference plus what was saved, modulo 2^32, and the exact remainder; no intermediate word overflows. |
| `Tick.DivideLow` | Reference/Linux-0.11-main/kernel/symplus/tick.c:11-14 | The second loop divides the whole 64-bit number bit by bit with 32-bit operations. |
| `Tick.NothingLost` | Reference/Linux-0.11-main/kernel/symplus/tick.c:2-19 | However the time is cut into calls, the ticks reported and the remainder left are those of the whole. |
| `Console.Screen.ConWrite` | Reference/Linux-0.11-main/kernel/chr_drv/console.c:459-618 | For every byte stream: pos, x, y, top and bottom stay consistent, every access is inside the frame and the parameter array, and the screen is the specified one. |
| `Console.TextAppears` | Reference/Linux-0.11-main/kernel/chr_drv/console.c:469-479 | Plain text that fits the row appears where the cursor was and nowhere else. |
| `Console.CursorAddressing` | Reference/Linux-0.11-main/kernel/chr_drv/console.c:88-100 | ESC [ row ; col H for any two numbers: the cursor goes there when that is on the screen and stays otherwise; no character changes. |
| `Console.InsertedLine` | Reference/Linux-0.11-main/kernel/chr_drv/console.c:364-375 | After an inserted line the cursor's row is blank if and only if it is the first row or was blank before. |
| `Console.NewlineScrolls` | Reference/Linux-0.11-main/kernel/chr_drv/console.c:208-223 | A newline goes to the next row; on the last row of the region the rows of the region move up one, the last becomes blank, and nothing else changes. |
| `Console.LongRowsWrap` | Reference/Linux-0.11-main/kernel/chr_drv/console.c:469-479 | A character that finds the row full goes where it would after a newline. |
| `Console.CursorControls` | Reference/Linux-0.11-main/kernel/chr_drv/console.c:484-492 | Carriage return, backspace and the erase character. |
| `Console.ReverseScrolls` | Reference/Linux-0.11-main/kernel/chr_drv/console.c:225-233 | ESC M: up a row, or at the top of the region its rows move down, the top one staying and the screen's first row blanked. |
| `Console.RegionSet` | Reference/Linux-0.11-main/kernel/chr_drv/console.c:599-607 | ESC [ first ; last r sets the region exactly when there are such rows. |
| `Console.TabStops` | Reference/Linux-0.11-main/kernel/chr_drv/console.c:493-502 | A tab goes to the next column that is a multiple of eight. |
| `Console.DisplayErased` | Reference/Linux-0.11-main/kernel/chr_drv/console.c:251-279 | ESC [ n J blanks exactly what is from the cursor on, before it, or everything, for n of 0, 1 and 2, and the cursor stays. |
| `Console.LineErased` | Reference/Linux-0.11-main/kernel/chr_drv/console.c:281-307 | ESC [ n K the same within the cursor's row. |
| `Console.CursorMoves` | Reference/Linux-0.11-main/kernel/chr_drv/console.c:541-572 | The cursor goes up, down, right, left, to the start of a row, to a column or a row, by any number written in decimal, when the place (modulo 2^32) is on the screen, and stays otherwise; no character changes. |
| `Console.CharactersDeleted` | Reference/Linux-0.11-main/kernel/chr_drv/console.c:377-390 | ESC [ n P: what stands right of n characters moves left and blanks follow. |
| `Console.CharactersInserted` | Reference/Linux-0.11-main/kernel/chr_drv/console.c:350-362 | ESC [ n @: n blanks come in and what stood there moves right. |
| `Console.LinesDeleted` | Reference/Linux-0.11-main/kernel/chr_drv/console.c:392-403 | ESC [ n M: n lines go and the lines below move up. |
| `Console.LinesInserted` | Reference/Linux-0.11-main/kernel/chr_drv/console.c:364-375 | ESC [ n L: the lines below move down; the lines left are blank at the top of the screen only, elsewhere copies of the cursor's line. |
| `Console.CursorComesBack` | Reference/Linux-0.11-main/kernel/chr_drv/console.c:608-613 | A cursor saved is back after a restore. |
| `Literals.HexadecimalLiteral` | symcc/src/tokenize.c:158-216 | 0x and any number in hexadecimal figures of either case, with or without u, is that number. |
| `Literals.OctalLiteral` | symcc/src/tokenize.c:158-216 | 0 and any number in octal figures is that number. |
| `Literals.Suffixes` | symcc/src/tokenize.c:196-203 | u or U and l or L, once or doubled, in either order are read over, and u or U is noted. |
| `Literals.NamedEscape` | symcc/src/tokenize.c:85-98 | Every named escape denotes its character, alone and in a string. |
| `Literals.HexadecimalEscape` | symcc/src/tokenize.c:106-120 | A hexadecimal escape denotes the low byte of its number. |
| `Literals.LineComment` | symcc/src/tokenize.c:141-144 | From two slashes to the end of the line nothing is read. |
| `Literals.BlockComment` | symcc/src/tokenize.c:145-155 | A block comment is skipped up to its first end. |
| `Literals.OpenComment` | symcc/src/tokenize.c:145-155 | One without an end is an error. |
| `Lexer.PrintedReadsBack` | symcc/src/preprocess.c:1368-1429 | Printing a stream of valid tokens and tokenizing the text gives the same kinds, spellings, values and strings. |
| `Lexer.LexValid` | symcc/src/tokenize.c:127-331 | The tokenizer only produces valid tokens. |
| `Lexer.PrintingIsStable` | symcc/src/preprocess.c:1382-1429 | Any text, tokenized, printed and tokenized again, gives the same tokens. |
| `Lexer.Tokenize` | symcc/src/tokenize.c:127-331 | The cursor loop computes the specified token stream, or fails with it. |
| `Lexer.Print` | symcc/src/preprocess.c:1382-1429 | The buffer is the specified text. |

## Findings

Where the code does not do what it is for, the code is modelled as it is, with the
input and the exact condition.

- The value of a narrow assignment keeps the bits the store dropped
  (symcc/src/codegen.c:418-430, and so also `++c`, symcc/src/parse.c:1511-1522): `Exact.AssignAgrees`,
  `Exact.ChainedAssignmentKeepsHighBits`, `Exact.IncrementDoesNotWrap`.
- A returned value is not converted to the function's result type
  (symcc/src/codegen.c:633-647): `Exact.ReturnAgrees`, `Exact.ResultKeepsHighBits`.
- What stands before the first case of a switch is executed
  (symcc/src/codegen.c:726-731): `Exact.SwitchRunsPreamble`; `Exact.ExactStmts` asks
  for declarations only.
- `out` with an immediate is written under 0x12 and read under 0x10 (emu/isa.c:31,
  emu/emu.c:121): `Isa.DecodeUndoesEncode`.
- A branch, jump or call in a data section is longer than the layout counts it
  (symcc/src/link_image.c:98-109): `Link.SizeAgrees`.
- The kernel image is laid out where its head ends only when the system-call gate
  directly follows the branch gate (symcc/src/link_image.c:227-237): `Layout.KernelHeadSize`.
- The smallest number divided by -1 is the smallest number (runtime/divsi3.c:8-22): `Divsi3.SignedExact`.
- Inserting a line blanks the first row of the screen, not the inserted one
  (Reference/Linux-0.11-main/kernel/chr_drv/console.c:198 through scrdown): `Console.InsertedLine`.
- A buffer with a device put in front of an empty hash chain stores through a null
  pointer (Reference/Linux-0.11-main/fs/buffer.c:163); `Buffers.Cache.InsertIntoHash` tests first.
- An erase character of 128 or more never erases, because the byte read is a signed
  char (Reference/Linux-0.11-main/kernel/chr_drv/console.c:486): `Console.Erases`.
- A path with exactly two leading slashes goes under a second root in the image, and
  the reader, which starts from the first, does not find it (scripts/mkrootfs.py:21-26, 91-97).

## Left out

Compiler and linker:

- goto and labels, bit-fields, aggregates by value and block copies, unions, variable arguments, calls through pointers and the division in a pointer difference.
- Symbols are a datatype, so a C global spelled like a compiler label is not modelled; such clashes are refused by the linker.
- Case labels stand directly in the body of their switch; the limits of 64 arguments and 64 nested loops are not modelled.
- The parser: trees are taken as it builds them, also where it departs from C, as in a compound assignment to an lvalue with side effects (symcc/src/parse.c:1751-1759).
- Preprocessing and macro expansion; the older linker symcc/src/link.c; reading and writing object files.
- Minic.Room: a stack with no room for one more word at a safe point counts as exhausted, as it is for the compiled code.
- Machine.Served: what __sp_poll does is a contract on the system it traps to (user/lib/syscall.sym:70-72); it is not joined to the proofs about the dispatcher.
- Exact.ExactExpr: a test on the text that is sufficient; a program that fails it may still mean the same on the values it computes.
- Emulator options: address masks, key events, the clock and the observer.
- Assembler text: lines are parsed; quirks of spacing inside strings are not modelled.

Processes and exec:

- Process.Service: what the file system answers is a parameter, so the memory a file-system call writes is not tied to the file.
- Pids are unbounded, descriptors, timers and kernel messages are left out, and the events a waiting dispatcher sees are a finite list.
- Exec.Task.Execve: the file is what can be read of it; opening and closing are primitives, and the close-on-exec mark of a descriptor that is not open may change on an error.

Files:

- BlockMap.FileSystem.MapBlock: the device is synchronous and never fails; a damaged tree, on which the source panics, is outside the precondition.
- Buffers.Cache.Session: block numbers below 2^31, counts below 255, some buffer unreferenced; which of several free buffers is reused is not claimed to be the least recently used; inode flushing in sync_dev is abstracted; breada and block_write are left out.
- The request queue (add_request) is left out: the device serves each request at once.
- Rootfs.MakeImage: paths are given as components, without the two-slash root of the findings; files may come in any order.

Other:

- Heap.Heap.Malloc: headers are kept beside the payload bytes rather than in them, and others may only raise the break.
- Console.Screen.ConWrite: the reply to ESC Z is left out.
- Lexer.PrintedReadsBack: the host has 64-bit integers; whether a token began its line is not part of it; a backslash at the very end of the text, which the source reads past, is a failure.
