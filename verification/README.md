# U6a: a verified model of the Unlambda compiler and its virtual machine

U6a compiles Unlambda 2.0 to bytecode and runs the bytecode. This project models the whole way from
source bytes to observable behaviour, and the two hand-written memory structures under the VM, and
proves that they do what they are for.

**Language and machine.** `Reference` says what a program means: a small machine over expression trees
with continuations as data, which knows no instructions, addresses or stacks. `Machine` is the VM of
src/runtime.c as a step function on an accumulator, a stack and an instruction index; `Vm` is the same
VM as the source has it, an object whose registers change in place in one dispatch loop. `Compile` is
the compiler by recursion on trees, `Codegen` the source's one-pass loop over the node array with its
pending stack, backpatching and rollback. `Simulation` relates VM states to reference states and shows
that each VM instruction keeps the relation; `Correctness` draws the conclusions for whole runs:

* for every source text that is accepted, every input, and with string folding and tail-call
  elimination each on or off, the VM never faults, stops exactly if the reference machine does, and
  then with a related result, the same output and the same input consumed (`Correctness.EndToEnd`);
  running forever, each writes what the other writes (`Correctness.SameOutput`);
* the two optimizations change nothing that can be observed (`Correctness.OptimizationsSound`,
  `Correctness.OptimizationsKeepPace`), and with tail-call elimination and without it the VM comes to
  stand for one and the same reference state arbitrarily late (`Correctness.TailCallsMeet`).

What the theorems leave to both machines is pinned down by itself. `World` says what programs do to
input and output; `Programs` runs programs that use each primitive, from the first step to the end, on
every input: cat copies its input byte for byte, by the reference and by every VM
(`Programs.CatCopies`). `Tails` shows that tail-call elimination eliminates tail calls: a loop runs in
four stack slots with it and in no bounded number without (`Tails.LoopStaysLow`, `Tails.LoopClimbs`).
`Alphabet` gives the lexer in byte values, and `Codes` the numbers of functions and instructions, with
what is a reference and what has an offset by number.

`Lexer` and `Parser` are the front end as it is written, each proved against a declarative reading:
the lexer accepts exactly the texts that spell the tokens with blanks and comments between them, the
parser exactly the token lists that are one prefix expression. What is proved of the language is what
man/u6ac.1:72 promises, all of Unlambda 2.0 with input, continuations and promises; the size limit of
man/u6ac.1:84 is `Lexer.MAX_LEN` tokens.

**Memory.** `Heap` holds the pool slots and stack segments as a value, with one invariant that ties
counts to references: no slot's count is below the number of references to it, holes are exactly the
slots not in use, a segment's count is the number of segments that stand on it, and every segment with
none on it is owned by exactly one continuation, or is the active stack. `Memory` has the operations,
which change arrays and links in place and keep that invariant; `Steps` has the value-level lemmas
behind them. The stack operations act on the active stack as on a plain sequence and leave every other
stack that anyone owns as it was, those of continuations in the pool among them (`Heap.Heads`).
`Continuations` puts this together: a run of any length of pushes, pops, exchanges, captures and jumps
does what it does to a plain sequence with a list of snapshots (`Continuations.Roam`). `Reach` draws
conclusions: live is reachable, nothing dangles, no segment is kept that no head needs; `Closures` has
the theorem about whole runs of programs that make, share and drop closures.

Ownership is explicit: ghost arguments say which references and stack heads the caller holds
(`Heap.Owners`), so that every method says what it consumes and what it hands back.

## Where the code falls short

Four things the code does are not what it is meant to do. In each case the model keeps what the code
does, a concrete program or memory shows what goes wrong, and a condition says when it does not.

* The loader's decoding loop (src/runtime.c:186) ends five instructions before the end of the text, so
  offsets in the last five stay in file byte order on a little-endian host. The text in memory is the
  compiled one if and only if each of these instructions has no offset or one that reads the same both
  ways (`Loader.LoadedExactly`); the program `` `d`ki `` fails (`Loader.LoaderCounterexample`), and so
  does a program with two folded strings (`Loader.StringCounterexample`), whose second string is then
  looked for far behind the end of all strings. The theorems about runs speak of the program as the
  compiler means it to be loaded.
* `u6a_vm_stack_top` steps down to the segment below when the active one is used up
  (src/vm_stack.h:53-59), so the `pop` behind it takes the element off that segment in place. Once, the
  pair leaves the other stacks alone if and only if the active segment holds something or nothing else
  stands on the one below (`Reach.PopInPlaceExactly`); pushes, a save and a pop lead to a memory in
  which it does not (`Continuations.SharedReached`, `Reach.PopInPlaceCounterexample`). The memory is in
  order after the pair if and only if the active segment holds something: otherwise the used-up segment
  stays on top of the one that is active now, and no owners make that right
  (`Reach.PopInPlaceInvariant`). `Memory.Memory.Pop` is the operation that src/vm_stack.c:156-174 makes
  of it: pop crosses the boundary, frees what is used up, and copies what is shared.
* A continuation with one reference is put in force without a copy (src/vm_pool.h:153-156) while its
  pool slot still holds the stack. The memory is in order after a reinstatement if and only if the slot
  had more than one reference; with one, the stack in force is the saved one, and no owners make that
  right (`Memory.Memory.Reinstate`). A push then shows in the continuation
  (`Continuations.OneReferenceCounterexample`).
* A release that frees a continuation discards its stack, and a release from there empties the list of
  slots still to be lowered (src/vm_pool.h:169), so some counts stay too high for good, by exactly the
  references that were on the list. `Cascade` has the release as a function of the memory, and the
  condition on the memory before the call: exact counts stay exact if and only if the release is in
  order, that is, no continuation that loses its last reference while the list holds something has a
  stack whose discarding releases anything (`Memory.Memory.Release`, `Cascade.DrainedLost`). It is in
  order wherever the slot leads to closures only (`Cascade.ClosedDrained`), and for a continuation
  whose stack does (`Cascade.ClosedCont`); it is not where closures held once lead by their first
  references past a second one to a continuation held once with a reference in what goes of its stack
  (`Cascade.DoomedLoses`, `Continuations.ForgetfulCounterexample`).

## Model

| member | source | states |
|---|---|---|
| Correctness.EndToEnd | src/u6ac.c:205-225 | For every source that means an expression, every input, folding on or off and tail-call elimination on or off: the VM never faults, it halts if and only if the reference run of that expression ends, and then with a related value, the same output and the same input consumed. |
| Correctness.CompilerCorrect | src/codegen.c:100-191 | The same for every expression tree, and no state the VM reaches is a fault. |
| Correctness.SameOutput | src/runtime.c:209-369 | Also for runs that never end: whatever one machine has written at some time is a prefix of what the other has written at some time. |
| Correctness.OptimizationsSound | src/runtime.c:242-247 | Any two settings of string folding and tail-call elimination halt on the same inputs, and then with values standing for one reference value, equal output and equal input position. |
| Correctness.OptimizationsKeepPace | src/codegen.c:131-162 | On any run, what one setting has written the other comes to write as well. |
| Correctness.TailCallsMeet | src/runtime.c:242-247 | For every program and input, the machines with and without tail-call elimination stand for one and the same reference state beyond any bound in both runs. |
| Correctness.EveryStateMatched | src/runtime.c:199-373 | Every state the VM reaches from a compiled program stands for a state of the reference run. |
| Correctness.RunsMeet | src/runtime.c:199-373 | The two runs stand at related states arbitrarily late in both. |
| Correctness.ReachableSound | src/runtime.c:209-369 | In every reachable state the next instruction lies in the text, the stack holds values and return markers and force markers with their argument beneath, and no marker is in the accumulator. |
| Correctness.NeverFaults | src/runtime.c:332-366 | A compiled program never underflows the stack, never leaves the text and never reaches an invalid-function branch. |
| Correctness.ExitHalts | src/runtime.c:329-331 | When the reference run ends, the VM halts in a state related to that very end. |
| Correctness.HaltExits | src/runtime.c:329-331 | When the VM halts, the reference run has ended in a state related to that. |
| Correctness.SameOutcome | src/runtime.c:329-331 | Any ended reference state and any halted VM state of the same program are related, whenever each was reached. |
| Correctness.StartRelated | src/runtime.c:200-203 | The loaded program, guard and shared routine included, starts in a state related to the reference start. |
| Correctness.CompileSource | src/u6ac.c:205-225 | Lexer, parser and generator in sequence: bytecode comes out exactly for sources that mean some expression, and it is the bytecode the theorems speak of. |
| Correctness.RunSource | src/runtime.c:199-373 | Compiling, loading and running a number of instructions ends in exactly the VM state of that number, which stands for a state of the reference run of what the source means. |
| Correctness.PrintedMeans | src/lexer.c:56-137 | Printing any expression with arbitrary blanks and comments between its tokens gives a source that means this expression and no other. |
| Correctness.PlainNoNul | src/lexer.c:36-39 | What the lexer lets through has no zero byte in any printed character, which the C strings in rodata rely on. |
| World.ReachedSane | src/runtime.c:305-328 | In every state either machine reaches, for any program, input and setting: the input is what it was, the position is inside it, the current character is the one before the position (none only before the first read or at the end); positions only go forward and what is written stays. |
| World.ReadReference | src/runtime.c:305-314 | `@` in the reference: before the end of input it moves on by one byte, makes it current and passes `i`; at the end it stays, leaves no current character and passes `v`. |
| World.ReadVm | src/runtime.c:305-314 | The same for the VM, in terms of input, position and current character. |
| World.WriteReference | src/runtime.c:259-262 | `.x` makes the output longer by exactly the byte x, changes nothing else of the world, and gives its argument. |
| World.WriteVm | src/runtime.c:259-304 | The same for the VM, and for a string: its bytes up to the first zero. |
| World.CurrentReference | src/runtime.c:315-328 | `?x` passes `i` exactly if the current character is x; the reprint function passes the printer of the current character, or `v` if there is none. |
| World.OnlyInAndOut | src/runtime.c:229-334 | No step of the reference but applying `@` or `.x` touches input or output. |
| Programs.CatCopies | src/runtime.c:305-328 | Cat, `Programs.CAT`, a loop through `s`, `d`, `c`, `@` and the reprint function, ends on every input, with exactly that input written and all of it consumed, by the reference and by the VM under every setting. |
| Programs.KeepsFirst | src/runtime.c:250-258 | `k`: ```` ```k.x.yi ```` writes x alone, by the reference and by every VM. |
| Programs.Distributes | src/runtime.c:230-249 | `s`: ```` ```s`k.x.yi ```` writes y, then x. |
| Programs.Absorbs | src/runtime.c:298-300 | `v` takes arguments without applying them: nothing is written. |
| Programs.ArgumentFirst | src/runtime.c:259-262 | Arguments are evaluated before the call: `` `.x`.yi `` writes y, then x. |
| Programs.EndsAtOnce | src/runtime.c:329-331 | `e` ends the program before anything waiting for its result is done. |
| Programs.DelaysForce | src/runtime.c:277-297 | A promise made by `d` from code, from a value, or by `s` from two values writes nothing; applying it runs what was delayed, once. |
| Programs.ForcesValue | src/runtime.c:293-297 | `s` with `d` on the left delays its right half until the result is applied. |
| Programs.Compares | src/runtime.c:315-322 | A program that reads one byte, compares it with x and applies the answer: it writes exactly if the comparison succeeds. |
| Tails.TailStep | src/runtime.c:242-247 | Applying a full `s` by the application at index 3: two slots more and no marker with tail-call elimination, three more, with a return marker at the bottom of the three, without. |
| Tails.LoopStaysLow | src/runtime.c:242-247 | With tail-call elimination the program ```` ```sii``sii ```` runs for ever on a stack that never holds more than four elements. |
| Tails.LoopClimbs | src/runtime.c:242-249 | Without it, for every n there is a time at which the same program has more than n elements on its stack. |
| Tails.StaysLow | src/runtime.c:242-247 | The same bound for any program that comes to such a loop, over the stack it has then. |
| Tails.Climbs | src/runtime.c:242-249 | Each round of the loop adds one element without tail-call elimination. |
| Codes.TokensAreCodes | src/vm_defs.h:55-61 | Token codes of primitives are their function codes and never zero, so that copying tokens into operands (src/codegen.c:126-129) is sound. |
| Codes.CountedValues | src/vm_defs.h:55-72 | By function code, a variable is a counted reference if and only if it stands for K1, S1, S2, C1 or one of the two promises of values. |
| Codes.CountedBit | src/vm_defs.h:50-53 | By number, for all bytes: counted exactly if bit 5 is set, and then it refers to its slot once. |
| Codes.OffsetBit | src/vm_defs.h:28-41 | An instruction has an offset to decode exactly if its opcode is 32, 33 or 96, the ones with bit 5. |
| Codes.RefsMentioned | src/vm_stack.c:54-59 | Among variables with codes in use, the references to a slot are those with one of the codes 32 to 35, 96 and 97 that name it. |
| Codes.CopyCounts | src/vm_stack.c:54-59 | Copying a segment raises the count of a slot by the number of variables with these six codes in the segment that name it. |
| Codes.DropValue | src/runtime.c:117-122 | Dropping a variable lowers counts exactly if it has one of the six codes; otherwise nothing in memory changes. |
| Simulation.StepSim | src/runtime.c:209-369 | From related states, one VM instruction is matched by n reference steps to related states again; n is zero only while a measure on the VM state falls, and otherwise depends on the reference state alone. |
| Simulation.PerformSim | src/runtime.c:229-334 | Every case of the function switch: applying related values leads to related states after at least one reference step. |
| Simulation.PerformForce | src/runtime.c:286-297 | All three promise forms force alike: the delayed computation starts at once, with the argument waiting for its value and the caller's continuation behind it. |
| Simulation.ForceSim | src/runtime.c:267-271 | A force marker on top: the value found is applied to the waiting argument, and the call returns to where the promise was forced. |
| Simulation.ShareCall | src/runtime.c:237-249 | Entering the shared routine for a full `s`, with or without a return marker, sets up the left half of the doubled application. |
| Simulation.ShareSim | src/runtime.c:342-351 | In the middle of `s`: if the left half came out as `d` the right half becomes a promise, otherwise it is evaluated next. |
| Simulation.MarkerAnywhere | src/runtime.c:43-49 | A return or force marker may be popped by any LA of the shared routine: a call that was not given a marker of its own returns to the right place. |
| Simulation.MarkerSim | src/runtime.c:263-266 | Popping a return marker is no reference step at all; the continuation represented stays the same and the stack gets lower. |
| Simulation.CallBack | src/runtime.c:272-276 | The shape pushed by `c`, `@`, the comparison, the reprint function and ready promises makes instruction 3 perform the call and return behind the caller. |
| Simulation.CodeArgSim | src/runtime.c:336-341 | At SA: a function value that is `d` becomes a promise for the code between SA and LA, skipping it; any other value is pushed and the code is run. |
| Simulation.DelayStep | src/runtime.c:352-355 | At DEL: the result is a promise for the code in between, and execution resumes behind the matching LA with the same stack. |
| Simulation.FunSim | src/runtime.c:211-228 | At LA and at applications with a primitive, the waiting function meets the argument in the accumulator. |
| Simulation.LeafArgSim | src/runtime.c:214-217 | A computed function meets a primitive argument; `d` delays it. |
| Simulation.ReturnSim | src/runtime.c:209-369 | With a value in the accumulator, every instruction that compiled code can stand at does what the continuation says. |
| Simulation.BeginSim | src/codegen.c:107-130 | With code ahead, the first instruction leads to the innermost application that is evaluated first, for every shape of tree. |
| Simulation.ChainRun | src/codegen.c:131-140 | In the reference machine, a chain of printing functions writes its characters innermost first and returns its end. |
| Simulation.PrintSim | src/runtime.c:301-304 | The folded form prints all characters of the chain at once and returns the same value to the same continuation. |
| Simulation.RelShaped | src/runtime.c:76-79 | A stack that represents a continuation has every force marker over its argument, and the return address is inside the text. |
| Simulation.RelPure | src/runtime.c:263-271 | No marker, filler or string printer occurs anywhere inside a VM value that represents a language value, saved stacks included. |
| Simulation.RelSound | src/runtime.c:209-369 | Every VM state related to a reference state has the stack and accumulator shape stated above. |
| Simulation.Advance | src/runtime.c:209-369 | From related states both machines can be run arbitrarily far and be related again. |
| Simulation.AdvanceBoth | src/runtime.c:242-247 | Two VM images compiled alike that stand for one reference state can both be run arbitrarily far and stand for one reference state again. |
| Simulation.Follow | src/runtime.c:209-369 | After any number of VM instructions some number of reference steps catches up. |
| Reference.ExitStays | src/runtime.c:329-331 | Two ends of one reference run are the same end. |
| Reference.OutputGrows | src/runtime.c:261-261 | Written output is never taken back in a reference run. |
| Machine.StopStays | src/runtime.c:329-331 | Once the VM has stopped, more fuel changes nothing. |
| Machine.OutputGrows | src/runtime.c:301-304 | Written output is never taken back in a VM run. |
| Vm.Interpreter.constructor | src/runtime.c:201-203 | The interpreter starts at the VM's start state. |
| Vm.Interpreter.Execute | src/runtime.c:209-369 | The dispatch loop run for any number of turns ends in exactly the state the VM specification reaches. |
| Vm.Interpreter.Turn | src/runtime.c:210-368 | One turn with its registers, jumps and the shared `++ins` is one step of the specification. |
| Vm.Interpreter.Perform | src/runtime.c:229-334 | The function switch in place, whether it leaves by `break` or by a jump, has the specified effect. |
| Vm.Interpreter.Exchange | src/runtime.c:349-349 | Replaces the element under the top and returns it, or faults on a stack of fewer than two. |
| Vm.Interpreter.Pop | src/runtime.c:76-79 | Returns and removes the top, or faults and leaves the stack as it was. |
| Vm.Interpreter.CallAt3 | src/runtime.c:272-276 | Pushes a return marker for the current instruction and the callee, and goes on at index 3. |
| Compile.TextPlaced | src/codegen.c:108-123 | Code stored in a loaded image has its parts where the tree says: every SA and DEL offset is one past its own matching LA, regions nest as the tree does, and every string offset reads back its characters. |
| Compile.FoldPlaced | src/codegen.c:152-161 | A folded chain: LC points at a string that reads as exactly the chain's characters, followed by the application to its end. |
| Compile.FoldedCode | src/codegen.c:131-162 | A chain of four printing functions or more, if folding is on, is two instructions and a string of its characters, innermost first, and a zero. |
| Compile.PlainCode | src/codegen.c:131-150 | A chain of up to three, or any if folding is off, is one instruction for each printing function, innermost first, and no string. |
| Compile.ChainedOut | src/codegen.c:134-140 | The characters of a chain come out in the order in which they are printed. |
| Compile.CStringReads | src/codegen.c:152-152 | Reading from an offset to the first zero byte yields exactly the stored characters, whatever stands behind. |
| Compile.ChainHasNoNul | src/lexer.c:36-39 | A folded string has no zero byte inside. |
| Compile.TextSplit | src/codegen.c:173-188 | The code of an unfolded application splits in memory into function, skip instruction, argument and finishing instruction, with the argument compiled for its own address and rodata offset. |
| Codegen.Generate | src/codegen.c:82-191 | The one-pass loop over the node array emits exactly the recursive compiler's text and strings, at most two instructions per application, within buffers and a pending stack of one element per node. |
| Codegen.Generator.Visit | src/codegen.c:105-190 | Handling a node and still owing its children comes to the same final output as owing the node, and room for what is still owed remains. |
| Codegen.Generator.VisitPair | src/codegen.c:130-188 | The same for an application of two primitives, be it folded, rolled back or emitted, followed by the pops. |
| Codegen.Generator.Fold | src/codegen.c:131-162 | Decides by the length of the whole pending chain; a short one leaves text, strings and pending stack exactly as they were, a long one is replaced by its string and two instructions. |
| Codegen.Generator.Collect | src/codegen.c:134-145 | Appends the characters of the pending chain, outermost last, and takes exactly the chain's instructions off the stack. |
| Codegen.Generator.Flush | src/codegen.c:173-188 | Pops pending instructions up to and including the first SA, patching each LA's partner. |
| Codegen.Generator.FlushOne | src/codegen.c:174-187 | One turn of that loop, with the room still needed never growing. |
| Codegen.Generator.EmitPending | src/codegen.c:183-186 | Emits a popped instruction; if it is LA, the skip instruction it belongs to gets the next address. |
| Codegen.PatchStep | src/codegen.c:184-186 | Backpatching an open skip offset gives the very text that the recursive compiler writes with the address known. |
| Codegen.SkipStep | src/codegen.c:173-182 | Function, flush that turns the pending SA into a pending LA, argument, flush: together the code of the application. |
| Codegen.DelayStep | src/codegen.c:118-123 | DEL now, LA pending: after the argument, the code of the delayed application. |
| Codegen.AbsorbShort | src/codegen.c:147-150 | A chain too short to fold comes out the same whether its instructions are popped one by one or compiled as one tree. |
| Codegen.FoldStep | src/codegen.c:151-161 | At the inner end of a long chain, emitting the string stands for all the outer nodes visited before. |
| Codegen.EnterStep | src/codegen.c:107-130 | Whatever a node with a compound child pushes or emits, the rest of the walk completes it to the code of that node. |
| Codegen.TextBound | src/codegen.c:84-84 | The code of n applications has at most 2n instructions, folded or not. |
| Parser.Parse | src/parser.c:30-85 | Succeeds if and only if the tokens are one complete prefix expression; then the array is exactly the pre-order layout of the guard applied to it, sibling indices included. |
| Parser.Place | src/parser.c:53-70 | One token: array and stack of open applications go from those of the partial tree to those of the tree with its leftmost hole filled. |
| Parser.FillOpen | src/parser.c:59-70 | How a token changes the stack of open applications, for every partial tree; its top lacks its left child exactly if nothing has been written behind it. |
| Parser.FillNodes | src/parser.c:60-67 | How a token changes the nodes: one node more, and the top's left child learns its sibling's index when the right child arrives. |
| Parser.FillTokens | src/parser.c:67-67 | Filling the leftmost hole appends the token to the flattened tree. |
| Parser.WriteStep | src/parser.c:60-67 | The source's test for an unfilled left child tells left from right, all indices are in bounds, and the array stays that of the partial tree. |
| Parser.StackStep | src/parser.c:65-70 | The parser's own stack, guard at the bottom, follows suit. |
| Parser.Verdict | src/parser.c:55-58 | Ended with no hole the tokens are that expression's; ended with holes, or with tokens left over, they are no expression's. |
| Parser.NodesLayout | src/parser.c:31-34 | The nodes of a tree without holes are the layout of its expression, and its tokens the flattened expression. |
| Parser.MissingFlatten | src/parser.c:51-72 | The tokens of an expression supply exactly one missing expression, whatever follows. |
| Ast.LayoutAt | src/defs.h:52-61 | Following left-child and sibling fields through a laid-out array finds the expression. |
| Ast.FlattenUnique | src/parser.c:51-72 | Prefix notation is read in one way only: equal token lists come from equal trees with equal remainders. |
| Lexer.Lex | src/lexer.c:46-142 | The character loop with its growing buffer yields the tokens, or the very error, that the specification gives for the source. |
| Lexer.LexExactly | src/lexer.c:56-137 | A source is accepted with certain tokens if and only if it consists of spellings of these tokens with blanks and comments between them, and there are not too many. |
| Lexer.PrintLex | src/lexer.c:56-137 | Printed tokens with anything blank between them lex to the same tokens. |
| Lexer.BlankScan | src/lexer.c:58-68 | White space and comments in front of a source change nothing. |
| Lexer.WordScan | src/lexer.c:82-134 | A spelling in front of a source puts its token in front of the result; the byte behind `.` or `?` is taken literally. |
| Lexer.ScanReads | src/lexer.c:56-137 | Whatever is accepted can be cut into blanks and spellings of the tokens returned. |
| Lexer.ScanPlain | src/lexer.c:36-39 | Every character in a token is printable or a newline. |
| Lexer.CaseBlind | src/lexer.c:86-128 | Letters are read without regard to case, `r` is `.` with a newline, and no function name is blank, a comment or the start of a two-byte token. |
| Lexer.SkipComment | src/lexer.c:58-62 | The comment loop stops at the newline or the end, where the rest lexes as the whole. |
| Lexer.ReadToken | src/lexer.c:82-134 | The switch reads one token as specified or stops with the specified error. |
| Lexer.Grow | src/lexer.c:69-81 | Growing doubles the buffer and keeps the tokens. |
| Alphabet.BlankByte | src/lexer.c:66-68 | The bytes 9 to 13 and 32 are skipped. |
| Alphabet.CommentByte | src/lexer.c:58-65 | From byte 35 everything up to and including the first byte 10 is skipped, or the rest of the source if there is none. |
| Alphabet.TokenTooMany | src/lexer.c:69-74 | Behind 4194304 tokens any other byte is one token too many. |
| Alphabet.LiteralByte | src/lexer.c:30-41 | After byte 46 or 63 exactly the bytes 32 to 126 and 10 make a token; any other is unprintable, and none at all an unexpected end. |
| Alphabet.LetterByte | src/lexer.c:82-131 | Every other byte is the token of a table in byte values (`r` and `R` print byte 10), or a bad character. |
| Alphabet.Letters | src/lexer.c:56-134 | A source of single-letter tokens only lexes to exactly these. |
| Alphabet.CatSource | src/lexer.c:56-134 | Thirteen bytes of source mean a program that, compiled, copies every input. |
| Loader.Decode | src/runtime.c:186-190 | The decoding loop as written decodes the offsets from the end of the shared routine up to index `text_len`, and nothing else. |
| Loader.LoadText | src/runtime.c:171-190 | What is in memory after loading a compiled program: all but its last five instructions decoded. |
| Loader.LoadedExactly | src/runtime.c:186-190 | That is the compiled program if and only if each of the last five instructions has no offset or one that is the same in both byte orders. |
| Loader.LoaderMeets | src/runtime.c:171-190 | For every accepted source the offsets fit their words, and loading yields the text of the correctness theorems exactly on that condition. |
| Loader.LoaderCounterexample | src/runtime.c:186-190 | The delayed application of `k` to `i` ends by the reference, but as loaded by the literal loop it jumps out of the text. |
| Loader.LoadedEach | src/runtime.c:186-190 | Each word of loaded memory by kind of instruction: the five of the shared routine, then the code, in which the offsets of SA, DEL and LC among the last five are byte-reversed and all else is as compiled. |
| Loader.StringCounterexample | src/runtime.c:186-190 | Under `k`, one folded chain of four characters applied to another: the second LC has offset 5 and is loaded with 0x05000000, in a program with ten bytes of strings. |
| Loader.SwapSwap | src/codegen.c:156-156 | Writing in network order and reading back is the identity on words. |
| Loader.OffsetsInside | src/codegen.c:173-188 | Every skip offset points behind its instruction and not past the end of the expression's own code, every string offset into the expression's own strings. |
| Heap.SlotDies | src/vm_pool.h:171-180 | When a count reaches zero the slot becomes a hole and what it referred to is owed by whoever freed it; exact counts stay exact. |
| Heap.CountChanges | src/vm_pool.h:160-171 | Raising or lowering a count together with the references held outside keeps the invariant. |
| Heap.Alloc | src/vm_pool.h:87-103 | Filling the top hole, or the next slot never used, moves the caller's references into the slot; exact counts stay exact. |
| Heap.HoleRoom | src/vm_pool.h:172-172 | The hole list never outgrows its buffer. |
| Heap.SegReplace | src/vm_stack.c:66-85 | Changing, linking or freeing a segment keeps the invariant if references, links and heads are handed over accordingly. |
| Heap.FreeHead | src/vm_stack.c:72-80 | Freeing a head owes one pool reference for each counted element in it, and the link to the segment below. |
| Heap.Unlink | src/vm_stack.c:72-83 | Lowering a segment's count gives up one link; at zero the segment becomes a head to be freed. |
| Heap.AddSeg | src/vm_stack.c:30-42 | A new head takes over references and a link; exact counts stay exact. |
| Heap.Relink | src/vm_stack.c:186-196 | Moving a segment from one predecessor to another exchanges the two links. |
| Heap.ViewFrame | src/vm_stack.h:66-136 | Changing a segment that nothing stands on changes no stack but its own. |
| Heap.WriteViews | src/vm_stack.h:66-136 | Writing to the active segment changes no other stack that anyone owns, those of continuations included. |
| Heap.KeptViews | src/vm_stack.c:66-85 | Where segments have only been freed, recounted or added, every stack that anyone owns before and after, in the pool or outside, shows the same sequence. |
| Memory.Memory.constructor | src/vm_pool.c:28-57 | Empty pool, empty stack, invariant established. |
| Memory.Memory.Allocate | src/vm_pool.h:87-103 | Fails exactly if there is no hole and the pool is used up; otherwise returns a slot that was free, with count one, all other slots untouched and exact counts kept exact. |
| Memory.Memory.Alloc1 | src/vm_pool.h:115-121 | The same for a closure over one value, whose second field refers to nothing. |
| Memory.Memory.Alloc2 | src/vm_pool.h:123-129 | The same for a closure over two values. |
| Memory.Memory.Alloc2Ptr | src/vm_pool.h:131-137 | The same for a continuation, which comes to own a stack head. |
| Memory.Memory.AddRef | src/vm_pool.h:160-163 | One count goes up by one and the caller holds one reference more; exact counts stay exact. |
| Memory.Memory.Release | src/vm_pool.h:165-182 | The cascade ends, with a lower sum of counts, in exactly the memory that the function of the memory before gives; no count becomes too low, and exact counts stay exact if and only if the release is in order; otherwise they are too high by just the references forgotten. What survives keeps its content. |
| Memory.Memory.Drain | src/vm_pool.h:170-181 | The release loop behind its first turn empties the list, with the memory and the forgotten references as the function says. |
| Memory.Memory.SettleNext | src/vm_pool.h:79-85 | Takes the last entry off the list and settles it: memory, list and forgotten references are those of one turn. |
| Memory.Memory.Settle | src/vm_pool.h:170-181 | One turn of the release loop consumes one reference and leaves memory, list and forgotten references as the function of one turn says; the invariant and exact counts account for each. |
| Memory.Memory.Bury | src/vm_pool.h:173-179 | A dead closure's references go on the list, second field first; a dead continuation's stack is discarded, which forgets the list exactly if it releases anything. |
| Memory.Memory.Lower | src/vm_pool.h:171-172 | Lowers a count and records a hole exactly if it reaches zero. |
| Memory.Memory.FreePush | src/vm_pool.h:72-77 | Puts the reference of a counted variable on top of the list. |
| Memory.Memory.ReleaseVar | src/runtime.c:117-122 | Drops the reference that a variable may be: then the sum of counts falls, and without one the memory is unchanged; the list is empty afterwards exactly where there was one, or it was empty before. |
| Memory.Memory.ReleaseAll | src/vm_stack.c:73-78 | Drops one reference for each counted element of a freed segment. |
| Memory.Memory.FreeChain | src/vm_stack.c:70-84 | The discarding loop gives up a link and, as long as segments go by it, the next; the release list is emptied exactly if one of those held a reference. |
| Memory.Memory.Discard | src/vm_stack.c:66-85 | Frees a head and every segment below it that nothing else stands on, consuming the caller's ownership of that head; exact counts stay exact if and only if discarding is in order, a condition on the memory before. |
| Memory.Memory.FreeSegment | src/vm_stack.c:70-84 | One turn of that loop: lowers the count, or, if the link was the last, frees the segment, releases what it held and goes on with the link to the next. |
| Memory.Memory.Dup | src/vm_stack.c:44-64 | A copy of the top segment on the same predecessor shows the same stack and is owned separately; every other stack is as it was, and the counts of slots rise by exactly the references in the segment. |
| Memory.Memory.RetainAll | src/vm_stack.c:54-59 | Raises each count by exactly the number of references to it in the copied segment. |
| Memory.Memory.Push | src/vm_stack.h:66-125 | Pushing one to four values appends them to the active stack, in the segment if they fit and otherwise in a new one, and leaves every other owned stack, those of continuations included, as it was; exact counts stay exact. |
| Memory.Memory.PushSplit | src/vm_stack.c:98-154 | The same when the segment is full: the values go to a new segment on top of it, whose count becomes one. |
| Memory.Memory.Pop | src/vm_stack.c:156-174 | Takes the last element off the active stack and hands over its reference; none, and nothing changed, exactly if the stack is empty; every other owned stack, those of continuations included, and the content of slots stay as they were, exact counts stay exact. |
| Memory.Memory.TakeTop | src/vm_stack.h:132-133 | The pop inside the active segment. |
| Memory.Memory.Descend | src/vm_stack.c:159-172 | Leaving a used-up segment keeps the stack: the one below becomes active, or a copy of it if something else stands on it. |
| Memory.Memory.Xch | src/vm_stack.h:141-153 | Replaces the last but one element and hands over the old one, wherever the segment boundary lies; none, and nothing changed, exactly if there are fewer than two; every other owned stack, those of continuations included, and the content of slots stay as they were, exact counts stay exact. |
| Memory.Memory.SetSecond | src/vm_stack.h:146-148 | The exchange inside the active segment. |
| Memory.Memory.OwnBelow | src/vm_stack.c:186-194 | Before an exchange across the boundary the segment below is copied if shared; all owned stacks stay the same. |
| Memory.Memory.SetBelow | src/vm_stack.c:195-196 | Then its top is replaced in the active stack, and in no other that anyone owns. |
| Memory.Memory.Save | src/vm_stack.h:158-161 | Saving gives a second head that shows the active stack; all other owned stacks stay the same. |
| Memory.Memory.Capture | src/runtime.c:272-275 | Save, then allocate: a continuation in a slot that was free shows the active stack; fails exactly if the pool is full; all other owned stacks and the slots in use stay as they were, exact counts stay exact. |
| Memory.Memory.Separate | src/vm_pool.h:149-158 | The stack to put in force shows what the continuation shows; it is a new head of its own if and only if the slot has more than one reference, and otherwise nothing has changed. |
| Memory.Memory.Resume | src/vm_stack.h:169-173 | The active stack is discarded; every stack that is still owned shows what it showed before; exact counts are exact but for what is forgotten, and nothing is if and only if discarding the active stack is in order. |
| Memory.Memory.Reinstate | src/runtime.c:280-282 | Separate, then resume: the saved sequence is in force, and every stack still owned, the continuation's own among them, shows what it showed. The count stays above what the caller holds besides, the invariant holds afterwards if and only if the count was above one, and exact counts are exact but for the forgotten references returned. |
| Memory.Memory.Act | src/vm_stack.h:66-153 | The same for one operation, with the references it hands over. |
| Memory.Memory.Operate | src/vm_stack.h:66-153 | Any run of pushes, pops and exchanges does what it does to a plain sequence, stops exactly where that is too short, leaves every other owned stack, those of continuations included, and the content of every slot as it was, and keeps exact counts exact. |
| Steps.ViewsShrink | src/vm_stack.c:66-85 | After any release, every stack that is still owned shows what it showed before. |
| Steps.OneOwner | src/vm_pool.h:153-156 | No memory in which a continuation in use holds the active stack satisfies the invariant, whoever the owners are. |
| Continuations.Roam | src/runtime.c:272-285 | Any run of pushes (of the run's continuations too), pops, exchanges, captures and jumps does what it does to a plain sequence with snapshots, so that each jump puts in force what the stack was at capture, however often; every continuation that is held shows its snapshot throughout. It stops short only where the sequence is too short, the pool is full, or the jump is to a continuation held once from the start. Exact counts stay exact but for what jumps make be forgotten. |
| Continuations.Go | src/runtime.c:272-285 | One such move. |
| Continuations.GoBack | src/vm_pool.h:149-158 | A jump to a continuation with more than one reference installs its snapshot and leaves all held ones able to be jumped to again. |
| Continuations.GoSave | src/runtime.c:272-275 | A capture adds the present sequence to the snapshots and takes nothing from the others. |
| Continuations.GoRecall | src/runtime.c:274-274 | A continuation pushed as a value, with a reference of its own, leaves all snapshots as they are. |
| Cascade.DrainedLost | src/vm_pool.h:165-182 | A release from any list, on any memory, forgets nothing if and only if it is in order: no continuation that dies with something on the list has a stack whose discarding releases something. |
| Cascade.DiscardedLost | src/vm_stack.c:66-85 | The same for discarding a stack. |
| Cascade.ClosedDrained | src/vm_pool.h:170-181 | Releasing slots of a set of closures over that set is in order, and changes neither segments nor slots outside the set. |
| Cascade.ClosedDiscard | src/vm_stack.c:66-85 | Discarding a stack is in order if the references in the segments that go lie in such a set, so also if there are none. |
| Cascade.ClosedCont | src/vm_pool.h:173-175 | Releasing a continuation whose stack is such is in order. |
| Cascade.BareCont | src/vm_pool.h:173-175 | So it is if what goes of its stack holds no reference. |
| Cascade.DoomedLoses | src/vm_pool.h:169-178 | Where closures held once lead, first fields first, to a continuation held once with a reference in what goes of its stack, and something is on the list by then, the release is not in order, and all that was on the list at the start is forgotten. |
| Closures.FromStart | src/vm_pool.h:87-182 | From an empty memory, any run of making closures over nothing, one or two held references, sharing and dropping: counts are exact afterwards, and the slots in use are exactly those that can be reached. |
| Closures.RunHeap | src/vm_pool.h:87-182 | The same from any memory in order; the run stops only at an operation that names no held reference or finds the pool full. |
| Closures.Carry | src/vm_pool.h:115-182 | One such operation keeps counts exact and references pointing from younger to older closures, and changes the held references as it should. |
| Continuations.PushShows | src/vm_stack.h:66-74 | A push inside a segment appends to the stack that ends in it, so it shows in a continuation that holds that very stack. |
| Continuations.OneReferenceCounterexample | src/vm_pool.h:153-156 | Captured from an empty stack, reinstated by its only reference, and one push: the continuation shows the pushed value. |
| Continuations.ForgetfulCounterexample | src/vm_pool.h:169-174 | From exact counts, releasing a closure over a continuation and a slot leaves that slot with a higher count than it has references. |
| Continuations.SharedReached | src/vm_stack.h:66-74 | Pushes, a save and a pop lead to the memory of Reach.PopInPlaceCounterexample. |
| Reach.LiveIffReachable | src/vm_pool.h:165-182 | With exact counts and references from younger to older slots only, the slots in use are exactly those reachable from the references held outside and in stack segments. |
| Reach.ReleasedExactly | src/vm_pool.h:165-182 | What a release leaves in use, with exact counts for the references left and those forgotten, is exactly what could be reached from these in the heap before it; references still point from younger to older slots. |
| Reach.AllocOrdered | src/vm_pool.h:115-129 | Allocation keeps references pointing from younger to older slots, so there are never cycles. |
| Reach.ReachableLive | src/vm_pool.h:160-182 | A slot on a path from outside is in use, also with counts that are too high. |
| Reach.NoDangling | src/vm_pool.h:165-182 | No hole is referred to by a slot in use, a live segment or from outside, with continuations too. |
| Reach.SegmentsNeeded | src/vm_stack.c:66-85 | The segments on the heap are exactly those under some owned head. |
| Reach.PopInPlaceView | src/vm_stack.h:50-61 | The literal top-then-pop pair always takes the last element off the active stack. |
| Reach.PopInPlaceExactly | src/vm_stack.h:50-61 | Applied once, it leaves all other owned stacks as they were if and only if the active segment holds something or nothing else stands on the one below. |
| Reach.PopInPlaceInvariant | src/vm_stack.h:50-61 | Some owners and order make the invariant hold after it if and only if the active segment holds something; then the caller gains just the reference taken off. |
| Reach.PopInPlaceCounterexample | src/vm_stack.h:50-61 | A valid memory with one saved stack that the pair changes. |

## Left out

- File and header I/O, option parsing, logging, mnemonics and dumps: input is a byte sequence with a position, output a sequence that is appended to.
- Big-endian hosts: there the decoding loop changes nothing and its end does not matter.
- Running out of memory and the longjmp behind it: allocation of buffers and segments succeeds; a full pool is a result of `Memory.Memory.Allocate`.
- `--force` and bytecode not made by this compiler: an invalid function or opcode is a fault of the VM, shown unreachable for compiled programs.
- The byte layout of tokens, instructions and variables: they are constructors. `Codes` gives their numbers and shows what relies on them, but structs and unions are not modelled.
- Stale bytes: the `ref` and `ch` fields that a register keeps when only its function code is overwritten have no counterpart in the value datatypes.
- The VM on top of the memory modules: the VM's values are trees and its stack a list, continuations are saved lists. The reference accounting of the dispatch loop itself (src/runtime.c:57-79, 229-334), which releases and adds references inconsistently, is not modelled; the memory operations are proved for callers that own what they pass.
- Vm.Interpreter.Execute: takes a number of turns, where the source loops until `e` is applied; statements about all runs quantify over it.
- Continuations.Roam: jumps go by the number of the continuation in the run; that a value popped off the stack names that continuation is for the caller to know. The references in pushed values other than the run's own continuations are held from the start.
- Memory.Memory.Pop: is not the literal pair of `top` and `pop`, which Reach.PopInPlaceExactly describes; the two agree on the active stack.
- Memory.Memory.Push: stands for `push1` to `push4`, which differ in the number of values only.
- Memory.Memory.Release: the list of slots still to be lowered has no size limit, where the source allots one entry per instruction (src/vm_pool.c:43).
- Segments as heap objects: segments are records in a growing sequence, replaced as a whole, with indices for addresses. A segment is marked free before its elements are released, not after, and a copy is linked before its predecessor's count is lowered, not after; the steps in between look at neither.
- The size of stack segments: at least 64 elements, the lower limit that option processing enforces (src/vm_defs.h:108).
